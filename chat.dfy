/** The chat page's conversation state and the handlers that change it.
    The component keeps three pieces of state: the transcript `messages`, the
    draft `input` and the busy flag `isStreaming`. Submitting runs in two
    phases: a synchronous part that checks the guard, records the user turn and
    hands the transcript to the relay, and a part that runs once the relay's
    stream has been read to its end (or has failed). The stream itself is given
    here as the finite sequence of fragments it delivered. */
module Chat {
  import opened Whitespace

  datatype Role = User | Assistant

  /** One transcript entry; never changed once it is in the transcript. */
  datatype ChatMessage = ChatMessage(role: Role, content: string)

  datatype Option<T> = None | Some(value: T)

  /** How reading the relay's stream ended: it finished after delivering the
      given fragments, or it threw. A remote run that fails still finishes
      the stream, with no fragment: that is `Completed([])`. */
  datatype RelayOutcome = Completed(chunks: seq<string>) | Failed

  /** The fragments of a stream joined in the order they arrived. */
  function Concat(chunks: seq<string>): string
  {
    if chunks == [] then ""
    else Concat(chunks[..|chunks| - 1]) + chunks[|chunks| - 1]
  }

  /** Joining keeps order across any split of the stream. */
  lemma {:induction false} ConcatAppend(a: seq<string>, b: seq<string>)
    ensures Concat(a + b) == Concat(a) + Concat(b)
    decreases |b|
  {
    if b == [] {
      assert a + b == a;
    } else {
      var last := |b| - 1;
      assert (a + b)[..|a + b| - 1] == a + b[..last];
      ConcatAppend(a, b[..last]);
    }
  }

  /** Each fragment appears whole, after everything received before it and
      before everything received after it. */
  lemma ConcatAt(chunks: seq<string>, i: nat)
    requires i < |chunks|
    ensures Concat(chunks) == Concat(chunks[..i]) + chunks[i] + Concat(chunks[i + 1..])
  {
    var upTo := chunks[..i + 1];
    assert chunks == upTo + chunks[i + 1..];
    ConcatAppend(upTo, chunks[i + 1..]);
    assert upTo[..|upTo| - 1] == chunks[..i];
  }

  /** The length of the reply is the total length of the fragments. */
  function TotalLength(chunks: seq<string>): nat
  {
    if chunks == [] then 0 else |chunks[0]| + TotalLength(chunks[1..])
  }

  lemma {:induction false} ConcatLength(chunks: seq<string>)
    ensures |Concat(chunks)| == TotalLength(chunks)
    decreases |chunks|
  {
    if chunks != [] {
      assert chunks == [chunks[0]] + chunks[1..];
      ConcatAppend([chunks[0]], chunks[1..]);
      assert [chunks[0]][..0] == [];
      ConcatLength(chunks[1..]);
    }
  }

  /** The `for await` loop: `accumulatedContent` starts empty and each
      fragment is appended to it as it arrives. */
  method AccumulateChunks(chunks: seq<string>) returns (acc: string)
    ensures acc == Concat(chunks)
  {
    acc := "";
    for i := 0 to |chunks|
      invariant acc == Concat(chunks[..i])
    {
      assert chunks[..i + 1][..i] == chunks[..i];
      acc := acc + chunks[i];
    }
    assert chunks[..|chunks|] == chunks;
  }

  /** The early-return guard of `handleSubmit`: the trimmed draft must be
      non-empty and no request may be in flight. */
  function AcceptsSubmit(input: string, isStreaming: bool): (ok: bool)
    ensures ok <==> !IsBlank(input) && !isStreaming
  {
    TrimEmptyIff(input);
    Trim(input) != [] && !isStreaming
  }

  /** Every assistant entry directly follows a user entry: each reply
      answers a turn. */
  predicate RepliesFollowTurns(ms: seq<ChatMessage>)
  {
    forall i :: 0 <= i < |ms| && ms[i].role == Assistant ==> 0 < i && ms[i - 1].role == User
  }

  function CountRole(ms: seq<ChatMessage>, role: Role): nat
  {
    if ms == [] then 0
    else CountRole(ms[..|ms| - 1], role) + (if ms[|ms| - 1].role == role then 1 else 0)
  }

  /** So there are never more replies than user turns. */
  lemma {:induction false} RepliesNeverOutnumberTurns(ms: seq<ChatMessage>)
    requires RepliesFollowTurns(ms)
    ensures CountRole(ms, Assistant) <= CountRole(ms, User)
    decreases |ms|
  {
    if ms != [] {
      var n := |ms| - 1;
      var init := ms[..n];
      assert RepliesFollowTurns(init) by {
        forall i | 0 <= i < |init| && init[i].role == Assistant
          ensures 0 < i && init[i - 1].role == User
        {
          assert ms[i] == init[i];
        }
      }
      RepliesNeverOutnumberTurns(init);
      if ms[n].role == Assistant {
        assert ms[n - 1].role == User;
        var m := n - 1;
        assert init[..m] == ms[..m];
        assert CountRole(init, User) == CountRole(ms[..m], User) + 1;
        assert CountRole(init, Assistant) == CountRole(ms[..m], Assistant);
        assert RepliesFollowTurns(ms[..m]) by {
          forall i | 0 <= i < m && ms[..m][i].role == Assistant
            ensures 0 < i && ms[..m][i - 1].role == User
          {
            assert ms[..m][i] == ms[i];
          }
        }
        RepliesNeverOutnumberTurns(ms[..m]);
      }
    }
  }

  /** The page component's state. Setter calls take effect at once, in the
      order the handler makes them. */
  class ChatSurface {
    var messages: seq<ChatMessage>
    var input: string
    var isStreaming: bool

    /** Replies follow turns, and while a request is in flight the newest
        entry is the user turn it was sent for. */
    ghost predicate Valid()
      reads this
    {
      RepliesFollowTurns(messages) &&
      (isStreaming ==> messages != [] && messages[|messages| - 1].role == User)
    }

    /** The initial state: empty transcript, empty draft, idle. */
    constructor ()
      ensures Valid()
      ensures messages == [] && input == "" && !isStreaming
    {
      messages := [];
      input := "";
      isStreaming := false;
    }

    /** The draft's `onChange`; the text area is disabled while busy. */
    method Edit(text: string)
      requires Valid() && !isStreaming
      modifies this
      ensures Valid()
      ensures input == text && messages == old(messages) && isStreaming == old(isStreaming)
    {
      input := text;
    }

    /** The synchronous part of `handleSubmit`, up to the relay call. The
        result is the transcript handed to the relay, or `None` when the
        guard returns early and nothing is sent. The relay receives the
        transcript as it was when the handler started, plus the new turn. */
    method BeginSubmit() returns (relay: Option<seq<ChatMessage>>)
      requires Valid()
      modifies this
      ensures Valid()
      ensures relay.Some? <==> !IsBlank(old(input)) && !old(isStreaming)
      ensures relay.Some? ==>
        messages == old(messages) + [ChatMessage(User, old(input))] &&
        input == "" && isStreaming &&
        relay.value == messages
      ensures relay.None? ==>
        messages == old(messages) && input == old(input) && isStreaming == old(isStreaming)
    {
      var rendered := messages;
      if !AcceptsSubmit(input, isStreaming) {
        return None;
      }
      isStreaming := true;
      var newMessage := ChatMessage(User, input);
      messages := messages + [newMessage];
      input := "";
      relay := Some(rendered + [newMessage]);
    }

    /** The stream finished: the fragments are joined into one assistant
        entry and the busy flag is cleared. */
    method FinishSubmit(chunks: seq<string>)
      requires Valid() && isStreaming
      modifies this
      ensures Valid()
      ensures messages == old(messages) + [ChatMessage(Assistant, Concat(chunks))]
      ensures !isStreaming && input == old(input)
    {
      var accumulatedContent := AccumulateChunks(chunks);
      messages := messages + [ChatMessage(Assistant, accumulatedContent)];
      isStreaming := false;
    }

    /** The stream threw: the error is logged, nothing is appended and the
        busy flag is cleared; the user turn stays. */
    method FailSubmit()
      requires Valid() && isStreaming
      modifies this
      ensures Valid()
      ensures messages == old(messages) && !isStreaming && input == old(input)
    {
      isStreaming := false;
    }

    /** What a whole run of `handleSubmit` does, given how its stream ended. */
    twostate predicate SubmitHandled(outcome: RelayOutcome, new relay: Option<seq<ChatMessage>>)
      reads this
    {
      var turn := ChatMessage(User, old(input));
      if !IsBlank(old(input)) && !old(isStreaming) then
        relay == Some(old(messages) + [turn]) &&
        input == "" && !isStreaming &&
        messages == old(messages) + [turn] +
          (match outcome
           case Completed(chunks) => [ChatMessage(Assistant, Concat(chunks))]
           case Failed => [])
      else
        relay == None &&
        messages == old(messages) && input == old(input) && isStreaming == old(isStreaming)
    }

    /** `handleSubmit` from start to end. */
    method HandleSubmit(outcome: RelayOutcome) returns (relay: Option<seq<ChatMessage>>)
      requires Valid()
      modifies this
      ensures Valid()
      ensures SubmitHandled(outcome, relay)
    {
      relay := BeginSubmit();
      if relay.Some? {
        match outcome
        case Completed(chunks) => FinishSubmit(chunks);
        case Failed => FailSubmit();
      }
    }

    /** `handleKeyDown`: Enter without Shift suppresses the newline and
        submits; any other key is left to the text area. */
    method KeyDown(key: string, shift: bool, outcome: RelayOutcome)
      returns (prevented: bool, relay: Option<seq<ChatMessage>>)
      requires Valid()
      modifies this
      ensures Valid()
      ensures prevented <==> key == "Enter" && !shift
      ensures prevented ==> SubmitHandled(outcome, relay)
      ensures !prevented ==>
        relay == None &&
        messages == old(messages) && input == old(input) && isStreaming == old(isStreaming)
    {
      prevented := key == "Enter" && !shift;
      relay := None;
      if prevented {
        relay := HandleSubmit(outcome);
      }
    }
  }

  /** A first exchange: the user types "Hi" and the relay streams "Hello"
      and " world". */
  method ExampleExchange() returns (transcript: seq<ChatMessage>, sent: Option<seq<ChatMessage>>)
    ensures sent == Some([ChatMessage(User, "Hi")])
    ensures transcript == [ChatMessage(User, "Hi"), ChatMessage(Assistant, "Hello world")]
  {
    var page := new ChatSurface();
    page.Edit("Hi");
    assert !IsBlank("Hi") by {
      assert "Hi"[0] == 'H';
    }
    sent := page.HandleSubmit(Completed(["Hello", " world"]));
    assert Concat(["Hello", " world"]) == "Hello world" by {
      assert ["Hello", " world"][..1] == ["Hello"];
      assert ["Hello"][..0] == [];
    }
    assert [] + [ChatMessage(User, "Hi")] == [ChatMessage(User, "Hi")];
    transcript := page.messages;
  }
}
