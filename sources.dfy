/** Citation scrubbing applied to every transcript entry before it is shown:
    `removeSources` replaces each match of the global regular expression
    `【[^】]*】` by the empty string. A match opens with `【` and runs through
    the FIRST `】` after it; the text between may hold further `【` and line
    breaks. The engine scans left to right and, where no match starts at a
    position, keeps that character and moves on by one. */
module Sources {

  /** U+3010 LEFT BLACK LENTICULAR BRACKET, which opens a citation marker. */
  const Open: char := '\U{3010}'
  /** U+3011 RIGHT BLACK LENTICULAR BRACKET, which closes it. */
  const Close: char := '\U{3011}'

  /** Position of the first occurrence of `c` in `s`. */
  function FirstIndex(s: seq<char>, c: char): (k: nat)
    requires c in s
    ensures k < |s| && s[k] == c && c !in s[..k]
  {
    if s[0] == c then 0 else 1 + FirstIndex(s[1..], c)
  }

  /** The scrub itself. At an `Open` that has a `Close` somewhere after it, the
      span through the first such `Close` is dropped; any other character is
      kept. */
  function RemoveSources(s: seq<char>): (r: seq<char>)
    ensures |r| <= |s|
    decreases |s|
  {
    if s == [] then []
    else if s[0] == Open && Close in s[1..] then
      RemoveSources(s[FirstIndex(s[1..], Close) + 2..])
    else
      [s[0]] + RemoveSources(s[1..])
  }

  /** `a` can be obtained from `b` by deleting characters. */
  predicate IsSubsequence(a: seq<char>, b: seq<char>)
    decreases |b|
  {
    a == [] ||
    (b != [] &&
     ((a[0] == b[0] && IsSubsequence(a[1..], b[1..])) || IsSubsequence(a, b[1..])))
  }

  /** No `Open` in `s` is followed, anywhere later, by a `Close`: the regular
      expression has no match in `s`. */
  predicate NoMarker(s: seq<char>)
  {
    forall i, j :: 0 <= i < j < |s| && s[i] == Open ==> s[j] != Close
  }

  lemma {:induction false} SubsequenceShape(a: seq<char>, b: seq<char>)
    requires IsSubsequence(a, b)
    ensures |a| <= |b|
    ensures forall c :: c in a ==> c in b
    decreases |b|
  {
    if a != [] {
      if a[0] == b[0] && IsSubsequence(a[1..], b[1..]) {
        SubsequenceShape(a[1..], b[1..]);
        assert a == [a[0]] + a[1..];
        assert b == [b[0]] + b[1..];
      } else {
        SubsequenceShape(a, b[1..]);
        assert b == [b[0]] + b[1..];
      }
    }
  }

  lemma {:induction false} SubsequenceOfSuffix(a: seq<char>, b: seq<char>, k: nat)
    requires k <= |b| && IsSubsequence(a, b[k..])
    ensures IsSubsequence(a, b)
    decreases k
  {
    if k > 0 {
      assert b[1..][k - 1..] == b[k..];
      SubsequenceOfSuffix(a, b[1..], k - 1);
    }
  }

  /** The scrub only deletes characters. */
  lemma {:induction false} RemoveSourcesIsSubsequence(s: seq<char>)
    ensures IsSubsequence(RemoveSources(s), s)
    decreases |s|
  {
    if s != [] {
      if s[0] == Open && Close in s[1..] {
        var k := FirstIndex(s[1..], Close) + 2;
        RemoveSourcesIsSubsequence(s[k..]);
        SubsequenceOfSuffix(RemoveSources(s), s, k);
      } else {
        RemoveSourcesIsSubsequence(s[1..]);
        var r := RemoveSources(s);
        assert r[0] == s[0] && r[1..] == RemoveSources(s[1..]);
      }
    }
  }

  /** Hence it introduces no character that was not already there. */
  lemma RemoveSourcesKeepsInputChars(s: seq<char>)
    ensures forall c :: c in RemoveSources(s) ==> c in s
  {
    RemoveSourcesIsSubsequence(s);
    SubsequenceShape(RemoveSources(s), s);
  }

  /** How `NoMarker` splits over a first character. */
  lemma NoMarkerCons(c: char, t: seq<char>)
    ensures NoMarker([c] + t) <==> NoMarker(t) && (c == Open ==> Close !in t)
  {
    var s := [c] + t;
    if NoMarker(s) {
      forall i, j | 0 <= i < j < |t| && t[i] == Open ensures t[j] != Close {
        assert s[i + 1] == t[i] && s[j + 1] == t[j];
      }
      forall j | 0 <= j < |t| && c == Open ensures t[j] != Close {
        assert s[0] == c && s[j + 1] == t[j];
      }
    }
    if NoMarker(t) && (c == Open ==> Close !in t) {
      forall i, j | 0 <= i < j < |s| && s[i] == Open ensures s[j] != Close {
        assert s[j] == t[j - 1];
        if i > 0 {
          assert s[i] == t[i - 1];
        }
      }
    }
  }

  /** Every marker the expression can match is gone from the result. */
  lemma {:induction false} RemoveSourcesLeavesNoMarker(s: seq<char>)
    ensures NoMarker(RemoveSources(s))
    decreases |s|
  {
    if s != [] {
      if s[0] == Open && Close in s[1..] {
        RemoveSourcesLeavesNoMarker(s[FirstIndex(s[1..], Close) + 2..]);
      } else {
        RemoveSourcesLeavesNoMarker(s[1..]);
        RemoveSourcesKeepsInputChars(s[1..]);
        NoMarkerCons(s[0], RemoveSources(s[1..]));
      }
    }
  }

  /** The strings the scrub leaves alone are exactly those without a marker. */
  lemma {:induction false} RemoveSourcesFixedPoint(s: seq<char>)
    ensures RemoveSources(s) == s <==> NoMarker(s)
    decreases |s|
  {
    if NoMarker(s) {
      if s != [] {
        assert s == [s[0]] + s[1..];
        NoMarkerCons(s[0], s[1..]);
        RemoveSourcesFixedPoint(s[1..]);
      }
    } else {
      RemoveSourcesLeavesNoMarker(s);
    }
  }

  /** In particular a string without `Open` comes back unchanged. */
  lemma RemoveSourcesWithoutOpen(s: seq<char>)
    requires Open !in s
    ensures RemoveSources(s) == s
  {
    RemoveSourcesFixedPoint(s);
  }

  /** Scrubbing twice is scrubbing once. */
  lemma RemoveSourcesIdempotent(s: seq<char>)
    ensures RemoveSources(RemoveSources(s)) == RemoveSources(s)
  {
    RemoveSourcesLeavesNoMarker(s);
    RemoveSourcesFixedPoint(RemoveSources(s));
  }

  /** Text before the first `Open` is kept verbatim. */
  lemma {:induction false} RemoveSourcesPrefix(a: seq<char>, b: seq<char>)
    requires Open !in a
    ensures RemoveSources(a + b) == a + RemoveSources(b)
    decreases |a|
  {
    if a == [] {
      assert a + b == b;
    } else {
      assert (a + b)[0] == a[0] != Open;
      assert (a + b)[1..] == a[1..] + b;
      assert Open !in a[1..];
      RemoveSourcesPrefix(a[1..], b);
      calc {
        RemoveSources(a + b);
        [a[0]] + RemoveSources(a[1..] + b);
        [a[0]] + (a[1..] + RemoveSources(b));
        { assert a == [a[0]] + a[1..]; }
        a + RemoveSources(b);
      }
    }
  }

  /** A marker `Open m Close`, where `m` holds no `Close` (it may hold `Open`),
      is dropped whole and the scan resumes right after it. */
  lemma RemoveSourcesSpan(a: seq<char>, m: seq<char>, b: seq<char>)
    requires Open !in a && Close !in m
    ensures RemoveSources(a + [Open] + m + [Close] + b) == a + RemoveSources(b)
  {
    var t := [Open] + m + [Close] + b;
    assert t[1..] == m + [Close] + b;
    assert t[1..][|m|] == Close;
    var k := FirstIndex(t[1..], Close);
    assert k == |m|;
    assert t[k + 2..] == b;
    assert a + [Open] + m + [Close] + b == a + t;
    RemoveSourcesPrefix(a, t);
  }

  /** The rendering example: "Answer【cite1】 more" becomes "Answer more". */
  lemma RemoveSourcesExample()
    ensures RemoveSources("Answer" + [Open] + "cite1" + [Close] + " more") == "Answer more"
  {
    RemoveSourcesSpan("Answer", "cite1", " more");
    RemoveSourcesWithoutOpen(" more");
  }
}
