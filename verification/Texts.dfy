/** Cutting texts into parts, and joining them. */
module Texts {
  /** The first position of c at or after i, or the length. */
  function IndexFrom(s: string, c: char, i: nat): (k: nat)
    requires i <= |s|
    ensures i <= k <= |s| && (k < |s| ==> s[k] == c) && forall j :: i <= j < k ==> s[j] != c
    decreases |s| - i
  {
    if i == |s| || s[i] == c then i else IndexFrom(s, c, i + 1)
  }

  function Split(s: string, c: char): (parts: seq<string>)
    ensures |parts| > 0
    decreases |s|
  {
    var k := IndexFrom(s, c, 0);
    if k == |s| then [s] else [s[..k]] + Split(s[k + 1..], c)
  }

  datatype Cuts = Cuts(before: string, after: string, found: bool)

  function Cut(s: string, c: char): Cuts {
    var k := IndexFrom(s, c, 0);
    if k == |s| then Cuts(s, "", false) else Cuts(s[..k], s[k + 1..], true)
  }

  function Join(parts: seq<string>, c: char): string
    requires |parts| > 0
  {
    if |parts| == 1 then parts[0] else parts[0] + [c] + Join(parts[1..], c)
  }

  lemma CutJoined(a: string, c: char, b: string)
    requires c !in a
    ensures Cut(a + [c] + b, c) == Cuts(a, b, true) && Cut(a, c) == Cuts(a, "", false)
  {
    var s := a + [c] + b;
    var k := IndexFrom(s, c, 0);
    assert s[|a|] == c;
    assert forall j :: 0 <= j < |a| ==> s[j] == a[j];
    assert k == |a|;
    assert s[..k] == a && s[k + 1..] == b;
    var j := IndexFrom(a, c, 0);
    assert j == |a|;
  }

  lemma SplitCut(s: string, c: char)
    ensures Split(s, c) == if Cut(s, c).found then [Cut(s, c).before] + Split(Cut(s, c).after, c) else [s]
  {
  }

  lemma {:induction false} SplitJoined(parts: seq<string>, c: char)
    requires |parts| > 0 && forall i :: 0 <= i < |parts| ==> c !in parts[i]
    ensures Split(Join(parts, c), c) == parts
  {
    if |parts| == 1 {
      CutJoined(parts[0], c, "");
      assert parts == [parts[0]];
    } else {
      var rest := Join(parts[1..], c);
      CutJoined(parts[0], c, rest);
      SplitJoined(parts[1..], c);
      SplitCut(parts[0] + [c] + rest, c);
      hide Split;
      assert parts == [parts[0]] + parts[1..];
    }
  }

  /** Splitting is undone by joining, and leaves no separator in any part. */
  lemma {:induction false} JoinSplit(s: string, c: char)
    ensures Join(Split(s, c), c) == s
    ensures forall part :: part in Split(s, c) ==> c !in part
    decreases |s|
  {
    var k := IndexFrom(s, c, 0);
    assert c !in s[..k];
    if k < |s| {
      JoinSplit(s[k + 1..], c);
      assert Split(s, c)[1..] == Split(s[k + 1..], c);
      assert s == s[..k] + [c] + s[k + 1..];
    }
  }

  predicate StartsWith(s: string, prefix: string) { |prefix| <= |s| && s[..|prefix|] == prefix }

  predicate HasControlChars(s: string) { exists i :: 0 <= i < |s| && (s[i] < ' ' || s[i] == 127 as char) }
}
