/**
 Strings are sequences of characters; a byte string is written the same way, one character a byte.
 This module has the string operations the program borrows from its standard libraries.
 */
module Strings {
  import opened Options

  // ---------- splitting at one character ----------

  /** Splits at every occurrence of a separator character; the empty string has one empty part. */
  function Split(s: string, sep: char): (parts: seq<string>)
    ensures parts != []
  {
    if s == "" then [""] else PutInFront(s[0], sep, Split(s[1..], sep))
  }

  /** One more character to the left: a new part if it is the separator, else it joins the first part. */
  function PutInFront(c: char, sep: char, parts: seq<string>): (more: seq<string>)
    requires parts != []
    ensures more != []
  {
    if c == sep then [""] + parts else [[c] + parts[0]] + parts[1..]
  }

  lemma PutInFrontOfJoined(c: char, sep: char, left: seq<string>, right: seq<string>)
    requires left != []
    ensures PutInFront(c, sep, left + right) == PutInFront(c, sep, left) + right
  {
    assert (left + right)[1..] == left[1..] + right;
  }

  lemma {:induction false} SplitWhole(s: string, sep: char)
    requires sep !in s
    ensures Split(s, sep) == [s]
  {
    if s != "" {
      SplitWhole(s[1..], sep);
      assert s == [s[0]] + s[1..];
    }
  }

  lemma {:induction false} SplitJoined(a: string, sep: char, b: string)
    ensures Split(a + [sep] + b, sep) == Split(a, sep) + Split(b, sep)
  {
    var whole := a + [sep] + b;
    if a == "" {
      assert whole[1..] == b;
    } else {
      SplitJoined(a[1..], sep, b);
      assert whole[1..] == a[1..] + [sep] + b;
      PutInFrontOfJoined(a[0], sep, Split(a[1..], sep), Split(b, sep));
    }
  }

  lemma {:induction false} SplitPartsAreClean(s: string, sep: char)
    ensures forall i :: 0 <= i < |Split(s, sep)| ==> sep !in Split(s, sep)[i]
    ensures |Split(s, sep)| == 1 <==> sep !in s
  {
    if s != "" {
      SplitPartsAreClean(s[1..], sep);
    }
  }

  /** Every part of a split is a stretch of the string that was split. */
  lemma {:induction false} SplitPartsAreInside(s: string, sep: char, i: nat) returns (at: nat)
    requires i < |Split(s, sep)|
    ensures at + |Split(s, sep)[i]| <= |s| && s[at..at + |Split(s, sep)[i]|] == Split(s, sep)[i]
    ensures i == 0 ==> at == 0
  {
    if s == "" {
      at := 0;
    } else if s[0] == sep {
      if i == 0 {
        at := 0;
      } else {
        var p := SplitPartsAreInside(s[1..], sep, i - 1);
        at := p + 1;
      }
    } else if i == 0 {
      var p := SplitPartsAreInside(s[1..], sep, 0);
      var part := Split(s[1..], sep)[0];
      assert s[0..|part| + 1] == [s[0]] + s[1..][0..|part|];
      at := 0;
    } else {
      var p := SplitPartsAreInside(s[1..], sep, i);
      at := p + 1;
    }
  }

  // ---------- looking for a pattern ----------

  predicate OccursAt(s: string, p: string, i: int) {
    0 <= i <= |s| - |p| && s[i..i + |p|] == p
  }

  ghost predicate Occurs(s: string, p: string) {
    exists i :: OccursAt(s, p, i)
  }

  function IndexFrom(s: string, p: string, start: nat): (at: Option<nat>)
    ensures at.Some? ==> OccursAt(s, p, at.value) && forall i :: start <= i && OccursAt(s, p, i) ==> at.value <= i
    ensures at.None? ==> forall i :: start <= i ==> !OccursAt(s, p, i)
    decreases |s| - start
  {
    if start + |p| > |s| then None
    else if OccursAt(s, p, start) then Some(start)
    else if start == |s| then None
    else IndexFrom(s, p, start + 1)
  }

  /** The leftmost occurrence of a pattern. */
  function IndexOf(s: string, p: string): (at: Option<nat>)
    ensures at.Some? ==> OccursAt(s, p, at.value) && forall i :: OccursAt(s, p, i) ==> at.value <= i
    ensures at.None? ==> !Occurs(s, p)
  {
    IndexFrom(s, p, 0)
  }

  /**
   What follows the last occurrence of a pattern, found by splitting left to right; the whole string if there is
   none.
   */
  function AfterLast(s: string, p: string): string
    requires p != ""
  {
    match IndexOf(s, p)
    case None => s
    case Some(i) => AfterLast(s[i + |p|..], p)
  }

  /** All occurrences of a pattern taken out, left to right. */
  function RemoveAll(s: string, p: string): string
    requires p != ""
  {
    match IndexOf(s, p)
    case None => s
    case Some(i) => s[..i] + RemoveAll(s[i + |p|..], p)
  }

  lemma SliceOfSlice(s: string, lo: nat, hi: nat, i: nat, j: nat)
    requires lo <= hi <= |s| && i <= j <= hi - lo
    ensures s[lo..hi][i..j] == s[lo + i..lo + j]
  {
    assert |s[lo..hi][i..j]| == |s[lo + i..lo + j]|;
    forall k | 0 <= k < j - i ensures s[lo..hi][i..j][k] == s[lo + i..lo + j][k] {
    }
  }

  lemma OccursInside(s: string, lo: nat, hi: nat, p: string)
    requires lo <= hi <= |s| && Occurs(s[lo..hi], p)
    ensures Occurs(s, p)
  {
    var i :| OccursAt(s[lo..hi], p, i);
    SliceOfSlice(s, lo, hi, i, i + |p|);
    assert OccursAt(s, p, lo + i);
  }

  lemma {:induction false} AfterLastIsSuffix(s: string, p: string) returns (at: nat)
    requires p != ""
    ensures at <= |s| && AfterLast(s, p) == s[at..]
    ensures !Occurs(AfterLast(s, p), p)
    ensures !Occurs(s, p) ==> at == 0
    decreases |s|
  {
    match IndexOf(s, p)
    case None => at := 0;
    case Some(i) =>
      var rest := AfterLastIsSuffix(s[i + |p|..], p);
      at := i + |p| + rest;
      assert s[i + |p|..][rest..] == s[at..];
      assert OccursAt(s, p, i);
  }

  lemma {:induction false} RemoveAllShrinks(s: string, p: string)
    requires p != ""
    ensures if Occurs(s, p) then |RemoveAll(s, p)| < |s| else RemoveAll(s, p) == s
    decreases |s|
  {
    match IndexOf(s, p)
    case None =>
    case Some(i) =>
      var rest := s[i + |p|..];
      RemoveAllShrinks(rest, p);
      assert |RemoveAll(rest, p)| <= |rest|;
      assert RemoveAll(s, p) == s[..i] + RemoveAll(rest, p);
      assert OccursAt(s, p, i);
  }

  // ---------- case folding ----------

  function LowerChar(c: char): char {
    if 'A' <= c <= 'Z' then (c as int + 32) as char else c
  }

  function UpperChar(c: char): char {
    if 'a' <= c <= 'z' then (c as int - 32) as char else c
  }

  /** Lower-cases the ASCII letters. */
  function Lower(s: string): string {
    seq(|s|, i requires 0 <= i < |s| => LowerChar(s[i]))
  }

  function ReplaceChar(s: string, from: char, to: char): string {
    seq(|s|, i requires 0 <= i < |s| => if s[i] == from then to else s[i])
  }
}
