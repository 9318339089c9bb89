/** String helpers with the meaning of the Swift standard-library calls they model. */
module Text {

  /** `s.hasPrefix(p)`, compared scalar by scalar. */
  predicate HasPrefix(s: string, p: string) {
    |p| <= |s| && s[..|p|] == p
  }

  /** `s.hasSuffix(p)`, compared scalar by scalar. */
  predicate HasSuffix(s: string, p: string) {
    |p| <= |s| && s[|s| - |p|..] == p
  }

  /** `sub` occurs in `s` at position `i`. */
  predicate OccursAt(sub: string, s: string, i: int) {
    0 <= i && i + |sub| <= |s| && s[i..i + |sub|] == sub
  }

  /** `parts.joined(separator: sep)`. */
  function Join(parts: seq<string>, sep: string): (r: string)
    ensures |parts| == 0 ==> r == ""
    ensures |parts| == 1 ==> r == parts[0]
    ensures |parts| > 0 ==> HasPrefix(r, parts[0])
  {
    if |parts| == 0 then ""
    else if |parts| == 1 then parts[0]
    else parts[0] + sep + Join(parts[1..], sep)
  }

  function SumOfLengths(parts: seq<string>): nat {
    if parts == [] then 0 else |parts[0]| + SumOfLengths(parts[1..])
  }

  /** Joining adds exactly one separator between neighbouring parts. */
  lemma {:induction false} JoinLength(parts: seq<string>, sep: string)
    requires |parts| > 0
    ensures |Join(parts, sep)| == SumOfLengths(parts) + (|parts| - 1) * |sep|
  {
    if |parts| > 1 {
      JoinLength(parts[1..], sep);
    }
  }

  lemma OccursAtStart(x: string, y: string)
    ensures OccursAt(x, x + y, 0)
  {
    assert (x + y)[..|x|] == x;
  }

  lemma OccursAtShift(x: string, pre: string, s: string, i: int)
    requires OccursAt(x, s, i)
    ensures OccursAt(x, pre + s, |pre| + i)
  {
    assert (pre + s)[|pre| + i..|pre| + i + |x|] == s[i..i + |x|];
  }

  /** Where part `k` starts in the joined string: after the parts before it, each with its separator. */
  function PartOffset(parts: seq<string>, sep: string, k: nat): nat
    requires k <= |parts|
  {
    if k == 0 then 0 else |parts[0]| + |sep| + PartOffset(parts[1..], sep, k - 1)
  }

  /** The first part opens the joined string, followed by the separator when more parts follow. */
  lemma JoinStartsWithFirst(parts: seq<string>, sep: string)
    requires |parts| > 0
    ensures OccursAt(parts[0], Join(parts, sep), 0)
    ensures |parts| > 1 ==> OccursAt(parts[0] + sep, Join(parts, sep), 0)
  {
    if |parts| == 1 {
      OccursAtStart(parts[0], "");
      assert parts[0] + "" == Join(parts, sep);
    } else {
      var rest := Join(parts[1..], sep);
      assert Join(parts, sep) == parts[0] + (sep + rest);
      OccursAtStart(parts[0], sep + rest);
      assert Join(parts, sep) == (parts[0] + sep) + rest;
      OccursAtStart(parts[0] + sep, rest);
    }
  }

  /**
   Every part appears in the joined string at its offset, followed by the
   separator unless it is the last.
   */
  lemma {:induction false} JoinContainsParts(parts: seq<string>, sep: string, k: nat)
    requires k < |parts|
    ensures OccursAt(parts[k], Join(parts, sep), PartOffset(parts, sep, k))
    ensures k < |parts| - 1 ==> OccursAt(parts[k] + sep, Join(parts, sep), PartOffset(parts, sep, k))
  {
    if k == 0 {
      JoinStartsWithFirst(parts, sep);
    } else {
      var tail := parts[1..];
      var pre := parts[0] + sep;
      var at := PartOffset(tail, sep, k - 1);
      JoinContainsParts(tail, sep, k - 1);
      assert Join(parts, sep) == pre + Join(tail, sep);
      assert PartOffset(parts, sep, k) == |pre| + at;
      assert tail[k - 1] == parts[k];
      OccursAtShift(parts[k], pre, Join(tail, sep), at);
      if k < |parts| - 1 {
        OccursAtShift(parts[k] + sep, pre, Join(tail, sep), at);
      }
    }
  }

  /** ASCII-only lowering, one concrete instance of `lowercased()`. */
  function AsciiLowerChar(c: char): (d: char)
    ensures 'A' <= c <= 'Z' ==> d as int == c as int + 32
    ensures !('A' <= c <= 'Z') ==> d == c
  {
    if 'A' <= c <= 'Z' then (c as int + 32) as char else c
  }

  function AsciiLower(s: string): (r: string)
    ensures |r| == |s|
    ensures forall i :: 0 <= i < |s| ==> r[i] == AsciiLowerChar(s[i])
  {
    if s == [] then [] else [AsciiLowerChar(s[0])] + AsciiLower(s[1..])
  }
}
