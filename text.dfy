/**
 * The JavaScript string built-ins the page script relies on:
 * `String.prototype.trim`, `String.prototype.includes`, `Array.prototype.join`,
 * and a `split` used to read joined text back.
 */
module Text {
  import opened Wrappers

  /**
   * The code points `trim` removes: ECMAScript's WhiteSpace (TAB, VT, FF, ZWNBSP
   * and the Unicode space separators) and LineTerminator (LF, CR, LS, PS).
   */
  predicate IsSpace(c: char) {
    var n := c as int;
    n == 0x09 || n == 0x0A || n == 0x0B || n == 0x0C || n == 0x0D || n == 0x20
    || n == 0xA0 || n == 0x1680 || (0x2000 <= n <= 0x200A) || n == 0x2028 || n == 0x2029
    || n == 0x202F || n == 0x205F || n == 0x3000 || n == 0xFEFF
  }

  /** The number of white-space characters at the start of `s`. */
  function LeadingSpaces(s: string): (k: nat)
    ensures k <= |s|
    ensures forall i :: 0 <= i < k ==> IsSpace(s[i])
    ensures k < |s| ==> !IsSpace(s[k])
  {
    if |s| == 0 || !IsSpace(s[0]) then 0 else 1 + LeadingSpaces(s[1..])
  }

  /** The number of white-space characters at the end of `s`. */
  function TrailingSpaces(s: string): (k: nat)
    ensures k <= |s|
    ensures forall i :: |s| - k <= i < |s| ==> IsSpace(s[i])
    ensures k < |s| ==> !IsSpace(s[|s| - 1 - k])
  {
    if |s| == 0 || !IsSpace(s[|s| - 1]) then 0 else 1 + TrailingSpaces(s[..|s| - 1])
  }

  /** `r` is `s[k..k + |r|]` and everything of `s` outside that slice is white space. */
  ghost predicate TrimmedAt(s: string, r: string, k: int) {
    0 <= k <= |s| - |r| && r == s[k..k + |r|]
    && (forall i :: 0 <= i < k ==> IsSpace(s[i]))
    && (forall i :: k + |r| <= i < |s| ==> IsSpace(s[i]))
  }

  /**
   * `s.trim()`: `s` without its leading and trailing white space. The result is
   * the middle of `s`, everything cut away is white space, and what remains
   * neither starts nor ends with white space.
   */
  function Trim(s: string): (r: string)
    ensures exists k :: TrimmedAt(s, r, k)
    ensures r != [] ==> !IsSpace(r[0]) && !IsSpace(r[|r| - 1])
    ensures r == [] <==> forall i :: 0 <= i < |s| ==> IsSpace(s[i])
  {
    var lead := LeadingSpaces(s);
    var rest := s[lead..];
    var r := rest[..|rest| - TrailingSpaces(rest)];
    assert TrimmedAt(s, r, lead);
    r
  }

  /** `!s.trim()`: the string is empty once trimmed, i.e. it holds nothing but white space. */
  predicate IsBlank(s: string) {
    Trim(s) == []
  }

  /** `t` occurs in `s` starting at position `i`. */
  ghost predicate OccursAt(s: string, t: string, i: int) {
    0 <= i <= |s| - |t| && s[i..i + |t|] == t
  }

  /** `s.includes(t)`: `t` occurs in `s` as a contiguous substring. */
  function Contains(s: string, t: string): (b: bool)
    decreases |s|
    ensures b <==> exists i :: OccursAt(s, t, i)
  {
    if |s| < |t| then false
    else if s[..|t|] == t then
      assert OccursAt(s, t, 0);
      true
    else
      var b := Contains(s[1..], t);
      assert !OccursAt(s, t, 0);
      OccursShift(s, t);
      b
  }

  /** Past position 0, an occurrence in `s` is an occurrence in `s[1..]` one place earlier. */
  lemma OccursShift(s: string, t: string)
    requires |s| >= 1
    ensures forall i {:trigger OccursAt(s, t, i)} :: i >= 1 ==> (OccursAt(s, t, i) <==> OccursAt(s[1..], t, i - 1))
    ensures forall j {:trigger OccursAt(s[1..], t, j)} :: OccursAt(s[1..], t, j) ==> OccursAt(s, t, j + 1)
  {
    forall i | i >= 1
      ensures OccursAt(s, t, i) <==> OccursAt(s[1..], t, i - 1)
    {
      if i <= |s| - |t| {
        var u, v := s[i..i + |t|], s[1..][i - 1..i - 1 + |t|];
        forall k | 0 <= k < |t| ensures u[k] == v[k] {
          assert v[k] == s[1..][i - 1 + k];
        }
        assert u == v;
      }
    }
  }

  /** The position of the first `c` in `s`. */
  function FirstIndex(s: string, c: char): (i: nat)
    requires c in s
    ensures i < |s| && s[i] == c && c !in s[..i]
  {
    if s[0] == c then 0 else 1 + FirstIndex(s[1..], c)
  }

  /** `s` cut at its first `c` into the text before and the text after it; None when `c` does not occur. */
  function SplitAtFirst(s: string, c: char): (r: Option<(string, string)>)
    ensures r.None? <==> c !in s
    ensures r.Some? ==> s == r.value.0 + [c] + r.value.1 && c !in r.value.0
  {
    if c in s then
      var i := FirstIndex(s, c);
      assert s == s[..i] + [c] + s[i + 1..];
      Some((s[..i], s[i + 1..]))
    else None
  }

  /** `parts.join(sep)`: the parts in order with `sep` between consecutive ones. */
  function Join(parts: seq<string>, sep: string): (r: string)
  {
    if |parts| == 0 then ""
    else if |parts| == 1 then parts[0]
    else parts[0] + sep + Join(parts[1..], sep)
  }

  /** `s.split(c)`: the pieces of `s` between occurrences of `c`; never empty. */
  function Split(s: string, c: char): (r: seq<string>)
    ensures |r| >= 1
  {
    if s == [] then [[]]
    else
      var r := Split(s[1..], c);
      if s[0] == c then [[]] + r else [[s[0]] + r[0]] + r[1..]
  }

  /** The first `c` of `a + [c] + b` is the one after `a` when `a` holds none. */
  lemma {:induction false} FirstIndexAfter(a: string, c: char, b: string)
    requires c !in a
    ensures FirstIndex(a + [c] + b, c) == |a|
  {
    if a != [] {
      assert (a + [c] + b)[1..] == a[1..] + [c] + b;
      FirstIndexAfter(a[1..], c, b);
    }
  }

  /** Cutting at the first separator recovers the two sides when the left side holds none. */
  lemma SplitAtFirstJoined(a: string, c: char, b: string)
    requires c !in a
    ensures SplitAtFirst(a + [c] + b, c) == Some((a, b))
  {
    var s := a + [c] + b;
    FirstIndexAfter(a, c, b);
    assert s[..|a|] == a;
    assert s[|a| + 1..] == b;
  }

  /** No part holds the separator `c`. */
  predicate SeparatorFree(parts: seq<string>, c: char) {
    parts == [] || (c !in parts[0] && SeparatorFree(parts[1..], c))
  }

  /** SeparatorFree says that no part holds `c`. */
  lemma {:induction false} SeparatorFreeAll(parts: seq<string>, c: char)
    ensures SeparatorFree(parts, c) <==> forall k :: 0 <= k < |parts| ==> c !in parts[k]
  {
    if parts != [] {
      SeparatorFreeAll(parts[1..], c);
      assert forall k :: 1 <= k < |parts| ==> parts[k] == parts[1..][k - 1];
    }
  }

  /** Splitting `a + [c] + b` yields `a` first when `a` holds no `c`. */
  lemma {:induction false} SplitAfter(a: string, c: char, b: string)
    requires c !in a
    ensures Split(a + [c] + b, c) == [a] + Split(b, c)
  {
    if a == [] {
      assert (a + [c] + b)[1..] == b;
    } else {
      assert (a + [c] + b)[1..] == a[1..] + [c] + b;
      SplitAfter(a[1..], c, b);
      assert [a[0]] + a[1..] == a;
    }
  }

  /**
   * Splitting a joined list at its one-character separator gives back every part
   * but the last, followed by the split of the last part: the round trip of
   * `join` for parts that hold no separator.
   */
  lemma {:induction false} SplitJoin(init: seq<string>, last: string, c: char)
    requires SeparatorFree(init, c)
    ensures Split(Join(init + [last], [c]), c) == init + Split(last, c)
  {
    if init == [] {
      assert init + [last] == [last];
    } else {
      var parts, rest := init + [last], init[1..] + [last];
      assert parts[1..] == rest;
      assert Join(parts, [c]) == init[0] + [c] + Join(rest, [c]);
      SplitAfter(init[0], c, Join(rest, [c]));
      SplitJoin(init[1..], last, c);
      assert [init[0]] + (init[1..] + Split(last, c)) == init + Split(last, c);
    }
  }

  /** Splitting text without the separator gives the text back whole. */
  lemma {:induction false} SplitWithout(s: string, c: char)
    requires c !in s
    ensures Split(s, c) == [s]
  {
    if s != [] {
      SplitWithout(s[1..], c);
      assert [s[0]] + s[1..] == s;
    }
  }
}
