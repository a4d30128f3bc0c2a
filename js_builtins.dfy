/** The few JavaScript built-ins the site's scripts are made of: `split('')`,
    `Array.prototype.reverse`, `join`, `indexOf`, `replace` with a string
    pattern and `String.fromCharCode`. A JavaScript string is a sequence of
    UTF-16 code units; here it is a `string` (a `seq<char>`), one char per
    code unit, which is exact for every code unit that is not a surrogate. */
module JsBuiltins {

  /** True when `code` (after JavaScript's ToUint16 conversion) is a code
      unit that a Dafny `char` can hold, i.e. not a surrogate. */
  predicate IsCharCode(code: int) {
    var u := code % 0x1_0000;
    u < 0xD800 || 0xE000 <= u
  }

  /** The code unit JavaScript's ToUint16 makes of `code`. */
  function CodeUnit(code: int): (c: char)
    requires IsCharCode(code)
    ensures c as int == code % 0x1_0000
  {
    (code % 0x1_0000) as char
  }

  /** `String.fromCharCode(c0, c1, ...)`: each argument is reduced modulo
      2^16 and becomes one code unit. */
  function FromCharCode(codes: seq<int>): (r: string)
    requires forall i :: 0 <= i < |codes| ==> IsCharCode(codes[i])
    ensures |r| == |codes|
    ensures forall i :: 0 <= i < |codes| ==> r[i] as int == codes[i] % 0x1_0000
  {
    seq(|codes|, i requires 0 <= i < |codes| => CodeUnit(codes[i]))
  }

  /** The array that `Array.prototype.reverse` leaves behind, as a value. */
  function Reverse<T>(s: seq<T>): seq<T> {
    seq(|s|, i requires 0 <= i < |s| => s[|s| - 1 - i])
  }

  lemma ReverseInvolution<T>(s: seq<T>)
    ensures Reverse(Reverse(s)) == s
  {
  }

  /** `Array.prototype.reverse`: reverses the array in place. */
  method ReverseInPlace<T>(a: array<T>)
    modifies a
    ensures a[..] == Reverse(old(a[..]))
  {
    var lo, hi := 0, a.Length;
    while lo + 1 < hi
      invariant 0 <= lo && lo + hi == a.Length && (lo <= hi || lo == hi + 1)
      invariant forall k :: 0 <= k < lo ==> a[k] == old(a[a.Length - 1 - k])
      invariant forall k :: hi <= k < a.Length ==> a[k] == old(a[a.Length - 1 - k])
      invariant forall k :: lo <= k < hi ==> a[k] == old(a[k])
    {
      a[lo], a[hi - 1] := a[hi - 1], a[lo];
      lo, hi := lo + 1, hi - 1;
    }
  }

  /** `s.split('')`: one single-character string per code unit. */
  function Split(s: string): seq<string> {
    seq(|s|, i requires 0 <= i < |s| => [s[i]])
  }

  /** `parts.join(sep)`: the parts with `sep` between neighbours; `[]` joins
      to the empty string. */
  function Join(parts: seq<string>, sep: string): string {
    if parts == [] then []
    else if |parts| == 1 then parts[0]
    else parts[0] + sep + Join(parts[1..], sep)
  }

  /** `s.split('').join('')` gives back `s`. */
  lemma {:induction false} JoinSplit(s: string)
    ensures Join(Split(s), "") == s
  {
    if |s| > 1 {
      assert Split(s)[1..] == Split(s[1..]);
      JoinSplit(s[1..]);
    }
  }

  /** The idiom `s.split('').reverse().join('')`. */
  function ReverseString(s: string): string {
    Join(Reverse(Split(s)), "")
  }

  /** The idiom reverses the string character by character. */
  lemma ReverseStringReverses(s: string)
    ensures ReverseString(s) == Reverse(s)
  {
    assert Reverse(Split(s)) == Split(Reverse(s));
    JoinSplit(Reverse(s));
  }

  /** `pat` occurs in `s` starting at index `i`. */
  predicate OccursAt(s: string, pat: string, i: nat) {
    i + |pat| <= |s| && s[i..i + |pat|] == pat
  }

  /** `s.indexOf(pat, from)` for `0 <= from <= |s|`: the first index at or
      after `from` where `pat` occurs, or -1. */
  function IndexOf(s: string, pat: string, from: nat): (r: int)
    requires from <= |s|
    ensures r == -1 || (from <= r && OccursAt(s, pat, r))
    ensures r == -1 ==> forall j :: from <= j <= |s| ==> !OccursAt(s, pat, j)
    ensures r != -1 ==> forall j :: from <= j < r ==> !OccursAt(s, pat, j)
    decreases |s| - from
  {
    if OccursAt(s, pat, from) then from
    else if from + |pat| >= |s| then -1
    else IndexOf(s, pat, from + 1)
  }

  /** `s.replace(pat, rep)` with a string pattern: only the first occurrence
      is replaced. A `$` in the replacement would start a substitution
      pattern, which is not modelled. */
  function Replace(s: string, pat: string, rep: string): (r: string)
    requires '$' !in rep
    ensures (forall j :: 0 <= j <= |s| ==> !OccursAt(s, pat, j)) ==> r == s
    ensures forall i: nat :: OccursAt(s, pat, i) && (forall j :: 0 <= j < i ==> !OccursAt(s, pat, j)) ==>
              r == s[..i] + rep + s[i + |pat|..]
  {
    var i := IndexOf(s, pat, 0);
    if i == -1 then s else s[..i] + rep + s[i + |pat|..]
  }
}
