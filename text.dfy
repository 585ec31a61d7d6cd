/**
 * The few JavaScript string and number primitives the core relies on:
 * `Number.prototype.toString(radix)`, `String.prototype.toLowerCase`,
 * `String.prototype.includes`, `String.prototype.slice(-n)` and `Array.prototype.join`.
 */
module Text {

  /** The digit `d` as `Number.prototype.toString` writes it: `0-9`, then lower-case `a-z`. */
  function DigitChar(d: nat): (c: char)
    requires d < 36
    ensures d < 10 ==> '0' <= c <= '9' && c as int - '0' as int == d
    ensures 10 <= d ==> 'a' <= c <= 'z' && c as int - 'a' as int == d - 10
    ensures d < 16 ==> IsLowerHexDigit(c)
  {
    if d < 10 then ('0' as int + d) as char else ('a' as int + d - 10) as char
  }

  predicate IsLowerHexDigit(c: char) {
    '0' <= c <= '9' || 'a' <= c <= 'f'
  }

  /**
   * `n.toString(base)` for a non-negative integer `n`: most significant digit first, no leading zeros.
   * JavaScript writes base-10 numbers from 10^21 upwards in exponent notation; that is not modelled.
   */
  function Radix(n: nat, base: nat): (s: string)
    requires 2 <= base <= 36
    ensures 0 < |s|
    ensures n < base <==> |s| == 1
    decreases n
  {
    if n < base then [DigitChar(n)] else Radix(n / base, base) + [DigitChar(n % base)]
  }

  /**
   * `s.slice(-n)`: the last `n` characters of `s`, or all of `s` when it is shorter.
   * `-0` is start index 0, so `s.slice(-0)` is all of `s`.
   */
  function SliceFromEnd(s: string, n: nat): (r: string)
    ensures |r| == if n == 0 || |s| < n then |s| else n
    ensures r == s[|s| - |r|..]
  {
    if n == 0 || |s| < n then s else s[|s| - n..]
  }

  /** `String.prototype.toLowerCase`, for the ASCII letters. */
  function LowerChar(c: char): char {
    if 'A' <= c <= 'Z' then (c as int + 32) as char else c
  }

  function ToLower(s: string): (r: string)
    ensures |r| == |s|
    ensures forall i :: 0 <= i < |s| ==> r[i] == LowerChar(s[i])
  {
    if |s| == 0 then "" else [LowerChar(s[0])] + ToLower(s[1..])
  }

  predicate StartsWith(s: string, prefix: string) {
    |prefix| <= |s| && s[..|prefix|] == prefix
  }

  /** `s.includes(sub)`: `sub` occurs in `s` at some position. */
  predicate Contains(s: string, sub: string)
    ensures StartsWith(s, sub) ==> Contains(s, sub)
    ensures Contains(s, sub) ==> |sub| <= |s|
  {
    assert StartsWith(s, sub) ==> StartsWith(s[0..], sub);
    exists i :: 0 <= i <= |s| && StartsWith(s[i..], sub)
  }

  lemma ContainsEmpty(s: string)
    ensures Contains(s, "")
  {
    assert StartsWith(s[0..], "");
  }

  /** `parts.join(sep)`. */
  function Join(parts: seq<string>, sep: string): (r: string)
    ensures |parts| == 0 ==> r == ""
    ensures |parts| > 0 ==> StartsWith(r, parts[0])
  {
    if |parts| == 0 then ""
    else if |parts| == 1 then parts[0]
    else parts[0] + sep + Join(parts[1..], sep)
  }

  /** Every joined part occurs in the joined string. */
  lemma {:induction false} JoinContainsPart(parts: seq<string>, sep: string, k: nat)
    requires k < |parts|
    ensures Contains(Join(parts, sep), parts[k])
  {
    var j := Join(parts, sep);
    if |parts| == 1 {
      assert StartsWith(j[0..], parts[0]);
    } else if k == 0 {
      assert j[0..][..|parts[0]|] == parts[0];
      assert StartsWith(j[0..], parts[0]);
    } else {
      var rest := Join(parts[1..], sep);
      JoinContainsPart(parts[1..], sep, k - 1);
      var i :| 0 <= i <= |rest| && StartsWith(rest[i..], parts[k]);
      var off := |parts[0] + sep|;
      assert j == parts[0] + sep + rest;
      assert j[off + i..] == rest[i..];
      assert StartsWith(j[off + i..], parts[k]);
    }
  }
}
