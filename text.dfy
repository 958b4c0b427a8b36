/** String helpers standing in for the JavaScript string methods the
    components call: `toLowerCase`, `includes`, `split` and `String(n)`. */
module Text {

  /** ASCII lower-casing of one character. */
  function LowerChar(c: char): char {
    if 'A' <= c <= 'Z' then (c as int + 32) as char else c
  }

  /** `s.toLowerCase()`, restricted to ASCII letters. */
  function Lower(s: string): (r: string)
    ensures |r| == |s|
    ensures forall i :: 0 <= i < |s| ==> r[i] == LowerChar(s[i])
  {
    if s == [] then [] else [LowerChar(s[0])] + Lower(s[1..])
  }

  /** Lower-casing the slice of a string is slicing the lower-cased string. */
  lemma LowerSlice(s: string, i: int, j: int)
    requires 0 <= i <= j <= |s|
    ensures Lower(s[i..j]) == Lower(s)[i..j]
  {
  }

  /** `needle` occurs in `hay` starting at position `i`. */
  predicate OccursAt(hay: string, needle: string, i: int) {
    0 <= i && i + |needle| <= |hay| && hay[i..i + |needle|] == needle
  }

  /** `hay.includes(needle)`. */
  predicate Contains(hay: string, needle: string) {
    exists i | 0 <= i <= |hay| :: OccursAt(hay, needle, i)
  }

  /** The empty string is found in every string. */
  lemma ContainsEmpty(hay: string)
    ensures Contains(hay, "")
  {
    assert OccursAt(hay, "", 0);
  }

  /** Containment is transitive: an occurrence of an occurrence is an occurrence. */
  lemma ContainsTransitive(hay: string, mid: string, needle: string)
    requires Contains(hay, mid) && Contains(mid, needle)
    ensures Contains(hay, needle)
  {
    var i :| 0 <= i <= |hay| && OccursAt(hay, mid, i);
    var j :| 0 <= j <= |mid| && OccursAt(mid, needle, j);
    assert mid == hay[i..i + |mid|];
    forall k | 0 <= k < |needle|
      ensures hay[i + j..i + j + |needle|][k] == needle[k]
    {
      assert needle[k] == mid[j + k] == hay[i + j + k];
    }
    assert OccursAt(hay, needle, i + j);
  }

  /** Lower-casing both sides keeps an occurrence. */
  lemma LowerContains(hay: string, needle: string)
    requires Contains(hay, needle)
    ensures Contains(Lower(hay), Lower(needle))
  {
    var i :| 0 <= i <= |hay| && OccursAt(hay, needle, i);
    LowerSlice(hay, i, i + |needle|);
    assert OccursAt(Lower(hay), Lower(needle), i);
  }

  /** `s.split(sep)` for a one-character separator: the pieces between the
      separators, in order; there is always at least one piece, and the empty
      string splits into `[""]`. */
  function Split(s: string, sep: char): (r: seq<string>)
    ensures |r| >= 1
    ensures forall k :: 0 <= k < |r| ==> sep !in r[k]
  {
    if s == [] then [""]
    else
      var rest := Split(s[1..], sep);
      if s[0] == sep then [""] + rest
      else [[s[0]] + rest[0]] + rest[1..]
  }

  /** `pieces.join(sep)`. */
  function Join(pieces: seq<string>, sep: char): string {
    if pieces == [] then ""
    else if |pieces| == 1 then pieces[0]
    else pieces[0] + [sep] + Join(pieces[1..], sep)
  }

  /** Splitting and joining back with the same separator gives the input. */
  lemma {:induction false} JoinSplit(s: string, sep: char)
    ensures Join(Split(s, sep), sep) == s
  {
    if s != [] {
      var rest := Split(s[1..], sep);
      JoinSplit(s[1..], sep);
      if s[0] == sep {
        assert Split(s, sep) == [""] + rest;
        assert ([""] + rest)[1..] == rest;
      } else {
        var pieces := [[s[0]] + rest[0]] + rest[1..];
        assert Split(s, sep) == pieces;
        if |rest| == 1 {
          assert Join(pieces, sep) == [s[0]] + rest[0];
        } else {
          assert pieces[1..] == rest[1..];
          assert Join(rest, sep) == rest[0] + [sep] + Join(rest[1..], sep);
          assert Join(pieces, sep) == [s[0]] + rest[0] + [sep] + Join(rest[1..], sep);
        }
      }
    }
  }

  /** The number of occurrences of `c` in `s`. */
  function CountChar(s: string, c: char): nat {
    if s == [] then 0 else (if s[0] == c then 1 else 0) + CountChar(s[1..], c)
  }

  /** `split` yields one piece more than there are separators. */
  lemma {:induction false} SplitLength(s: string, sep: char)
    ensures |Split(s, sep)| == CountChar(s, sep) + 1
  {
    if s != [] {
      SplitLength(s[1..], sep);
    }
  }

  /** The decimal digit for `d`. */
  function DigitChar(d: nat): (c: char)
    requires d < 10
    ensures '0' <= c <= '9' && c as int - '0' as int == d
  {
    (d + '0' as int) as char
  }

  /** `String(n)` for a non-negative integer: its decimal digits. */
  function NatToString(n: nat): (r: string)
    ensures |r| >= 1
    ensures forall k :: 0 <= k < |r| ==> '0' <= r[k] <= '9'
  {
    if n < 10 then [DigitChar(n)] else NatToString(n / 10) + [DigitChar(n % 10)]
  }

  /** `String(i)` for any integer: a minus sign before the digits of a negative one. */
  function IntToString(i: int): string {
    if i < 0 then "-" + NatToString(-i) else NatToString(i)
  }

  predicate AllDigits(s: string) {
    forall k :: 0 <= k < |s| ==> '0' <= s[k] <= '9'
  }

  /** The value of a string of decimal digits (the inverse of NatToString). */
  function DigitsValue(s: string): nat
    requires AllDigits(s)
  {
    if s == [] then 0 else DigitsValue(s[..|s| - 1]) * 10 + (s[|s| - 1] as int - '0' as int)
  }

  /** Reading back the decimal form of `n` gives `n`. */
  lemma {:induction false} NatToStringRoundTrip(n: nat)
    ensures DigitsValue(NatToString(n)) == n
  {
    if n >= 10 {
      var s := NatToString(n);
      NatToStringRoundTrip(n / 10);
      assert s[..|s| - 1] == NatToString(n / 10);
    }
  }

  /** Digits have no upper-case letters, so lower-casing the decimal form of
      an integer leaves it as it is. */
  lemma LowerIntToString(i: int)
    ensures Lower(IntToString(i)) == IntToString(i)
  {
    var s := IntToString(i);
    assert forall k :: 0 <= k < |s| ==> Lower(s)[k] == s[k];
  }
}
