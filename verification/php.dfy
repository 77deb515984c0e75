/**
 * The few pieces of PHP runtime behaviour that the multi-domain login module
 * depends on: truthiness of strings, `str_starts_with`, and the conversion of
 * an integer to its decimal text when it is concatenated into a string.
 */
module Php {

  datatype Option<+T> = None | Some(value: T)

  /** PHP treats exactly two strings as false: "" and "0" (used by `?:` and `empty()`). */
  predicate Falsy(s: string) {
    s == "" || s == "0"
  }

  /** `str_starts_with($haystack, $needle)`; every string starts with "". */
  predicate StartsWith(haystack: string, needle: string) {
    |needle| <= |haystack| && haystack[..|needle|] == needle
  }

  function Digit(d: nat): (c: char)
    requires d < 10
    ensures '0' <= c <= '9'
  {
    "0123456789"[d]
  }

  /** Decimal text of a natural number, most significant digit first. */
  function NatToString(n: nat): (r: string)
    ensures 1 <= |r|
    ensures forall i :: 0 <= i < |r| ==> '0' <= r[i] <= '9'
    ensures 1 < |r| ==> r[0] != '0'
    decreases n
  {
    if n < 10 then [Digit(n)] else NatToString(n / 10) + [Digit(n % 10)]
  }

  /** Different natural numbers have different decimal texts. */
  lemma {:induction false} NatToStringInjective(a: nat, b: nat)
    requires NatToString(a) == NatToString(b)
    ensures a == b
    decreases a
  {
    var ra, rb := NatToString(a), NatToString(b);
    if a >= 10 && b >= 10 {
      assert ra[..|ra| - 1] == NatToString(a / 10);
      assert rb[..|rb| - 1] == NatToString(b / 10);
      NatToStringInjective(a / 10, b / 10);
      assert "0123456789"[a % 10] == "0123456789"[b % 10];
    } else if a < 10 && b < 10 {
      assert "0123456789"[a] == "0123456789"[b];
    }
  }

  /** The text PHP produces when an integer is concatenated with `.`. */
  function IntToString(n: int): (r: string)
    ensures 1 <= |r|
    ensures (r[0] == '-') <==> n < 0
  {
    if n < 0 then "-" + NatToString(-n) else NatToString(n)
  }

  /** Different integers have different decimal texts. */
  lemma {:induction false} IntToStringInjective(a: int, b: int)
    requires IntToString(a) == IntToString(b)
    ensures a == b
  {
    assert IntToString(a)[0] == IntToString(b)[0];
    if a < 0 {
      NegativeText(a);
      NegativeText(b);
      NatToStringInjective(-a, -b);
    } else {
      NatToStringInjective(a, b);
    }
  }

  /** The text of a negative integer is "-" followed by the digits of its magnitude. */
  lemma NegativeText(n: int)
    requires n < 0
    ensures IntToString(n)[1..] == NatToString(-n)
  {
  }
}
