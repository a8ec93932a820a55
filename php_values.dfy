/**
 * The few pieces of PHP value semantics that the user-lookup plugin relies on:
 * optional values, `empty()` on strings and on string-valued arrays, and the
 * decimal rendering of an integer when it is concatenated onto a string.
 */
module PhpValues {

  datatype Option<T> = None | Some(value: T)

  datatype Result<T, E> = Ok(value: T) | Err(error: E)

  /** PHP's `empty()` on a string: true for the empty string and for "0". */
  predicate EmptyString(s: string) {
    s == "" || s == "0"
  }

  /** `empty($m[$k])` on an array of strings: a missing key reads as empty. */
  predicate EmptyEntry(m: map<string, string>, k: string) {
    k !in m || EmptyString(m[k])
  }

  /** `!empty($m[$k])`: the key is present and its value is not empty. */
  predicate Listed(m: map<string, string>, k: string) {
    !EmptyEntry(m, k)
  }

  function DigitChar(d: nat): char
    requires d < 10
  {
    (48 + d) as char
  }

  /** The string PHP produces for a non-negative integer in `'x' . $n`. */
  function DecimalString(n: nat): string
  {
    if n < 10 then [DigitChar(n)] else DecimalString(n / 10) + [DigitChar(n % 10)]
  }

  lemma {:induction false} DecimalStringLength(n: nat)
    ensures |DecimalString(n)| >= 1
    ensures n >= 10 ==> |DecimalString(n)| >= 2
  {
    if n >= 10 {
      DecimalStringLength(n / 10);
    }
  }

  /** Different numbers render as different strings. */
  lemma {:induction false} DecimalStringInjective(a: nat, b: nat)
    requires DecimalString(a) == DecimalString(b)
    ensures a == b
  {
    var s := DecimalString(a);
    if a < 10 && b < 10 {
      assert s[0] == DigitChar(a) && s[0] == DigitChar(b);
    } else if a < 10 {
      DecimalStringLength(b);
    } else if b < 10 {
      DecimalStringLength(a);
    } else {
      var pa, pb := DecimalString(a / 10), DecimalString(b / 10);
      assert s == pa + [DigitChar(a % 10)] && s == pb + [DigitChar(b % 10)];
      assert |pa| == |pb|;
      assert DigitChar(a % 10) == s[|s| - 1] == DigitChar(b % 10);
      assert pa == s[..|s| - 1] == pb;
      DecimalStringInjective(a / 10, b / 10);
    }
  }

  /** Appending to a concatenation appends to its last part. */
  lemma AppendAssociates<T>(a: seq<T>, b: seq<T>, c: seq<T>)
    ensures (a + b) + c == a + (b + c)
  {
  }

  /** A common head can be dropped from both sides of an equation. */
  lemma CancelHead(h: string, x: string, y: string)
    requires h + x == h + y
    ensures x == y
  {
    assert x == (h + x)[|h|..];
    assert y == (h + y)[|h|..];
  }
}
