/** Values shared by the bus bridge, the bus listener and the relay. */
module Common {

  datatype Option<T> = None | Some(value: T)

  /** The outcome of an operation that Python would end by raising an exception. */
  datatype Result<T, E> = Ok(value: T) | Err(error: E)

  /** One octet, as held by a Python `bytes`/`bytearray` element. */
  type Byte = b: int | 0 <= b < 256

  predicate AllBytes(s: seq<int>)
  {
    forall i :: 0 <= i < |s| ==> 0 <= s[i] < 256
  }

  function DigitChar(d: nat): (c: char)
    requires d < 10
    ensures '0' <= c <= '9'
  {
    "0123456789"[d]
  }

  function DigitValue(c: char): (d: nat)
    requires '0' <= c <= '9'
    ensures d < 10 && DigitChar(d) == c
  {
    (c as int) - ('0' as int)
  }

  /** Python's `str(n)` for a non-negative int: decimal digits, most significant first, no leading zero. */
  function Decimal(n: nat): (s: string)
    ensures 1 <= |s|
    ensures forall i :: 0 <= i < |s| ==> '0' <= s[i] <= '9'
    ensures |s| > 1 ==> s[0] != '0'
    decreases n
  {
    if n < 10 then [DigitChar(n)] else Decimal(n / 10) + [DigitChar(n % 10)]
  }

  /** The value of a string of decimal digits, the reading a log consumer applies to `str(n)`. */
  function DecimalValue(s: string): nat
    requires forall i :: 0 <= i < |s| ==> '0' <= s[i] <= '9'
  {
    if s == [] then 0 else 10 * DecimalValue(s[..|s| - 1]) + DigitValue(s[|s| - 1])
  }

  /** Reading back the rendered number gives the number: the decimal rendering loses nothing. */
  lemma {:induction false} DecimalRoundTrip(n: nat)
    ensures DecimalValue(Decimal(n)) == n
    decreases n
  {
    var s := Decimal(n);
    if n >= 10 {
      var q, r := n / 10, n % 10;
      DecimalRoundTrip(q);
      assert s == Decimal(q) + [DigitChar(r)];
      assert s[..|s| - 1] == Decimal(q);
      assert DigitValue(s[|s| - 1]) == r;
      assert DecimalValue(s) == 10 * q + r;
    }
  }

  /** Distinct numbers are rendered as distinct strings. */
  lemma DecimalInjective(m: nat, n: nat)
    requires Decimal(m) == Decimal(n)
    ensures m == n
  {
    DecimalRoundTrip(m);
    DecimalRoundTrip(n);
  }
}
