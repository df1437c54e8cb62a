/** Values shared by the handlers of the dashboard API: optional request fields,
    what a store query yields, HTTP responses, and the decimal rendering of the
    numbers that appear in positional parameters (`$1`, `$2`, ...). */
module Common {

  datatype Option<+T> = None | Some(value: T)

  /** A request field is supplied when JavaScript treats it as truthy:
      present, and not the empty string. `if (age)` tests exactly this. */
  predicate Supplied(o: Option<string>) {
    o.Some? && o.value != ""
  }

  /** What an awaited `db.query(...)` gives the handler: its rows, or a thrown error. */
  datatype DbResult<+T> = Rows(rows: T) | DbError

  /** An HTTP response: a status code and a body of the endpoint's own kind. */
  datatype Response<+B> = Response(status: int, body: B)

  lemma Assoc<T>(a: seq<T>, b: seq<T>, c: seq<T>)
    ensures (a + b) + c == a + (b + c)
  {
  }

  predicate IsDigit(c: char) {
    '0' <= c <= '9'
  }

  predicate AllDigits(s: string) {
    forall i :: 0 <= i < |s| ==> IsDigit(s[i])
  }

  function DigitChar(d: nat): (c: char)
    requires d < 10
    ensures IsDigit(c)
  {
    (('0' as int) + d) as char
  }

  function DigitValue(c: char): (d: nat)
    requires IsDigit(c)
    ensures d < 10 && DigitChar(d) == c
  {
    (c as int) - ('0' as int)
  }

  /** The decimal text JavaScript produces for a non-negative integer in a
      template literal (`${n}`): no sign, no leading zeros. */
  function NatToString(n: nat): (s: string)
    ensures s != [] && AllDigits(s)
    ensures |s| > 1 ==> s[0] != '0'
    decreases n
  {
    if n < 10 then [DigitChar(n)] else NatToString(n / 10) + [DigitChar(n % 10)]
  }

  /** The number a run of decimal digits denotes, read left to right. */
  function ParseNat(s: string): nat
    requires AllDigits(s)
    decreases |s|
  {
    if s == [] then 0 else ParseNat(s[..|s| - 1]) * 10 + DigitValue(s[|s| - 1])
  }

  /** Reading back the decimal text of `n` gives `n`. */
  lemma {:induction false} ParseNatToString(n: nat)
    ensures ParseNat(NatToString(n)) == n
  {
    if n >= 10 {
      var s := NatToString(n);
      assert s[..|s| - 1] == NatToString(n / 10);
      ParseNatToString(n / 10);
    }
  }
}
