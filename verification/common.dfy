/** Shared vocabulary of the application: optional values, results that carry
    an error message, the shape of a JSON reply as the components test it, the
    transient status line, and the decimal rendering of a count. */
module Common {

  datatype Option<+T> = None | Some(value: T)

  /** A JavaScript promise that settled: either a value or an Error with its message. */
  datatype Result<+T> = Ok(value: T) | Err(message: string)

  /** What a `fetch(...).then(r => r.json())` chain hands to its next stage:
      either the transport or the JSON parse failed, or a body was received. */
  datatype Reply<+T> = TransportFailed(reason: string) | Received(body: T)

  /** A JSON reply that the code tests with `Array.isArray(result)`: anything that
      is not an array (including `null`) is `NotAnArray`. */
  datatype ArrayBody<+T> = NotAnArray | AnArray(items: seq<T>)

  /** The three status kinds every component shows. */
  datatype StatusKind = Success | Error | Info

  /** The status line: a message and its kind (auto-dismissal is a timer, not state). */
  datatype Status = Status(message: string, kind: StatusKind)

  /** The status every component starts with: an empty `info` message. */
  const InitialStatus := Status("", Info)

  /** JavaScript truthiness of a string-valued field that may be missing. */
  predicate Truthy(s: Option<string>)
  {
    s.Some? && s.value != ""
  }

  /** `result && Array.isArray(result) && result.length > 0 ? result[0] : null` */
  function FirstOrNull<T>(body: ArrayBody<T>): (r: Option<T>)
    ensures r.Some? <==> body.AnArray? && |body.items| > 0
    ensures r.Some? ==> r.value == body.items[0]
  {
    if body.AnArray? && |body.items| > 0 then Some(body.items[0]) else None
  }

  /** The reply checks of the gateway: reject unless the body is a non-empty
      array, which is then passed on unchanged. */
  function NonEmptyArray<T>(body: ArrayBody<T>, message: string): (r: Result<seq<T>>)
    ensures r.Ok? <==> body.AnArray? && |body.items| > 0
    ensures r.Ok? ==> r.value == body.items
    ensures r.Err? ==> r.message == message
  {
    if body.AnArray? && |body.items| > 0 then Ok(body.items) else Err(message)
  }

  /** The in-flight list once request `i` has been answered: the others stay, in order. */
  function RemoveAt<T>(xs: seq<T>, i: nat): (r: seq<T>)
    requires i < |xs|
    ensures |r| == |xs| - 1
    ensures forall j :: 0 <= j < i ==> r[j] == xs[j]
    ensures forall j :: i <= j < |r| ==> r[j] == xs[j + 1]
    ensures forall x :: x in r ==> x in xs
  {
    xs[..i] + xs[i + 1..]
  }

  // ---------------------------------------------------------------------------
  // Decimal rendering of a count, as JavaScript's template literal prints a
  // non-negative integer.

  function DigitChar(d: nat): (c: char)
    requires d < 10
    ensures '0' <= c <= '9'
  {
    "0123456789"[d]
  }

  function DigitValue(c: char): nat
  {
    if '0' <= c <= '9' then (c - '0') as nat else 0
  }

  predicate IsDigit(c: char)
  {
    '0' <= c <= '9'
  }

  /** The decimal digits of `n`, most significant first, without leading zeros. */
  function Decimal(n: nat): (r: string)
    ensures |r| > 0
    ensures forall i :: 0 <= i < |r| ==> IsDigit(r[i])
    ensures r[0] == '0' ==> n == 0
    decreases n
  {
    if n < 10 then [DigitChar(n)] else Decimal(n / 10) + [DigitChar(n % 10)]
  }

  /** Reads a string of decimal digits back as a number. */
  function DecimalValue(s: string): nat
  {
    if |s| == 0 then 0 else DecimalValue(s[..|s| - 1]) * 10 + DigitValue(s[|s| - 1])
  }

  lemma DigitRoundTrip(d: nat)
    requires d < 10
    ensures DigitValue(DigitChar(d)) == d
  {
    assert "0123456789"[d] as int == '0' as int + d;
  }

  /** A rendered count reads back as the same count, so distinct counts are
      reported with distinct messages. */
  lemma {:induction false} DecimalRoundTrip(n: nat)
    ensures DecimalValue(Decimal(n)) == n
    decreases n
  {
    if n < 10 {
      DigitRoundTrip(n);
      assert Decimal(n)[..0] == [];
    } else {
      var front := Decimal(n / 10);
      var whole := front + [DigitChar(n % 10)];
      assert whole[..|whole| - 1] == front;
      DecimalRoundTrip(n / 10);
      DigitRoundTrip(n % 10);
    }
  }
}
