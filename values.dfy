/**
 * The plain values a record is built from: Go's `any` payload, `time.Time`,
 * `context.Context` and the decimal rendering of a 64-bit trace id.
 */
module Values {
  import opened Wrappers

  newtype uint64 = x: int | 0 <= x < 0x1_0000_0000_0000_0000

  /** A stand-in for a Go `any` payload: the composer never inspects it. */
  datatype Value =
    | Null
    | Bool(b: bool)
    | Number(n: int)
    | Str(s: string)
    | List(items: seq<Value>)
    | Object(fields: map<string, Value>)

  /** A `time.Time`: an instant (nanoseconds since the Unix epoch) and the
      offset, in seconds east of UTC, of the location it is shown in. */
  datatype Time = Time(unixNano: int, offset: int)

  /** `t.UTC()`: the same instant, shown in UTC. */
  function UTC(t: Time): (r: Time)
    ensures r.unixNano == t.unixNano && r.offset == 0
  {
    Time(t.unixNano, 0)
  }

  /** A `context.Context`: its deadline, if any, and the trace id of the
      tracing span it carries, if any. */
  datatype Context = Context(deadline: Option<int>, span: Option<uint64>)

  /** `context.Background()`: no deadline, no span. */
  const Background := Context(None, None)

  function DigitChar(d: nat): (c: char)
    requires d < 10
    ensures '0' <= c <= '9'
  {
    (48 + d) as char
  }

  function DigitValue(c: char): nat
  {
    if '0' <= c <= '9' then c as int - 48 else 0
  }

  /** `fmt.Sprintf("%d", n)`: decimal digits, no leading zero. */
  function Decimal(n: nat): (s: string)
    ensures |s| >= 1
    ensures forall i :: 0 <= i < |s| ==> '0' <= s[i] <= '9'
    ensures |s| > 1 ==> s[0] != '0'
    decreases n
  {
    if n < 10 then [DigitChar(n)] else Decimal(n / 10) + [DigitChar(n % 10)]
  }

  /** Reads a string of decimal digits back as a number. */
  function ParseDecimal(s: string): nat
  {
    if s == [] then 0 else ParseDecimal(s[..|s| - 1]) * 10 + DigitValue(s[|s| - 1])
  }

  /** Rendering a number in decimal loses nothing. */
  lemma {:induction false} ParseDecimalOfDecimal(n: nat)
    ensures ParseDecimal(Decimal(n)) == n
    decreases n
  {
    if n >= 10 {
      ParseDecimalOfDecimal(n / 10);
      var s := Decimal(n);
      assert s[..|s| - 1] == Decimal(n / 10);
    }
  }
}
