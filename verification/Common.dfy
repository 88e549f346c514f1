/** Small shared types: answers of other systems, replies of the API server, texts. */
module Common {

  datatype Option<+T> = None | Some(value: T)

  /** What a call into the cluster or into ollama answers. */
  datatype Call<+T> = Done(value: T) | Failed(error: string)

  /**
   * What a write to the API server answers. A lost reply is an error for the caller although the server did
   * process the request.
   */
  datatype Reply = Accepted | Rejected(error: string) | Lost(error: string)

  /** The reconciler's answer to the work queue. */
  datatype Requeue = NoRequeue | Immediately | After(nanoseconds: int)

  /** A namespaced name. */
  datatype Key = Key(namespace: string, name: string)

  const SECOND: int := 1_000_000_000

  function Or(a: string, b: string): string { if a != "" then a else b }

  function Wrap(e: string, context: string): string { context + ": " + e }

  /** errors.Join on optional errors. */
  function Join(a: Option<string>, b: Option<string>): Option<string> {
    match (a, b)
    case (None, _) => b
    case (_, None) => a
    case (Some(x), Some(y)) => Some(x + "\n" + y)
  }

  function TrimSuffix(s: string, suffix: string): string {
    if |suffix| <= |s| && s[|s| - |suffix|..] == suffix then s[..|s| - |suffix|] else s
  }

  function DigitChar(d: nat): (c: char)
    requires d < 10
    ensures '0' <= c <= '9' && (c as int) - ('0' as int) == d
  {
    ('0' as int + d) as char
  }

  /** Decimal digits of a natural number, without leading zeros. */
  function Digits(n: nat): (s: string)
    ensures s != ""
  {
    if n < 10 then [DigitChar(n)] else Digits(n / 10) + [DigitChar(n % 10)]
  }

  function Decimal(n: int): string {
    if n < 0 then "-" + Digits(-n) else Digits(n)
  }

  /** Rounding to the nearest integer, ties to even. */
  function RoundToEven(x: real): int {
    var f := x.Floor;
    var d := x - f as real;
    if d < 0.5 then f
    else if d > 0.5 then f + 1
    else if f % 2 == 0 then f
    else f + 1
  }

  /** The %q verb for printable text: quotes and backslashes are escaped. */
  function Quoted(s: string): string { "\"" + Escaped(s) + "\"" }

  function Escaped(s: string): string {
    if s == "" then ""
    else (if s[0] == '"' || s[0] == '\\' then ['\\', s[0]] else [s[0]]) + Escaped(s[1..])
  }
}
