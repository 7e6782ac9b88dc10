/** The wire format of a Redis connection (RESP2), as the client reads and writes it.

  `Parse` says what the bytes at the front of a stream mean; the methods of RespClient that walk a
  buffer by offsets are proved against it.
 */
module Resp {
  newtype Byte = x: int | 0 <= x < 256

  type Bytes = seq<Byte>

  const CR: Byte := 13
  const LF: Byte := 10
  const PLUS: Byte := 43
  const MINUS: Byte := 45
  const COLON: Byte := 58
  const DOLLAR: Byte := 36
  const STAR: Byte := 42
  const ZERO: Byte := 48
  const CRLF: Bytes := [CR, LF]

  /** A reply as the caller gets it; text and bulk strings look the same. */
  datatype Value = Text(bytes: Bytes) | Number(n: int) | NotANumber | Null | List(items: seq<Value>)

  datatype Parsed =
    | Incomplete                     // more bytes are needed
    | Reply(value: Value, len: nat)  // a whole reply, `len` bytes long
    | ErrorReply(message: Bytes)     // thrown: an error line
    | Unsupported                    // thrown: an unknown first byte
    | Malformed                      // a bulk length that is not a number or is below -1

  datatype Line = NoLine | Line(text: Bytes, len: nat)

  /** The bytes up to the first CR LF, and the length with the CR LF. */
  function TakeLine(s: Bytes): (line: Line)
    ensures line.Line? ==> line.len == |line.text| + 2 <= |s|
  {
    if |s| < 2 then NoLine
    else if s[0] == CR && s[1] == LF then Line([], 2)
    else
      match TakeLine(s[1..])
      case NoLine => NoLine
      case Line(text, len) => Line([s[0]] + text, len + 1)
  }

  predicate IsDigit(b: Byte) {
    ZERO <= b < ZERO + 10
  }

  predicate AllDigits(s: Bytes) {
    forall i | 0 <= i < |s| :: IsDigit(s[i])
  }

  function DigitsValue(s: Bytes): nat
    requires AllDigits(s)
  {
    if s == [] then 0 else 10 * DigitsValue(s[..|s| - 1]) + (s[|s| - 1] - ZERO) as nat
  }

  /** The number a line spells: an optional sign and at least one digit. */
  function ParseNumber(s: Bytes): Value {
    if |s| > 0 && AllDigits(s) then Number(DigitsValue(s))
    else if |s| > 1 && s[0] == MINUS && AllDigits(s[1..]) then Number(0 - DigitsValue(s[1..]))
    else if |s| > 1 && s[0] == PLUS && AllDigits(s[1..]) then Number(DigitsValue(s[1..]))
    else NotANumber
  }

  /** What the front of a byte stream means. */
  function Parse(s: Bytes): (r: Parsed)
    ensures r.Reply? ==> 0 < r.len <= |s|
    decreases |s|, 0
  {
    if s == [] then Incomplete
    else if s[0] !in {PLUS, MINUS, COLON, DOLLAR, STAR} then Unsupported
    else
      match TakeLine(s[1..])
      case NoLine => Incomplete
      case Line(text, len) =>
        if s[0] == PLUS then Reply(Text(text), 1 + len)
        else if s[0] == MINUS then ErrorReply(text)
        else if s[0] == COLON then Reply(ParseNumber(text), 1 + len)
        else if s[0] == DOLLAR then ParseBulk(s, 1 + len, ParseNumber(text))
        else
          match ParseItems(s[1 + len..], ParseNumber(text))
          case Reply(items, used) => Reply(items, 1 + len + used)
          case other => other
  }

  /** A bulk string whose length line ends at `start`. */
  function ParseBulk(s: Bytes, start: nat, length: Value): (r: Parsed)
    requires start <= |s|
    ensures r.Reply? ==> start <= r.len <= |s|
  {
    match length
    case Number(n) =>
      if n == -1 then Reply(Null, start)
      else if n < -1 then Malformed
      else if |s| < start + n + 2 then Incomplete
      else Reply(Text(s[start..start + n]), start + n + 2)
    case _ => Malformed
  }

  /** `count` replies in a row; a count that is negative or no number reads as none. */
  function ParseItems(s: Bytes, count: Value): (r: Parsed)
    ensures r.Reply? ==> r.value.List? && r.len <= |s|
    decreases |s|, 1
  {
    if !count.Number? || count.n <= 0 then Reply(List([]), 0)
    else
      match Parse(s)
      case Reply(v, len) =>
        (match ParseItems(s[len..], Number(count.n - 1))
         case Reply(rest, used) => Reply(List([v] + rest.items), len + used)
         case other => other)
      case other => other
  }

  /** What the server may send. */
  datatype Wire =
    | SimpleString(text: Bytes)
    | Integer(n: int)
    | BulkString(bytes: Bytes)
    | NullBulkString
    | Array(items: seq<Wire>)

  function Decimal(n: nat): Bytes {
    if n < 10 then [ZERO + n as Byte] else Decimal(n / 10) + [ZERO + (n % 10) as Byte]
  }

  function PrintNumber(n: int): Bytes {
    if n < 0 then [MINUS] + Decimal(-n) else Decimal(n)
  }

  function Print(w: Wire): Bytes {
    match w
    case SimpleString(text) => [PLUS] + text + CRLF
    case Integer(n) => [COLON] + PrintNumber(n) + CRLF
    case BulkString(bytes) => [DOLLAR] + PrintNumber(|bytes|) + CRLF + bytes + CRLF
    case NullBulkString => [DOLLAR] + PrintNumber(-1) + CRLF
    case Array(items) => [STAR] + PrintNumber(|items|) + CRLF + PrintAll(items)
  }

  function PrintAll(items: seq<Wire>): Bytes {
    if items == [] then [] else Print(items[0]) + PrintAll(items[1..])
  }

  /** The value the client hands to its caller. */
  function Meaning(w: Wire): Value {
    match w
    case SimpleString(text) => Text(text)
    case Integer(n) => Number(n)
    case BulkString(bytes) => Text(bytes)
    case NullBulkString => Null
    case Array(items) => List(Meanings(items))
  }

  function Meanings(items: seq<Wire>): (values: seq<Value>)
    ensures |values| == |items|
  {
    if items == [] then [] else [Meaning(items[0])] + Meanings(items[1..])
  }
}
