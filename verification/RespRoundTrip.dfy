/** Printing and parsing undo each other, and parsing does not look at later bytes. */
module RespRoundTrip {
  import opened Resp

  // --- more bytes never change a finished parse ---

  lemma {:induction false} LineStable(s: Bytes, more: Bytes)
    requires TakeLine(s).Line?
    ensures TakeLine(s + more) == TakeLine(s)
  {
    if !(s[0] == CR && s[1] == LF) {
      LineStable(s[1..], more);
      assert (s + more)[1..] == s[1..] + more;
    }
  }

  /** Main lemma: whatever is decided about the front of a stream stays decided when bytes are appended. */
  lemma {:induction false} ParseStable(s: Bytes, more: Bytes)
    requires Parse(s) != Incomplete
    ensures Parse(s + more) == Parse(s)
    decreases |s|, 0
  {
    hide ParseItems;
    hide ParseBulk;
    hide TakeLine;
    hide ParseNumber;
    assert (s + more)[1..] == s[1..] + more;
    if s[0] in {PLUS, MINUS, COLON, DOLLAR, STAR} {
      LineStable(s[1..], more);
      var line := TakeLine(s[1..]);
      if s[0] == STAR {
        assert (s + more)[1 + line.len..] == s[1 + line.len..] + more;
        ItemsStable(s[1 + line.len..], ParseNumber(line.text), more);
      } else if s[0] == DOLLAR {
        BulkStable(s, 1 + line.len, ParseNumber(line.text), more);
      }
    }
  }

  lemma BulkStable(s: Bytes, start: nat, length: Value, more: Bytes)
    requires start <= |s| && ParseBulk(s, start, length) != Incomplete
    ensures ParseBulk(s + more, start, length) == ParseBulk(s, start, length)
  {
    if length.Number? && 0 <= length.n && start + length.n + 2 <= |s| {
      assert (s + more)[start..start + length.n] == s[start..start + length.n];
    }
  }

  lemma {:induction false} ItemsStable(s: Bytes, count: Value, more: Bytes)
    requires ParseItems(s, count) != Incomplete
    ensures ParseItems(s + more, count) == ParseItems(s, count)
    decreases |s|, 1
  {
    hide Parse;
    if count.Number? && count.n > 0 {
      ParseStable(s, more);
      if Parse(s).Reply? {
        var len := Parse(s).len;
        assert (s + more)[len..] == s[len..] + more;
        ItemsStable(s[len..], Number(count.n - 1), more);
      }
    }
  }

  // --- a reply is decided by exactly its own bytes ---

  predicate CrLfAt(s: Bytes, k: nat) {
    k + 1 < |s| && s[k] == CR && s[k + 1] == LF
  }

  /** A line is everything before the first CR LF, and there is none when there is no CR LF. */
  lemma {:induction false} LineIsTheFirst(s: Bytes)
    ensures match TakeLine(s)
            case NoLine => forall k: nat :: !CrLfAt(s, k)
            case Line(text, len) =>
              len >= 2 && text == s[..len - 2] && CrLfAt(s, len - 2) && forall k: nat | k < len - 2 :: !CrLfAt(s, k)
  {
    if |s| >= 2 && !CrLfAt(s, 0) {
      LineIsTheFirst(s[1..]);
      forall k: nat | 0 < k ensures CrLfAt(s, k) <==> CrLfAt(s[1..], k - 1) {
      }
    }
  }

  lemma {:induction false} LineOfPrefix(s: Bytes, n: nat)
    requires TakeLine(s).Line? && TakeLine(s).len <= n <= |s|
    ensures TakeLine(s[..n]) == TakeLine(s)
  {
    if !CrLfAt(s, 0) {
      LineOfPrefix(s[1..], n - 1);
      assert s[..n][1..] == s[1..][..n - 1];
    }
  }

  lemma BulkOfItsBytes(s: Bytes, start: nat, length: Value)
    requires start <= |s| && ParseBulk(s, start, length).Reply?
    ensures ParseBulk(s[..ParseBulk(s, start, length).len], start, length) == ParseBulk(s, start, length)
  {
    if length.n >= 0 {
      var part := s[..start + length.n + 2];
      assert part[start..start + length.n] == s[start..start + length.n];
    }
  }

  lemma {:induction false} ReplyOfItsBytes(s: Bytes)
    requires Parse(s).Reply?
    ensures Parse(s[..Parse(s).len]) == Parse(s)
    decreases |s|, 0
  {
    hide ParseItems;
    hide ParseBulk;
    hide TakeLine;
    hide ParseNumber;
    var line, len := TakeLine(s[1..]), Parse(s).len;
    assert 1 + line.len <= len;
    assert s[..len][1..] == s[1..][..len - 1];
    LineOfPrefix(s[1..], len - 1);
    if s[0] == STAR {
      ItemsOfTheirBytes(s[1 + line.len..], ParseNumber(line.text));
      assert s[..len][1 + line.len..] == s[1 + line.len..][..len - 1 - line.len];
    } else if s[0] == DOLLAR {
      BulkOfItsBytes(s, 1 + line.len, ParseNumber(line.text));
    }
  }

  lemma {:induction false} ItemsOfTheirBytes(s: Bytes, count: Value)
    requires ParseItems(s, count).Reply?
    ensures ParseItems(s[..ParseItems(s, count).len], count) == ParseItems(s, count)
    decreases |s|, 1
  {
    hide Parse;
    if count.Number? && count.n > 0 {
      var len, all := Parse(s).len, ParseItems(s, count).len;
      ReplyOfItsBytes(s);
      ParseStable(s[..len], s[len..all]);
      assert s[..len] + s[len..all] == s[..all];
      ItemsOfTheirBytes(s[len..], Number(count.n - 1));
      assert s[..all][len..] == s[len..][..all - len];
    }
  }

  /** Main result: the bytes of a reply decide it by themselves, and no shorter part of them does. */
  lemma ReplyIsItsBytes(s: Bytes, k: nat)
    requires Parse(s).Reply?
    ensures Parse(s[..Parse(s).len]) == Parse(s)
    ensures k < Parse(s).len ==> Parse(s[..k]) == Incomplete
  {
    ReplyOfItsBytes(s);
    if k <= |s| {
      assert s[..k] + s[k..] == s;
      if Parse(s[..k]) != Incomplete {
        ParseStable(s[..k], s[k..]);
      }
    }
  }

  // --- numbers and lines ---

  lemma {:induction false} DecimalReadsBack(n: nat)
    ensures Decimal(n) != [] && AllDigits(Decimal(n)) && DigitsValue(Decimal(n)) == n
  {
    if n >= 10 {
      DecimalReadsBack(n / 10);
      var d := Decimal(n);
      assert d[..|d| - 1] == Decimal(n / 10);
    } else {
      assert Decimal(n)[..0] == [];
    }
  }

  lemma NumberReadsBack(n: int)
    ensures ParseNumber(PrintNumber(n)) == Number(n)
    ensures forall i | 0 <= i < |PrintNumber(n)| :: PrintNumber(n)[i] != CR
  {
    if n < 0 {
      DecimalReadsBack(-n);
      assert PrintNumber(n)[1..] == Decimal(-n);
    } else {
      DecimalReadsBack(n);
    }
  }

  /** A line can be found in front of any bytes exactly when its text has no CR LF in it. */
  lemma {:induction false} LineReadsBack(text: Bytes, rest: Bytes)
    ensures var r := TakeLine(text + CRLF + rest);
            r.Line? && r.len <= |text| + 2 && (r == Line(text, |text| + 2) <==> TakeLine(text) == NoLine)
  {
    var s := text + CRLF + rest;
    if text == [] {
      assert s[0] == CR && s[1] == LF;
    } else {
      assert s[1..] == text[1..] + CRLF + rest;
      LineReadsBack(text[1..], rest);
      if !(s[0] == CR && s[1] == LF) {
        var r := TakeLine(s[1..]);
        assert TakeLine(s) == Line([s[0]] + r.text, r.len + 1);
        if TakeLine(s) == Line(text, |text| + 2) {
          assert ([s[0]] + r.text)[1..] == r.text;
        }
        if r == Line(text[1..], |text| + 1) {
          assert [s[0]] + r.text == text;
        }
      } else {
        assert TakeLine(s).text == [] && text != [];
        assert |text| >= 2 ==> text[0] == CR && text[1] == LF;
      }
    }
  }

  lemma NumberLineReadsBack(first: Byte, n: int, rest: Bytes)
    ensures var s := [first] + PrintNumber(n) + CRLF + rest;
            && TakeLine(s[1..]) == Line(PrintNumber(n), |PrintNumber(n)| + 2)
            && s[1 + |PrintNumber(n)| + 2..] == rest
  {
    var s := [first] + PrintNumber(n) + CRLF + rest;
    assert s[1..] == PrintNumber(n) + CRLF + rest;
    NumberReadsBack(n);
    NoCrNoLine(PrintNumber(n));
    LineReadsBack(PrintNumber(n), rest);
  }

  lemma {:induction false} NoCrNoLine(text: Bytes)
    requires forall i | 0 <= i < |text| :: text[i] != CR
    ensures TakeLine(text) == NoLine
  {
    if |text| >= 2 {
      NoCrNoLine(text[1..]);
    }
  }

  // --- round trip ---

  /** No simple string inside has a CR LF in it; bulk strings may hold any bytes. */
  predicate Printable(w: Wire) {
    match w
    case SimpleString(text) => TakeLine(text) == NoLine
    case Array(items) => forall i | 0 <= i < |items| :: Printable(items[i])
    case _ => true
  }

  lemma SimpleReadsBack(text: Bytes, rest: Bytes)
    ensures var r := Parse(Print(SimpleString(text)) + rest);
            && r.Reply? && r.value.Text?
            && (r == Reply(Text(text), |text| + 3) <==> TakeLine(text) == NoLine)
            && (r.value == Text(text) ==> TakeLine(text) == NoLine)
  {
    var s := Print(SimpleString(text)) + rest;
    assert s[1..] == text + CRLF + rest;
    LineReadsBack(text, rest);
  }

  lemma IntegerReadsBack(n: int, rest: Bytes)
    ensures Parse(Print(Integer(n)) + rest) == Reply(Number(n), |Print(Integer(n))|)
  {
    NumberLineReadsBack(COLON, n, rest);
    assert Print(Integer(n)) + rest == [COLON] + PrintNumber(n) + CRLF + rest;
    NumberReadsBack(n);
  }

  lemma BulkReadsBack(bytes: Bytes, rest: Bytes)
    ensures Parse(Print(BulkString(bytes)) + rest) == Reply(Text(bytes), |Print(BulkString(bytes))|)
  {
    hide TakeLine;
    hide PrintNumber;
    hide ParseNumber;
    hide ParseItems;
    var n := |bytes|;
    var s := Print(BulkString(bytes)) + rest;
    NumberLineReadsBack(DOLLAR, n, bytes + CRLF + rest);
    assert s == [DOLLAR] + PrintNumber(n) + CRLF + (bytes + CRLF + rest);
    NumberReadsBack(n);
    var start := 1 + |PrintNumber(n)| + 2;
    assert s[start..][..n] == bytes;
    assert s[start..start + n] == s[start..][..n];
  }

  lemma NullReadsBack(rest: Bytes)
    ensures Parse(Print(NullBulkString) + rest) == Reply(Null, |Print(NullBulkString)|)
  {
    NumberLineReadsBack(DOLLAR, -1, rest);
    assert Print(NullBulkString) + rest == [DOLLAR] + PrintNumber(-1) + CRLF + rest;
    NumberReadsBack(-1);
  }

  /** Main result: a printed value followed by any bytes reads back as its meaning, and as exactly its own bytes. */
  lemma {:induction false} RoundTrip(w: Wire, rest: Bytes)
    requires Printable(w)
    ensures Parse(Print(w) + rest) == Reply(Meaning(w), |Print(w)|)
    decreases w, 0
  {
    hide ParseItems;
    hide PrintAll;
    hide Meanings;
    hide PrintNumber;
    match w
    case SimpleString(text) => SimpleReadsBack(text, rest);
    case Integer(n) => IntegerReadsBack(n, rest);
    case BulkString(bytes) => BulkReadsBack(bytes, rest);
    case NullBulkString => NullReadsBack(rest);
    case Array(items) =>
      var s := Print(w) + rest;
      assert s == [STAR] + PrintNumber(|items|) + CRLF + (PrintAll(items) + rest);
      NumberLineReadsBack(STAR, |items|, PrintAll(items) + rest);
      NumberReadsBack(|items|);
      ItemsRoundTrip(items, rest);
  }

  lemma {:induction false} ItemsRoundTrip(items: seq<Wire>, rest: Bytes)
    requires forall i | 0 <= i < |items| :: Printable(items[i])
    ensures ParseItems(PrintAll(items) + rest, Number(|items|)) == Reply(List(Meanings(items)), |PrintAll(items)|)
    decreases items, 1
  {
    hide Parse;
    hide Print;
    hide Meaning;
    if items != [] {
      var s, first := PrintAll(items) + rest, Print(items[0]);
      assert s == first + (PrintAll(items[1..]) + rest);
      RoundTrip(items[0], PrintAll(items[1..]) + rest);
      assert s[|first|..] == PrintAll(items[1..]) + rest;
      ItemsRoundTrip(items[1..], rest);
    }
  }

  /** A value that cannot be printed never reads back as itself. */
  lemma {:induction false} UnprintableIsLost(w: Wire, rest: Bytes)
    requires !Printable(w)
    ensures !(Parse(Print(w) + rest).Reply? && Parse(Print(w) + rest).value == Meaning(w))
    decreases w, 0
  {
    hide ParseItems;
    hide PrintAll;
    hide Meanings;
    hide PrintNumber;
    match w
    case SimpleString(text) => SimpleReadsBack(text, rest);
    case Array(items) =>
      var s := Print(w) + rest;
      assert s == [STAR] + PrintNumber(|items|) + CRLF + (PrintAll(items) + rest);
      NumberLineReadsBack(STAR, |items|, PrintAll(items) + rest);
      NumberReadsBack(|items|);
      UnprintableItemsAreLost(items, rest);
    case _ =>
  }

  lemma {:induction false} UnprintableItemsAreLost(items: seq<Wire>, rest: Bytes)
    requires exists i | 0 <= i < |items| :: !Printable(items[i])
    ensures var r := ParseItems(PrintAll(items) + rest, Number(|items|));
            !(r.Reply? && r.value == List(Meanings(items)))
    decreases items, 1
  {
    hide Parse;
    hide Print;
    hide Meaning;
    hide Printable;
    var s, first := PrintAll(items) + rest, Print(items[0]);
    assert s == first + (PrintAll(items[1..]) + rest);
    if Printable(items[0]) {
      RoundTrip(items[0], PrintAll(items[1..]) + rest);
      assert s[|first|..] == PrintAll(items[1..]) + rest;
      UnprintableItemsAreLost(items[1..], rest);
    } else {
      UnprintableIsLost(items[0], PrintAll(items[1..]) + rest);
    }
    var head := Parse(s);
    if head.Reply? {
      var tail := ParseItems(s[head.len..], Number(|items| - 1));
      if tail.Reply? {
        ConsIsEqual(head.value, tail.value.items, Meaning(items[0]), Meanings(items[1..]));
      }
    }
  }

  lemma ConsIsEqual(a: Value, b: seq<Value>, c: Value, d: seq<Value>)
    ensures [a] + b == [c] + d <==> a == c && b == d
  {
    assert ([a] + b)[0] == a && ([c] + d)[0] == c;
    assert ([a] + b)[1..] == b && ([c] + d)[1..] == d;
  }

  /** Main result: exactly the values without CR LF in a simple string survive the wire. */
  lemma RoundTripIffPrintable(w: Wire, rest: Bytes)
    ensures Parse(Print(w) + rest) == Reply(Meaning(w), |Print(w)|) <==> Printable(w)
  {
    if Printable(w) {
      RoundTrip(w, rest);
    } else {
      UnprintableIsLost(w, rest);
    }
  }

  /** What the client writes for one command. */
  function Command(args: seq<Bytes>): Wire {
    Array(seq(|args|, i requires 0 <= i < |args| => BulkString(args[i])))
  }

  /** Main result: the arguments of a command come back from its encoding, whatever bytes they hold. */
  lemma CommandRoundTrip(args: seq<Bytes>, rest: Bytes)
    ensures var r := Parse(Print(Command(args)) + rest);
            && r.Reply? && r.len == |Print(Command(args))|
            && r.value.List? && |r.value.items| == |args|
            && forall i | 0 <= i < |args| :: r.value.items[i] == Text(args[i])
  {
    RoundTrip(Command(args), rest);
    MeaningsAt(Command(args).items);
  }

  lemma {:induction false} MeaningsAt(items: seq<Wire>)
    ensures forall i | 0 <= i < |items| :: Meanings(items)[i] == Meaning(items[i])
  {
    if items != [] {
      MeaningsAt(items[1..]);
    }
  }
}
