/** The bytes on the wire, written out, and what an error line does to the commands behind it. */
module RespWire {
  import opened Resp
  import opened RespRoundTrip
  import opened RespConnection

  /** No CR LF inside. */
  predicate OneLine(text: Bytes) {
    forall k: nat | k + 1 < |text| :: !(text[k] == 13 && text[k + 1] == 10)
  }

  lemma OneLineIff(text: Bytes)
    ensures OneLine(text) <==> TakeLine(text) == NoLine
  {
    LineIsTheFirst(text);
    if TakeLine(text).Line? {
      assert CrLfAt(text, TakeLine(text).len - 2);
    }
    assert forall k: nat | k + 1 < |text| && text[k] == 13 && text[k + 1] == 10 :: CrLfAt(text, k);
  }

  lemma LineReads(text: Bytes, rest: Bytes)
    requires OneLine(text)
    ensures TakeLine(text + [13, 10] + rest) == Line(text, |text| + 2)
  {
    OneLineIff(text);
    LineReadsBack(text, rest);
  }

  /** Main result: a line that begins with a minus sign is an error with that text, not a reply. */
  lemma ErrorLineIsAnError(text: Bytes, rest: Bytes)
    requires OneLine(text)
    ensures Parse([45] + text + [13, 10] + rest) == ErrorReply(text)
  {
    var s := [45] + text + [13, 10] + rest;
    assert s[1..] == text + [13, 10] + rest;
    LineReads(text, rest);
  }

  /** A line that begins with a plus sign is a reply with that text. */
  lemma PlusLineIsAReply(text: Bytes, rest: Bytes)
    requires OneLine(text)
    ensures Parse([43] + text + [13, 10] + rest) == Reply(Text(text), |text| + 3)
  {
    var s := [43] + text + [13, 10] + rest;
    assert s[1..] == text + [13, 10] + rest;
    LineReads(text, rest);
  }

  /** Outside arrays exactly a whole minus line is an error, and exactly an unknown first byte is unsupported. */
  lemma ErrorsByFirstByte(s: Bytes)
    requires s != [] && s[0] != 42
    ensures Parse(s).ErrorReply? <==> s[0] == 45 && exists k: nat :: k > 0 && CrLfAt(s, k)
    ensures Parse(s) == Unsupported <==> s[0] !in {36, 43, 45, 58}
  {
    LineIsTheFirst(s[1..]);
    forall k: nat | k > 0 ensures CrLfAt(s, k) <==> CrLfAt(s[1..], k - 1) {
    }
    if TakeLine(s[1..]).Line? {
      assert CrLfAt(s, TakeLine(s[1..]).len - 1);
    }
  }

  lemma UnknownFirstByte(s: Bytes)
    requires s != [] && s[0] !in {36, 42, 43, 45, 58}
    ensures Parse(s) == Unsupported
  {
  }

  /** An error inside an array is an error of the whole array. */
  lemma ErrorInsideAnArray(items: seq<Wire>, n: nat, text: Bytes, rest: Bytes)
    requires |items| < n && OneLine(text) && forall i | 0 <= i < |items| :: Printable(items[i])
    ensures var tail := [45] + text + [13, 10] + rest;
            Parse([42] + PrintNumber(n) + [13, 10] + (PrintAll(items) + tail)) == ErrorReply(text)
  {
    hide ParseItems;
    hide ParseBulk;
    hide TakeLine;
    hide PrintNumber;
    hide ParseNumber;
    hide PrintAll;
    hide OneLine;
    var tail := [45] + text + [13, 10] + rest;
    ErrorLineIsAnError(text, rest);
    ItemsUpToError(items, n, text, tail);
    NumberLineReadsBack(42, n, PrintAll(items) + tail);
    NumberReadsBack(n);
  }

  lemma {:induction false} ItemsUpToError(items: seq<Wire>, n: nat, text: Bytes, tail: Bytes)
    requires |items| < n && Parse(tail) == ErrorReply(text) && forall i | 0 <= i < |items| :: Printable(items[i])
    ensures ParseItems(PrintAll(items) + tail, Number(n)) == ErrorReply(text)
  {
    hide Parse;
    hide Print;
    if items == [] {
      assert PrintAll(items) + tail == tail;
    } else {
      var s, first := PrintAll(items) + tail, Print(items[0]);
      assert s == first + (PrintAll(items[1..]) + tail);
      RoundTrip(items[0], PrintAll(items[1..]) + tail);
      assert s[|first|..] == PrintAll(items[1..]) + tail;
      ItemsUpToError(items[1..], n - 1, text, tail);
    }
  }

  // --- runs ---

  lemma {:induction false} RepliesBefore(ws: seq<Wire>, tail: Bytes)
    requires !Parse(tail).Reply? && forall i | 0 <= i < |ws| :: Printable(ws[i])
    ensures Replies(PrintAll(ws) + tail) == (Meanings(ws), tail) && Skip(PrintAll(ws) + tail, |ws|) == tail
  {
    hide Parse;
    hide Print;
    if ws == [] {
      assert PrintAll(ws) + tail == tail;
    } else {
      var s := PrintAll(ws) + tail;
      assert s == Print(ws[0]) + (PrintAll(ws[1..]) + tail);
      RoundTrip(ws[0], PrintAll(ws[1..]) + tail);
      assert s[|Print(ws[0])|..] == PrintAll(ws[1..]) + tail;
      RepliesBefore(ws[1..], tail);
    }
  }

  lemma BehindAnError(events: seq<Event>, ws: seq<Wire>, tail: Bytes)
    requires events != [] && events[|events| - 1].Chunk? && Throws(Parse(tail))
    requires forall i | 0 <= i < |ws| :: Printable(ws[i])
    requires Stream(events) == PrintAll(ws) + tail && |Sent(events)| > |ws|
    ensures var c := Run(FRESH, events);
            && c.unread == tail && c.pending == [] && |c.settled| == |Sent(events)|
            && (forall k | 0 <= k < |ws| :: c.settled[k] == Settlement(Sent(events)[k], Resolved(Meaning(ws[k]))))
            && (forall k | |ws| <= k < |c.settled| ::
                  c.settled[k] == Settlement(Sent(events)[k], Rejected(Parse(tail))))
  {
    EveryRunIsFirstInFirstOut(events);
    RepliesBefore(ws, tail);
    MeaningsAt(ws);
    hide Parse;
    hide Run;
    hide Stream;
    hide Sent;
    hide Replies;
    hide Skip;
    hide Meanings;
  }

  /** Main result: however the bytes arrive, the command whose turn comes at an error line is rejected with its text,
      and so is every command behind it; those before it got their replies. */
  lemma ErrorRejectsItsCommand(events: seq<Event>, ws: seq<Wire>, text: Bytes, rest: Bytes)
    requires events != [] && events[|events| - 1].Chunk? && OneLine(text)
    requires forall i | 0 <= i < |ws| :: Printable(ws[i])
    requires Stream(events) == PrintAll(ws) + ([45] + text + [13, 10] + rest) && |Sent(events)| > |ws|
    ensures var c := Run(FRESH, events);
            && c.unread == [45] + text + [13, 10] + rest && c.pending == [] && |c.settled| == |Sent(events)|
            && (forall k | 0 <= k < |ws| :: c.settled[k] == Settlement(Sent(events)[k], Resolved(Meaning(ws[k]))))
            && (forall k | |ws| <= k < |c.settled| ::
                  c.settled[k] == Settlement(Sent(events)[k], Rejected(ErrorReply(text))))
  {
    ErrorLineIsAnError(text, rest);
    BehindAnError(events, ws, [45] + text + [13, 10] + rest);
  }

  /** The same for a byte that begins no reply. */
  lemma UnknownByteRejectsItsCommand(events: seq<Event>, ws: seq<Wire>, rest: Bytes)
    requires events != [] && events[|events| - 1].Chunk? && rest != [] && rest[0] !in {36, 42, 43, 45, 58}
    requires forall i | 0 <= i < |ws| :: Printable(ws[i])
    requires Stream(events) == PrintAll(ws) + rest && |Sent(events)| > |ws|
    ensures var c := Run(FRESH, events);
            && c.unread == rest && |c.settled| == |Sent(events)|
            && forall k | |ws| <= k < |c.settled| ::
                 c.settled[k] == Settlement(Sent(events)[k], Rejected(Unsupported))
  {
    UnknownFirstByte(rest);
    BehindAnError(events, ws, rest);
  }

  // --- the client's own bytes ---

  /** A command is `*`, the number of arguments, and for each `$`, its length and its bytes, each line with CR LF. */
  lemma {:induction false} CommandBytes(args: seq<Bytes>, n: nat)
    requires n <= |args|
    ensures PrintAll(Command(args).items[n..]) ==
            if n == |args| then []
            else [36] + PrintNumber(|args[n]|) + [13, 10] + args[n] + [13, 10] + PrintAll(Command(args).items[n + 1..])
    ensures Print(Command(args)) == [42] + PrintNumber(|args|) + [13, 10] + PrintAll(Command(args).items)
  {
    if n < |args| {
      assert Command(args).items[n..][0] == BulkString(args[n]);
      assert Command(args).items[n..][1..] == Command(args).items[n + 1..];
    }
  }

  /** Numbers are written in decimal: the last digit is the remainder by ten, the others are the tenth part. */
  lemma NumbersAreDecimal(n: nat)
    ensures n < 10 ==> PrintNumber(n) == [48 + n as Byte]
    ensures n >= 10 ==> PrintNumber(n) == PrintNumber(n / 10) + [48 + (n % 10) as Byte]
    ensures n > 0 ==> PrintNumber(0 - n) == [45] + PrintNumber(n)
  {
  }

  // --- numbers and arrays out of the ordinary ---

  /** A number may carry a sign. */
  lemma SignedNumbers(digits: Bytes)
    requires digits != [] && AllDigits(digits)
    ensures ParseNumber(digits) == ParseNumber([43] + digits) == Number(DigitsValue(digits))
    ensures ParseNumber([45] + digits) == Number(0 - DigitsValue(digits))
  {
    assert ([43] + digits)[1..] == digits && ([45] + digits)[1..] == digits;
    assert !IsDigit(([43] + digits)[0]) && !IsDigit(([45] + digits)[0]);
    hide DigitsValue;
  }

  /** Leading zeros do not count. */
  lemma {:induction false} LeadingZeros(digits: Bytes)
    requires AllDigits(digits)
    ensures AllDigits([48] + digits) && DigitsValue([48] + digits) == DigitsValue(digits)
  {
    if digits == [] {
      assert [48] + digits == [48] && [48][..0] == [];
    } else {
      var n := |digits| - 1;
      assert ([48] + digits)[..n + 1] == [48] + digits[..n];
      LeadingZeros(digits[..n]);
    }
  }

  /** An array with no length, or a negative one, reads as an empty array. */
  lemma NoItems(n: int, rest: Bytes)
    requires n <= 0
    ensures Parse([42] + PrintNumber(n) + [13, 10] + rest) == Reply(List([]), |PrintNumber(n)| + 3)
  {
    hide TakeLine;
    hide PrintNumber;
    hide ParseNumber;
    NumberLineReadsBack(42, n, rest);
    NumberReadsBack(n);
  }
}
