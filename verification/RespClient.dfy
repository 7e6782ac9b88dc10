/** The pipelining connection: replies are matched to commands first in, first out. */
module RespConnection {
  import opened Resp
  import opened RespRoundTrip

  type Token = nat  // one pending command's promise

  datatype Outcome = Resolved(value: Value) | Rejected(error: Parsed)

  datatype Settlement = Settlement(token: Token, outcome: Outcome)

  /** What the connection still has to do and what it has done. `unread` is the buffer from the parse offset on. */
  datatype Conn = Conn(unread: Bytes, pending: seq<Token>, settled: seq<Settlement>)

  predicate Throws(r: Parsed) {
    r.ErrorReply? || r.Unsupported?
  }

  /** Settles pending commands as long as the buffer holds complete replies; an error is not consumed. */
  function Drained(c: Conn): Conn
    decreases |c.pending|
  {
    if c.pending == [] then c
    else
      var r := Parse(c.unread);
      if r.Reply? then
        Drained(Conn(c.unread[r.len..], c.pending[1..], c.settled + [Settlement(c.pending[0], Resolved(r.value))]))
      else if Throws(r) then
        Drained(Conn(c.unread, c.pending[1..], c.settled + [Settlement(c.pending[0], Rejected(r))]))
      else c
  }

  datatype Event = Send(token: Token) | Chunk(bytes: Bytes)

  function Feed(c: Conn, e: Event): Conn {
    match e
    case Send(token) => c.(pending := c.pending + [token])
    case Chunk(bytes) => Drained(c.(unread := c.unread + bytes))
  }

  const FRESH := Conn([], [], [])

  function Run(c: Conn, events: seq<Event>): Conn {
    if events == [] then c else Feed(Run(c, events[..|events| - 1]), events[|events| - 1])
  }

  /** Everything received, in order. */
  function Stream(events: seq<Event>): Bytes {
    if events == [] then []
    else
      var last := events[|events| - 1];
      Stream(events[..|events| - 1]) + if last.Chunk? then last.bytes else []
  }

  /** Every command sent, in order. */
  function Sent(events: seq<Event>): seq<Token> {
    if events == [] then []
    else
      var last := events[|events| - 1];
      Sent(events[..|events| - 1]) + if last.Send? then [last.token] else []
  }

  /** The connection after more bytes and more commands, before anything is settled. */
  function Later(c: Conn, bytes: Bytes, tokens: seq<Token>): Conn {
    Conn(c.unread + bytes, c.pending + tokens, c.settled)
  }

  /** Draining early and again after more bytes and more commands is the same as draining once. */
  lemma {:induction false} DrainEarly(c: Conn, bytes: Bytes, tokens: seq<Token>)
    ensures Drained(Later(Drained(c), bytes, tokens)) == Drained(Later(c, bytes, tokens))
    decreases |c.pending|
  {
    hide Parse;
    if c.pending != [] {
      var r := Parse(c.unread);
      var all := c.pending + tokens;
      assert all[0] == c.pending[0] && all[1..] == c.pending[1..] + tokens;
      if r.Reply? {
        ParseStable(c.unread, bytes);
        assert (c.unread + bytes)[r.len..] == c.unread[r.len..] + bytes;
        DrainEarly(Conn(c.unread[r.len..], c.pending[1..], c.settled + [Settlement(c.pending[0], Resolved(r.value))]),
                   bytes, tokens);
      } else if Throws(r) {
        ParseStable(c.unread, bytes);
        DrainEarly(Conn(c.unread, c.pending[1..], c.settled + [Settlement(c.pending[0], Rejected(r))]), bytes, tokens);
      }
    }
  }

  /** After any run, the future looks the same as if all bytes and commands so far had come at once. */
  lemma {:induction false} RunForgetsChunks(events: seq<Event>, bytes: Bytes, tokens: seq<Token>)
    ensures Drained(Later(Run(FRESH, events), bytes, tokens))
         == Drained(Later(Conn(Stream(events), Sent(events), []), bytes, tokens))
  {
    hide Drained;
    if events == [] {
    } else {
      var init, last := events[..|events| - 1], events[|events| - 1];
      var c := Run(FRESH, init);
      match last
      case Send(token) =>
        RunForgetsChunks(init, bytes, [token] + tokens);
        assert c.pending + [token] + tokens == c.pending + ([token] + tokens);
        assert Sent(events) + tokens == Sent(init) + ([token] + tokens);
        assert Stream(events) == Stream(init);
      case Chunk(chunk) =>
        DrainEarly(Conn(c.unread + chunk, c.pending, c.settled), bytes, tokens);
        RunForgetsChunks(init, chunk + bytes, tokens);
        assert c.unread + chunk + bytes == c.unread + (chunk + bytes);
        assert Stream(events) + bytes == Stream(init) + (chunk + bytes);
        assert Sent(events) == Sent(init);
    }
  }

  /** Main result: once the last bytes are in, only the byte stream and the commands sent matter, not how they were
      split and interleaved. */
  lemma ChunksDoNotMatter(events: seq<Event>)
    requires events != [] && events[|events| - 1].Chunk?
    ensures Run(FRESH, events) == Drained(Conn(Stream(events), Sent(events), []))
  {
    var init, last := events[..|events| - 1], events[|events| - 1];
    RunForgetsChunks(init, last.bytes, []);
    assert Run(FRESH, init).pending + [] == Run(FRESH, init).pending;
    assert Sent(init) + [] == Sent(init) == Sent(events);
  }

  /** The replies at the front of a stream, up to the first that is incomplete or an error, and what follows them. */
  function Replies(s: Bytes): (r: (seq<Value>, Bytes))
    decreases |s|
  {
    var r := Parse(s);
    if r.Reply? then
      var (values, rest) := Replies(s[r.len..]);
      ([r.value] + values, rest)
    else ([], s)
  }

  /** The bytes left after the first `n` replies of a stream. */
  function Skip(s: Bytes, n: nat): Bytes
    requires n <= |Replies(s).0|
    decreases n
  {
    if n == 0 then s else Skip(s[Parse(s).len..], n - 1)
  }

  /** How the commands of a connection end when the whole stream is there: the first replies resolve the first commands;
      when the next thing on the wire is an error, it rejects every further command. */
  ghost predicate FirstInFirstOut(s: Bytes, sent: seq<Token>, c: Conn) {
    var (values, rest) := Replies(s);
    var m := if |sent| < |values| then |sent| else |values|;
    && m <= |c.settled| <= |sent|
    && (forall k | 0 <= k < |c.settled| :: c.settled[k].token == sent[k])
    && (forall k | 0 <= k < m :: c.settled[k].outcome == Resolved(values[k]))
    && c.pending == sent[|c.settled|..]
    && c.unread == Skip(s, m)
    && (if Throws(Parse(rest))
        then |c.settled| == |sent| && forall k | m <= k < |sent| :: c.settled[k].outcome == Rejected(Parse(rest))
        else |c.settled| == m)
  }

  lemma {:induction false} DrainShift(c: Conn, before: seq<Settlement>)
    ensures Drained(c.(settled := before + c.settled)) == Drained(c).(settled := before + Drained(c).settled)
    decreases |c.pending|
  {
    hide Parse;
    if c.pending != [] {
      var r := Parse(c.unread);
      if r.Reply? {
        var s := Settlement(c.pending[0], Resolved(r.value));
        assert before + c.settled + [s] == before + (c.settled + [s]);
        DrainShift(Conn(c.unread[r.len..], c.pending[1..], c.settled + [s]), before);
      } else if Throws(r) {
        var s := Settlement(c.pending[0], Rejected(r));
        assert before + c.settled + [s] == before + (c.settled + [s]);
        DrainShift(Conn(c.unread, c.pending[1..], c.settled + [s]), before);
      }
    }
  }

  lemma {:induction false} DrainIsFirstInFirstOut(s: Bytes, sent: seq<Token>)
    ensures FirstInFirstOut(s, sent, Drained(Conn(s, sent, [])))
    decreases |sent|
  {
    hide Parse;
    if sent != [] {
      var r := Parse(s);
      if r.Reply? {
        DrainIsFirstInFirstOut(s[r.len..], sent[1..]);
        DrainShift(Conn(s[r.len..], sent[1..], []), [Settlement(sent[0], Resolved(r.value))]);
        assert [] + [Settlement(sent[0], Resolved(r.value))] == [Settlement(sent[0], Resolved(r.value))] + [];
        StepIsFirstInFirstOut(s, sent, Drained(Conn(s[r.len..], sent[1..], [])));
      } else if Throws(r) {
        DrainIsFirstInFirstOut(s, sent[1..]);
        DrainShift(Conn(s, sent[1..], []), [Settlement(sent[0], Rejected(r))]);
        assert [] + [Settlement(sent[0], Rejected(r))] == [Settlement(sent[0], Rejected(r))] + [];
      }
    }
  }

  lemma StepIsFirstInFirstOut(s: Bytes, sent: seq<Token>, tail: Conn)
    requires sent != [] && Parse(s).Reply? && FirstInFirstOut(s[Parse(s).len..], sent[1..], tail)
    ensures FirstInFirstOut(s, sent, tail.(settled := [Settlement(sent[0], Resolved(Parse(s).value))] + tail.settled))
  {
    hide Parse;
    var (values, rest) := Replies(s[Parse(s).len..]);
    assert Replies(s) == ([Parse(s).value] + values, rest);
    var m := if |sent| < |values| + 1 then |sent| else |values| + 1;
    assert Skip(s, m) == Skip(s[Parse(s).len..], m - 1);
    hide Replies;
    hide Skip;
    hide Throws;
    var settled := [Settlement(sent[0], Resolved(Parse(s).value))] + tail.settled;
    forall k | 0 <= k < |settled| ensures settled[k].token == sent[k] {
      if k > 0 {
        assert tail.settled[k - 1].token == sent[1..][k - 1];
      }
    }
    forall k | 0 <= k < m ensures settled[k].outcome == Resolved(([Parse(s).value] + values)[k]) {
      if k > 0 {
        assert tail.settled[k - 1].outcome == Resolved(values[k - 1]);
      }
    }
    if Throws(Parse(rest)) {
      forall k | m <= k < |sent| ensures settled[k].outcome == Rejected(Parse(rest)) {
        assert tail.settled[k - 1].outcome == Rejected(Parse(rest));
      }
    }
    assert sent[1..][|tail.settled|..] == sent[|settled|..];
  }

  /** Main result: however bytes and commands arrive, the k-th command gets the k-th reply, and what stays unread is the
      stream without the replies delivered. */
  lemma EveryRunIsFirstInFirstOut(events: seq<Event>)
    requires events != [] && events[|events| - 1].Chunk?
    ensures FirstInFirstOut(Stream(events), Sent(events), Run(FRESH, events))
  {
    ChunksDoNotMatter(events);
    DrainIsFirstInFirstOut(Stream(events), Sent(events));
  }

  lemma {:induction false} RepliesOfPrinted(ws: seq<Wire>)
    requires forall i | 0 <= i < |ws| :: Printable(ws[i])
    ensures Replies(PrintAll(ws)) == (Meanings(ws), []) && Skip(PrintAll(ws), |ws|) == []
  {
    if ws != [] {
      var s := PrintAll(ws);
      RoundTrip(ws[0], PrintAll(ws[1..]));
      assert s[|Print(ws[0])|..] == PrintAll(ws[1..]);
      RepliesOfPrinted(ws[1..]);
    }
  }

  /** Main result: what the server printed for the commands is what their
      callers get, one for one, and nothing is left over. */
  lemma ServerRepliesReachTheirCallers(events: seq<Event>, ws: seq<Wire>)
    requires events != [] && events[|events| - 1].Chunk?
    requires forall i | 0 <= i < |ws| :: Printable(ws[i])
    requires Stream(events) == PrintAll(ws) && |Sent(events)| == |ws|
    ensures var c := Run(FRESH, events);
            && c.unread == [] && c.pending == [] && |c.settled| == |ws|
            && forall k | 0 <= k < |ws| :: c.settled[k] == Settlement(Sent(events)[k], Resolved(Meaning(ws[k])))
  {
    EveryRunIsFirstInFirstOut(events);
    RepliesOfPrinted(ws);
    MeaningsAt(ws);
    assert Parse([]) == Incomplete;
  }

  /** Main result: every settled command got a reply exactly when no command
      was sent past the replies in front of an error. */
  lemma AllResolvedIffNoneBehindError(events: seq<Event>)
    requires events != [] && events[|events| - 1].Chunk?
    ensures var (values, rest) := Replies(Stream(events));
            (forall k | 0 <= k < |Run(FRESH, events).settled| :: Run(FRESH, events).settled[k].outcome.Resolved?)
            <==> !(Throws(Parse(rest)) && |Sent(events)| > |values|)
  {
    hide Parse;
    hide Replies;
    hide Skip;
    hide Run;
    hide Stream;
    hide Sent;
    EveryRunIsFirstInFirstOut(events);
    var (values, rest) := Replies(Stream(events));
    var c := Run(FRESH, events);
    if Throws(Parse(rest)) && |Sent(events)| > |values| {
      assert c.settled[|values|].outcome == Rejected(Parse(rest));
    } else {
      forall k | 0 <= k < |c.settled| ensures c.settled[k].outcome == Resolved(values[k]) {
      }
    }
  }

  /** Main result: an error at the front of the unread bytes stays there for ever and rejects every later command. */
  lemma {:induction false} ErrorIsNeverConsumed(c: Conn, events: seq<Event>)
    requires Throws(Parse(c.unread))
    ensures var after := Run(c, events);
            && after.unread == c.unread + Stream(events)
            && Parse(after.unread) == Parse(c.unread)
            && |c.settled| <= |after.settled|
            && forall k | |c.settled| <= k < |after.settled| :: after.settled[k].outcome == Rejected(Parse(c.unread))
  {
    hide Parse;
    hide Drained;
    if events == [] {
      assert c.unread + Stream(events) == c.unread;
    } else {
      var init, last := events[..|events| - 1], events[|events| - 1];
      ErrorIsNeverConsumed(c, init);
      var before := Run(c, init);
      if last.Chunk? {
        ParseStable(before.unread, last.bytes);
        DrainAtError(before.(unread := before.unread + last.bytes));
        assert c.unread + Stream(init) + last.bytes == c.unread + Stream(events);
      }
    }
  }

  lemma {:induction false} DrainAtError(c: Conn)
    requires Throws(Parse(c.unread))
    ensures var after := Drained(c);
            && after.unread == c.unread && after.pending == []
            && |after.settled| == |c.settled| + |c.pending|
            && after.settled[..|c.settled|] == c.settled
            && forall k | |c.settled| <= k < |after.settled| :: after.settled[k].outcome == Rejected(Parse(c.unread))
    decreases |c.pending|
  {
    if c.pending != [] {
      DrainAtError(Conn(c.unread, c.pending[1..], c.settled + [Settlement(c.pending[0], Rejected(Parse(c.unread)))]));
    }
  }

  // --- the client object ---

  /** What parsing from `offset` on means in terms of the whole buffer. */
  function At(buffer: Bytes, offset: nat): Parsed
    requires offset <= |buffer|
  {
    match Parse(buffer[offset..])
    case Reply(v, len) => Reply(v, offset + len)
    case other => other
  }

  /** No CR LF starts between the two offsets. */
  ghost predicate NoCrlf(buffer: Bytes, from: nat, to: nat) {
    forall i | from <= i < to && i + 1 < |buffer| :: !(buffer[i] == CR && buffer[i + 1] == LF)
  }

  /** The first CR LF found by scanning is the one that ends the line. */
  lemma {:induction false} LineEndsAt(buffer: Bytes, offset: nat, end: nat)
    requires offset <= end <= |buffer| && NoCrlf(buffer, offset, end)
    requires end + 1 < |buffer| ==> buffer[end] == CR && buffer[end + 1] == LF
    ensures TakeLine(buffer[offset..]) ==
              if end + 1 < |buffer| then Line(buffer[offset..end], end + 2 - offset) else NoLine
    decreases |buffer| - offset
  {
    if offset < end {
      assert buffer[offset..][1..] == buffer[offset + 1..];
      assert end + 1 < |buffer| ==> buffer[offset..end] == [buffer[offset]] + buffer[offset + 1..end];
      LineEndsAt(buffer, offset + 1, end);
    }
  }

  /** Items already read, put in front of the items still to come. */
  ghost function Join(values: seq<Value>, used: nat, rest: Parsed): Parsed {
    match rest
    case Reply(List(items), len) => Reply(List(values + items), used + len)
    case other => other
  }

  function ItemsAt(buffer: Bytes, offset: nat, count: nat): Parsed
    requires offset <= |buffer|
  {
    ParseItems(buffer[offset..], Number(count))
  }

  lemma ItemStep(buffer: Bytes, offset: nat, count: nat, values: seq<Value>, item: Parsed)
    requires offset <= |buffer| && count > 0 && item == At(buffer, offset)
    ensures item.Reply? ==> offset < item.len <= |buffer|
    ensures Join(values, offset, ItemsAt(buffer, offset, count)) ==
            if item.Reply? then Join(values + [item.value], item.len, ItemsAt(buffer, item.len, count - 1)) else item
  {
    if item.Reply? {
      assert buffer[offset..][item.len - offset..] == buffer[item.len..];
      var rest := ItemsAt(buffer, item.len, count - 1);
      if rest.Reply? {
        assert values + ([item.value] + rest.value.items) == values + [item.value] + rest.value.items;
      }
    }
  }

  lemma NoItemsLeft(buffer: Bytes, offset: nat, values: seq<Value>)
    requires offset <= |buffer|
    ensures Join(values, offset, ItemsAt(buffer, offset, 0)) == Reply(List(values), offset)
  {
    assert ItemsAt(buffer, offset, 0) == Reply(List([]), 0);
    assert values + [] == values;
  }

  /** An array is its items once its length line has been read. */
  lemma ArrayAfterLine(buffer: Bytes, offset: nat, line: Line)
    requires 0 < offset <= |buffer| && buffer[offset - 1] == STAR
    requires line.Line? ==> offset <= line.len <= |buffer|
    requires TakeLine(buffer[offset..]) == if line.Line? then Line(line.text, line.len - offset) else NoLine
    ensures At(buffer, offset - 1) ==
            if line.NoLine? then Incomplete
            else Join([], line.len, ItemsAt(buffer, line.len, ItemCount(ParseNumber(line.text))))
  {
    assert buffer[offset - 1..][1..] == buffer[offset..];
    if line.Line? {
      assert buffer[offset - 1..][line.len - offset + 1..] == buffer[line.len..];
      var items := ParseItems(buffer[line.len..], ParseNumber(line.text));
      if items.Reply? {
        assert [] + items.value.items == items.value.items;
      }
    }
  }

  /** How often the item loop runs for a length. */
  function ItemCount(length: Value): nat {
    if length.Number? && length.n > 0 then length.n else 0
  }

  class RedisRespClient {
    var buffer: Bytes
    var parseOffset: nat
    var pending: seq<Token>
    var settled: seq<Settlement>

    ghost predicate Valid()
      reads this
    {
      parseOffset <= |buffer|
    }

    ghost function Connection(): Conn
      reads this
      requires Valid()
    {
      Conn(buffer[parseOffset..], pending, settled)
    }

    constructor ()
      ensures Valid() && Connection() == FRESH
    {
      buffer, parseOffset, pending, settled := [], 0, [], [];
    }

    /** Queues the promise of a command; its bytes are written at the same time. */
    method Command(token: Token, args: seq<Bytes>) returns (written: Bytes)
      requires Valid()
      modifies this`pending
      ensures Valid() && Connection() == Feed(old(Connection()), Send(token))
      ensures written == Print(RespRoundTrip.Command(args))
    {
      pending := pending + [token];
      written := Encode(args);
    }

    method OnData(chunk: Bytes)
      requires Valid()
      modifies this
      ensures Valid() && Connection() == Feed(old(Connection()), Chunk(chunk))
    {
      assert (buffer + chunk)[parseOffset..] == buffer[parseOffset..] + chunk;
      buffer := buffer + chunk;
      Drain();
    }

    method Drain()
      requires Valid()
      modifies this
      ensures Valid() && Connection() == Drained(old(Connection()))
      ensures pending == [] ==> parseOffset == 0
    {
      while |pending| > 0
        invariant Valid() && Drained(Connection()) == Drained(old(Connection()))
        decreases |pending|
      {
        var parsed := ParseAt(buffer, parseOffset);
        if Throws(parsed) {
          settled := settled + [Settlement(pending[0], Rejected(parsed))];
          pending := pending[1..];
          continue;
        }
        if !parsed.Reply? {
          return;
        }
        assert buffer[parseOffset..][parsed.len - parseOffset..] == buffer[parsed.len..];
        parseOffset := parsed.len;
        settled := settled + [Settlement(pending[0], Resolved(parsed.value))];
        pending := pending[1..];
      }
      if parseOffset > 0 {
        buffer := buffer[parseOffset..];
        parseOffset := 0;
      }
    }

    /** The connection closed: every waiting command is rejected and the buffer is dropped. */
    method FailPending(error: Parsed)
      requires Valid()
      modifies this
      ensures Valid() && buffer == [] && pending == []
      ensures |settled| == |old(settled)| + |old(pending)| && settled[..|old(settled)|] == old(settled)
      ensures forall k | 0 <= k < |old(pending)| ::
                settled[|old(settled)| + k] == Settlement(old(pending)[k], Rejected(error))
    {
      for k := 0 to |pending|
        invariant pending == old(pending) && |settled| == |old(settled)| + k
                  && settled[..|old(settled)|] == old(settled)
        invariant forall j | 0 <= j < k :: settled[|old(settled)| + j] == Settlement(old(pending)[j], Rejected(error))
      {
        settled := settled + [Settlement(pending[k], Rejected(error))];
      }
      pending := [];
      buffer := [];
      parseOffset := 0;
    }

    static method Encode(args: seq<Bytes>) returns (out: Bytes)
      ensures out == Print(RespRoundTrip.Command(args))
    {
      var items := RespRoundTrip.Command(args).items;
      out := [STAR] + PrintNumber(|args|) + CRLF;
      for i := 0 to |args|
        invariant Print(RespRoundTrip.Command(args)) == out + PrintAll(items[i..])
      {
        assert items[i..][0] == BulkString(args[i]) && items[i..][1..] == items[i + 1..];
        out := out + ([DOLLAR] + PrintNumber(|args[i]|) + CRLF + args[i] + CRLF);
      }
    }

    static method ParseLineAt(buffer: Bytes, offset: nat) returns (line: Line)
      requires offset <= |buffer|
      ensures line == (match TakeLine(buffer[offset..])
                       case NoLine => NoLine
                       case Line(text, len) => Line(text, offset + len))
    {
      var end := offset;
      while end + 1 < |buffer| && !(buffer[end] == CR && buffer[end + 1] == LF)
        invariant offset <= end <= |buffer|
        invariant NoCrlf(buffer, offset, end)
      {
        end := end + 1;
      }
      LineEndsAt(buffer, offset, end);
      if end + 1 < |buffer| {
        line := Line(buffer[offset..end], end + 2);
      } else {
        line := NoLine;
      }
    }

    static method ParseAt(buffer: Bytes, offset: nat) returns (parsed: Parsed)
      requires offset <= |buffer|
      ensures parsed == At(buffer, offset)
      decreases |buffer| - offset, 0
    {
      if offset >= |buffer| {
        return Incomplete;
      }
      var prefix := buffer[offset];
      assert buffer[offset..][1..] == buffer[offset + 1..];
      if prefix == PLUS {
        var line := ParseLineAt(buffer, offset + 1);
        parsed := if line.NoLine? then Incomplete else Reply(Text(line.text), line.len);
      } else if prefix == MINUS {
        var line := ParseLineAt(buffer, offset + 1);
        parsed := if line.NoLine? then Incomplete else ErrorReply(line.text);
      } else if prefix == COLON {
        var line := ParseLineAt(buffer, offset + 1);
        parsed := if line.NoLine? then Incomplete else Reply(ParseNumber(line.text), line.len);
      } else if prefix == DOLLAR {
        parsed := ParseBulkStringAt(buffer, offset + 1);
      } else if prefix == STAR {
        parsed := ParseArrayAt(buffer, offset + 1);
      } else {
        parsed := Unsupported;
      }
    }

    static method ParseBulkStringAt(buffer: Bytes, offset: nat) returns (parsed: Parsed)
      requires 0 < offset <= |buffer| && buffer[offset - 1] == DOLLAR
      ensures parsed == At(buffer, offset - 1)
    {
      assert buffer[offset - 1..][1..] == buffer[offset..];
      var line := ParseLineAt(buffer, offset);
      if line.NoLine? {
        return Incomplete;
      }
      var length := ParseNumber(line.text);
      if !length.Number? || length.n < -1 {
        return Malformed;
      }
      if length.n == -1 {
        return Reply(Null, line.len);
      }
      var valueEnd := line.len + length.n;
      if |buffer| < valueEnd + 2 {
        return Incomplete;
      }
      assert buffer[offset - 1..][line.len - offset + 1..valueEnd - offset + 1] == buffer[line.len..valueEnd];
      parsed := Reply(Text(buffer[line.len..valueEnd]), valueEnd + 2);
    }

    static method ParseArrayAt(buffer: Bytes, offset: nat) returns (parsed: Parsed)
      requires 0 < offset <= |buffer| && buffer[offset - 1] == STAR
      ensures parsed == At(buffer, offset - 1)
      decreases |buffer| - offset, 2
    {
      hide Parse;
      hide ParseItems;
      hide ParseNumber;
      hide TakeLine;
      hide ItemsAt;
      hide Join;
      ghost var goal := At(buffer, offset - 1);
      var line := ParseLineAt(buffer, offset);
      ArrayAfterLine(buffer, offset, line);
      if line.NoLine? {
        return Incomplete;
      }
      var values: seq<Value> := [];
      var nextOffset := line.len;
      var count := ItemCount(ParseNumber(line.text));
      var index := 0;
      while index < count
        invariant 0 <= index <= count && offset <= nextOffset <= |buffer|
        invariant goal == Join(values, nextOffset, ItemsAt(buffer, nextOffset, count - index))
      {
        var item := ParseAt(buffer, nextOffset);
        ItemStep(buffer, nextOffset, count - index, values, item);
        if !item.Reply? {
          return item;
        }
        values := values + [item.value];
        nextOffset := item.len;
        index := index + 1;
      }
      NoItemsLeft(buffer, nextOffset, values);
      parsed := Reply(List(values), nextOffset);
    }
  }
}
