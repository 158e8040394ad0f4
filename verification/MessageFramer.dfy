/**
  Content-Length framing over a byte stream (the Header Part of the Base
  Protocol, Language Server Protocol 3.17). Bytes are modelled as `char`.
 */
module MessageFramer {
  import opened Basics

  datatype Error = ConnectionClosed | InvalidLength | MissingLength | TooLarge | ReadFailed
  datatype Result<+T> = Ok(value: T) | Err(error: Error)

  // ------------------------------------------------- what a stream means

  predicate HasLine(s: string) {
    |s| > 0 && (s[0] == '\n' || HasLine(s[1..]))
  }

  /** The text before the first line feed. */
  function Line(s: string): string
    requires HasLine(s)
  {
    if s[0] == '\n' then "" else [s[0]] + Line(s[1..])
  }

  /** The text after the first line feed. */
  function After(s: string): (r: string)
    requires HasLine(s)
    ensures |r| < |s|
  {
    if s[0] == '\n' then s[1..] else After(s[1..])
  }

  /** A line loses one trailing carriage return. */
  function Chomp(line: string): string {
    if |line| > 0 && line[|line| - 1] == '\r' then line[..|line| - 1] else line
  }

  function LowerChar(c: char): char {
    if 'A' <= c <= 'Z' then c + ('a' - 'A') else c
  }

  function Lower(s: string): string {
    seq(|s|, i requires 0 <= i < |s| => LowerChar(s[i]))
  }

  const LENGTH_PREFIX := "content-length:"

  predicate IsLengthHeader(line: string) {
    |line| >= 15 && Lower(line)[..15] == LENGTH_PREFIX
  }

  function SkipBlanks(s: string): string {
    if |s| > 0 && (s[0] == ' ' || s[0] == '\t') then SkipBlanks(s[1..]) else s
  }

  /** `isspace` in the C locale. */
  function SkipSpace(s: string): string {
    if |s| > 0 && (s[0] == ' ' || '\t' <= s[0] <= '\r') then SkipSpace(s[1..]) else s
  }

  /** The value of the digits `s` starts with, continuing from `v`. */
  function Accumulate(s: string, v: nat): nat {
    if |s| > 0 && IsDigit(s[0]) then Accumulate(s[1..], v * 10 + (s[0] - '0') as nat) else v
  }

  /**
    `std::stoull`: leading space, an optional sign, digits, anything after them.
    A minus sign is taken modulo 2^64, and only the magnitude can be out of range.
   */
  function StringToUnsigned(s: string): Option<nat> {
    var t := SkipSpace(s);
    var signed := |t| > 0 && (t[0] == '-' || t[0] == '+');
    var digits := if signed then t[1..] else t;
    if |digits| == 0 || !IsDigit(digits[0]) then None
    else
      var v := Accumulate(digits, 0);
      if v >= WORD then None else Some(if t[0] == '-' then (WORD - v) % WORD else v)
  }

  /** The header lines of `s`: the last length they give, and the text after the empty line. */
  function Headers(s: string, length: Option<nat>): (r: (Result<nat>, string))
    ensures |r.1| <= |s| && (r.0 != Err(ConnectionClosed) ==> |r.1| < |s|)
    ensures r.0 == Err(ConnectionClosed) ==> r.1 == ""
    decreases |s|
  {
    if !HasLine(s) then (Err(ConnectionClosed), "")
    else
      var line := Chomp(Line(s));
      var rest := After(s);
      if line == "" then (if length.Some? then Ok(length.value) else Err(MissingLength), rest)
      else if !IsLengthHeader(line) then Headers(rest, length)
      else
        var value := StringToUnsigned(SkipBlanks(line[15..]));
        if value.None? then (Err(InvalidLength), rest) else Headers(rest, value)
  }

  /** One message of at most `limit` bytes, and the text after it. */
  function Receive(s: string, limit: nat): (r: (Result<string>, string))
    ensures r.0 != Err(ConnectionClosed) ==> |r.1| < |s|
    ensures r.0 == Err(ConnectionClosed) ==> r.1 == ""
  {
    var (length, rest) := Headers(s, None);
    if length.Err? then (Err(length.error), rest)
    else if length.value > limit then (Err(TooLarge), rest)
    else if |rest| < length.value then (Err(ConnectionClosed), "")
    else (Ok(rest[..length.value]), rest[length.value..])
  }

  /** What the read loop hands on: it goes past bad frames and ends when the connection does. */
  function Deliver(s: string, limit: nat): seq<string>
    decreases |s|
  {
    var (message, rest) := Receive(s, limit);
    if message == Err(ConnectionClosed) then []
    else if message.Ok? then [message.value] + Deliver(rest, limit)
    else Deliver(rest, limit)
  }

  /** The same in so many rounds, and what is then left of the stream. */
  function DeliverIn(s: string, limit: nat, rounds: nat): (seq<string>, string)
    decreases rounds
  {
    if rounds == 0 then ([], s)
    else
      var (message, rest) := Receive(s, limit);
      if message == Err(ConnectionClosed) then ([], "")
      else
        var later := DeliverIn(rest, limit, rounds - 1);
        (if message.Ok? then [message.value] + later.0 else later.0, later.1)
  }

  lemma DeliverInStep(s: string, done: seq<string>, limit: nat, rounds: nat)
    requires rounds > 0
    ensures var (message, rest) := Receive(s, limit);
            var now, later := DeliverIn(s, limit, rounds), DeliverIn(rest, limit, rounds - 1);
            && (message.Ok? ==> done + now.0 == (done + [message.value]) + later.0 && now.1 == later.1)
            && (message == Err(ConnectionClosed) ==> done + now.0 == done && now.1 == "")
            && (message.Err? && message.error != ConnectionClosed ==> now == later)
  {
    var (message, rest) := Receive(s, limit);
    if message.Ok? {
      Assoc(done, [message.value], DeliverIn(rest, limit, rounds - 1).0);
    }
  }

  /** Stopping early loses nothing but what has not been read: the rounds deliver the beginning. */
  lemma {:induction false} DeliverInIsFirst(s: string, limit: nat, rounds: nat)
    ensures var (messages, rest) := DeliverIn(s, limit, rounds); messages + Deliver(rest, limit) == Deliver(s, limit)
    decreases rounds
  {
    hide Receive;
    var (message, rest) := Receive(s, limit);
    if rounds == 0 {
      Unit(Deliver(s, limit));
    } else if message == Err(ConnectionClosed) {
      DeliverNothing(limit);
    } else {
      DeliverInIsFirst(rest, limit, rounds - 1);
      if message.Ok? {
        var later := DeliverIn(rest, limit, rounds - 1);
        Assoc([message.value], later.0, Deliver(later.1, limit));
      }
    }
  }

  lemma DeliverStep(s: string, done: seq<string>, limit: nat)
    ensures var (message, rest) := Receive(s, limit);
            && (message.Ok? ==> done + Deliver(s, limit) == (done + [message.value]) + Deliver(rest, limit))
            && (message == Err(ConnectionClosed) ==> done + Deliver(s, limit) == done)
            && (message.Err? && message.error != ConnectionClosed ==> Deliver(s, limit) == Deliver(rest, limit))
  {
    var (message, rest) := Receive(s, limit);
    if message.Ok? {
      Assoc(done, [message.value], Deliver(rest, limit));
    }
  }

  function Digits(n: nat): (s: string)
    ensures |s| > 0 && forall i | 0 <= i < |s| :: IsDigit(s[i])
  {
    var last := ['0' + (n % 10) as char];
    if n < 10 then last else Digits(n / 10) + last
  }

  function Frame(message: string): string {
    "Content-Length: " + Digits(|message|) + "\r\n\r\n" + message
  }

  function Frames(messages: seq<string>): string {
    if |messages| == 0 then "" else Frame(messages[0]) + Frames(messages[1..])
  }

  // ---------------------------------------------------------------- the code

  /** The byte stream below: it splits what arrives into non-empty chunks as it likes. */
  class Transport {
    var incoming: string
    var outgoing: string
    const reliable: bool

    constructor (incoming: string, reliable: bool)
      ensures this.incoming == incoming && outgoing == "" && this.reliable == reliable
    {
      this.incoming, this.outgoing, this.reliable := incoming, "", reliable;
    }

    method Read(buffer: array<char>, offset: nat, size: nat) returns (failed: bool, count: nat)
      requires offset + size <= buffer.Length
      modifies `incoming, buffer
      ensures failed ==> !reliable && count == 0
      ensures !failed ==> (count == 0 <==> size == 0 || old(incoming) == "")
      ensures count <= size && count <= |old(incoming)| && incoming == old(incoming[count..])
      ensures buffer[..offset + count] == old(buffer[..offset]) + old(incoming)[..count]
      ensures buffer[offset + count..] == old(buffer[offset + count..])
    {
      failed, count := *, 0;
      failed := failed && !reliable;
      if failed || size == 0 || incoming == "" {
        return;
      }
      count :| 1 <= count <= size && count <= |incoming|;
      forall i | 0 <= i < count {
        buffer[offset + i] := incoming[i];
      }
      incoming := incoming[count..];
    }

    method Write(data: string)
      modifies `outgoing
      ensures outgoing == old(outgoing) + data
    {
      outgoing := outgoing + data;
    }
  }

  const MIN_BUFFER_SIZE := 4096

  class Framer {
    const transport: Transport
    /** The longest string the allocator will give out. */
    const limit: nat
    var buffer: array<char>
    var pos: nat
    var len: nat

    ghost predicate Valid()
      reads this
    {
      pos <= len <= buffer.Length
    }

    /** Everything not yet handed out: what is buffered, then what the transport still holds. */
    ghost function Unread(): string
      requires Valid()
      reads this, buffer, transport
    {
      buffer[pos..len] + transport.incoming
    }

    constructor (transport: Transport, limit: nat)
      ensures Valid() && fresh(buffer) && this.transport == transport && this.limit == limit
      ensures Unread() == transport.incoming
    {
      this.transport, this.limit := transport, limit;
      buffer := new char[0];
      pos, len := 0, 0;
    }

    method WriteMessage(message: string)
      modifies transport`outgoing
      ensures transport.outgoing == old(transport.outgoing) + Frame(message)
    {
      var frame := "Content-Length: " + Digits(|message|) + "\r\n\r\n" + message;
      transport.Write(frame);
    }

    /** Moves the unread part of the buffer to its front. */
    method Compact()
      requires Valid()
      modifies this`pos, this`len, buffer
      ensures Valid() && pos == 0
      ensures buffer[..len] == old(buffer[pos..len])
    {
      if pos > 0 {
        if pos < len {
          ghost var was := buffer[..];
          for i := 0 to len - pos
            modifies buffer
            invariant buffer[..i] == was[pos..pos + i]
            invariant forall j | i <= j < buffer.Length :: buffer[j] == was[j]
          {
            buffer[i] := buffer[pos + i];
          }
          len := len - pos;
        } else {
          len := 0;
        }
        pos := 0;
      }
    }

    method Grow()
      requires Valid()
      modifies this`buffer
      ensures Valid() && buffer.Length >= MIN_BUFFER_SIZE && (buffer == old(buffer) || fresh(buffer))
      ensures buffer[..len] == old(buffer[..len])
    {
      if buffer.Length < MIN_BUFFER_SIZE {
        var bigger := new char[MIN_BUFFER_SIZE];
        forall i | 0 <= i < buffer.Length {
          bigger[i] := buffer[i];
        }
        buffer := bigger;
      }
    }

    /** One transport read at the end of what is buffered. */
    method ReadMore() returns (failed: bool, count: nat)
      requires Valid() && pos == 0
      modifies this`len, buffer, transport`incoming
      ensures Valid() && len == old(len) + count && Unread() == old(Unread())
      ensures failed ==> !transport.reliable && count == 0
      ensures !failed && count == 0 ==> transport.incoming == "" || len == buffer.Length
    {
      ghost var before, incoming := buffer[..len], transport.incoming;
      failed, count := transport.Read(buffer, len, buffer.Length - len);
      Handover(before, incoming, count);
      len := len + count;
    }

    method FillBuffer(minBytes: nat) returns (failed: bool)
      requires Valid()
      modifies this`buffer, this`pos, this`len, buffer, transport`incoming
      ensures Valid() && pos == 0 && (buffer == old(buffer) || fresh(buffer))
      ensures Unread() == old(Unread())
      ensures failed ==> !transport.reliable
      ensures !failed ==> len >= minBytes || transport.incoming == "" || len == buffer.Length
      ensures buffer.Length >= MIN_BUFFER_SIZE
    {
      Compact();
      Grow();
      failed := false;
      ghost var s := Unread();
      while len < minBytes
        invariant Valid() && pos == 0
        invariant !failed && Unread() == s
        decreases minBytes - len
        modifies this`len, buffer, transport`incoming
      {
        var count;
        failed, count := ReadMore();
        if failed || count == 0 {
          return;
        }
      }
    }

    /** One byte of a header, refilling the buffer when it is used up. */
    method NextByte() returns (r: Result<char>)
      requires Valid()
      modifies this`buffer, this`pos, this`len, buffer, transport`incoming
      ensures Valid() && (buffer == old(buffer) || fresh(buffer))
      ensures r.Ok? ==> old(Unread()) == [r.value] + Unread()
      ensures r.Err? ==> Unread() == old(Unread())
      ensures r.Err? ==> (r == Err(ConnectionClosed) && Unread() == "") || (r == Err(ReadFailed) && !transport.reliable)
    {
      if pos >= len {
        var failed := FillBuffer(1);
        if failed {
          return Err(ReadFailed);
        }
        if len == 0 {
          return Err(ConnectionClosed);
        }
      }
      var c := buffer[pos];
      assert buffer[pos..len] == [c] + buffer[pos + 1..len];
      pos := pos + 1;
      return Ok(c);
    }

    method ReadLine() returns (r: Result<string>)
      requires Valid()
      modifies this`buffer, this`pos, this`len, buffer, transport`incoming
      ensures Valid() && (buffer == old(buffer) || fresh(buffer))
      ensures r == Err(ReadFailed) ==> !transport.reliable && |Unread()| <= |old(Unread())|
      ensures r.Err? && r != Err(ReadFailed) ==> r == Err(ConnectionClosed) && !HasLine(old(Unread())) && Unread() == ""
      ensures r.Ok? ==>
          HasLine(old(Unread())) && r.value == Chomp(Line(old(Unread()))) && Unread() == After(old(Unread()))
    {
      var line := "";
      ghost var s := Unread();
      while true
        invariant Valid() && (buffer == old(buffer) || fresh(buffer))
        invariant |Unread()| <= |s| && HasLine(s) == HasLine(Unread())
        invariant HasLine(s) ==> Line(s) == line + Line(Unread()) && After(s) == After(Unread())
        decreases |Unread()|
      {
        ghost var left := Unread();
        var c := NextByte();
        if c.Err? {
          return Err(c.error);
        }
        LineStep(left, c.value, Unread());
        if c.value == '\n' {
          return Ok(Chomp(line));
        }
        if HasLine(s) {
          Assoc(line, [c.value], Line(Unread()));
        }
        line := line + [c.value];
      }
    }

    /** One buffered byte goes into the message. */
    method TakeByte(message: array<char>, total: nat) returns (c: char)
      requires Valid() && message != buffer && pos < len && total < message.Length
      modifies this`pos, message
      ensures Valid() && message[..total + 1] == old(message[..total]) + [c] && old(Unread()) == [c] + Unread()
    {
      c := buffer[pos];
      assert buffer[pos..len] == [c] + buffer[pos + 1..len];
      Assoc([c], buffer[pos + 1..len], transport.incoming);
      message[total] := c;
      pos := pos + 1;
    }

    /** The first loop of read_exact: use up what is buffered. */
    method Drain(message: array<char>) returns (total: nat)
      requires Valid() && message != buffer
      modifies this`pos, message
      ensures Valid() && total <= message.Length && (total < message.Length ==> pos == len)
      ensures message[..total] + Unread() == old(Unread())
    {
      ghost var s := Unread();
      total := 0;
      while total < message.Length && pos < len
        invariant Valid() && total <= message.Length
        invariant message[..total] + Unread() == s
      {
        ghost var done := message[..total];
        var c := TakeByte(message, total);
        total := total + 1;
        Assoc(done, [c], Unread());
      }
    }

    /** One read straight into the message. */
    method ReadDirect(message: array<char>, total: nat) returns (failed: bool, count: nat)
      requires Valid() && pos == len && message != buffer && total <= message.Length
      modifies message, transport`incoming
      ensures failed ==> !transport.reliable && count == 0
      ensures !failed && count == 0 && total < message.Length ==> Unread() == ""
      ensures total + count <= message.Length && message[..total + count] + Unread() == old(message[..total] + Unread())
    {
      ghost var done, incoming := message[..total], transport.incoming;
      failed, count := transport.Read(message, total, message.Length - total);
      Handover(done, incoming, count);
    }

    /** Fills `message`: buffered bytes first, then straight from the transport. */
    method ReadExact(message: array<char>) returns (r: Result<()>)
      requires Valid() && message != buffer
      modifies this`pos, message, transport`incoming
      ensures Valid()
      ensures r == Ok(()) || r == Err(ReadFailed) || r == Err(ConnectionClosed)
      ensures r == Err(ReadFailed) ==> !transport.reliable && |Unread()| <= |old(Unread())|
      ensures r == Err(ConnectionClosed) ==> Unread() == "" && |old(Unread())| < message.Length
      ensures r == Ok(()) ==> message[..] + Unread() == old(Unread())
    {
      ghost var s := Unread();
      var total := Drain(message);
      while total < message.Length
        invariant Valid() && total <= message.Length
        invariant message[..total] + Unread() == s
        invariant total < message.Length ==> pos == len
        modifies message, transport`incoming
      {
        var failed, count := ReadDirect(message, total);
        if failed {
          return Err(ReadFailed);
        }
        if count == 0 {
          return Err(ConnectionClosed);
        }
        total := total + count;
      }
      assert message[..] == message[..total];
      return Ok(());
    }

    /** The first part of read_message: header lines up to the empty one. */
    method ReadHeaders() returns (r: Result<nat>)
      requires Valid()
      modifies this`buffer, this`pos, this`len, buffer, transport`incoming
      ensures Valid() && (buffer == old(buffer) || fresh(buffer))
      ensures r == Err(ReadFailed) ==> !transport.reliable && |Unread()| <= |old(Unread())|
      ensures r != Err(ReadFailed) ==> (r, Unread()) == Headers(old(Unread()), None)
    {
      var contentLength: Option<nat> := None;
      ghost var s := Unread();
      while true
        invariant Valid() && (buffer == old(buffer) || fresh(buffer))
        invariant |Unread()| <= |s| && Headers(s, None) == Headers(Unread(), contentLength)
        decreases |Unread()|
      {
        var line := ReadLine();
        if line.Err? {
          return Err(line.error);
        }
        if line.value == "" {
          return if contentLength.Some? then Ok(contentLength.value) else Err(MissingLength);
        }
        var lower := LowerCase(line.value);
        if |lower| >= 15 && lower[..15] == LENGTH_PREFIX {
          contentLength := StringToUnsigned(SkipBlanks(line.value[15..]));
          if contentLength.None? {
            return Err(InvalidLength);
          }
        }
      }
    }

    method ReadMessage() returns (r: Result<string>)
      requires Valid()
      modifies this`buffer, this`pos, this`len, buffer, transport`incoming
      ensures Valid() && (buffer == old(buffer) || fresh(buffer))
      ensures r == Err(ReadFailed) ==> !transport.reliable && |Unread()| <= |old(Unread())|
      ensures r != Err(ReadFailed) ==> (r, Unread()) == Receive(old(Unread()), limit)
    {
      var contentLength := ReadHeaders();
      if contentLength.Err? {
        return Err(contentLength.error);
      }
      if contentLength.value > limit {
        return Err(TooLarge);
      }
      var message := new char[contentLength.value];
      ghost var rest := Unread();
      var done := ReadExact(message);
      assert done.Ok? ==> rest[..message.Length] == message[..] && rest[message.Length..] == Unread();
      return if done.Err? then Err(done.error) else Ok(message[..]);
    }

    /**
      The read thread of the JSON-RPC client, over a transport that does not fail
      mid-stream. Others clear its running flag after `rounds` rounds.
     */
    method ReadLoop(rounds: nat) returns (messages: seq<string>, closed: bool)
      requires Valid() && transport.reliable
      modifies this`buffer, this`pos, this`len, buffer, transport`incoming
      ensures Valid() && (messages, Unread()) == DeliverIn(old(Unread()), limit, rounds)
      ensures closed ==> Unread() == "" && messages == Deliver(old(Unread()), limit)
      ensures rounds > |old(Unread())| ==> closed
    {
      messages, closed := [], false;
      ghost var all := Unread();
      for round := 0 to rounds
        invariant Valid() && (buffer == old(buffer) || fresh(buffer))
        invariant messages + DeliverIn(Unread(), limit, rounds - round).0 == DeliverIn(all, limit, rounds).0
        invariant DeliverIn(Unread(), limit, rounds - round).1 == DeliverIn(all, limit, rounds).1
        invariant messages + Deliver(Unread(), limit) == Deliver(all, limit) && |Unread()| + round <= |all|
      {
        ghost var left := Unread();
        var r := ReadMessage();
        DeliverStep(left, messages, limit);
        DeliverInStep(left, messages, limit, rounds - round);
        if r.Ok? {
          messages := messages + [r.value];
        } else if r.error == ConnectionClosed {
          DeliverNothing(limit);
          Unit(messages);
          return messages, true;
        }
      }
      Unit(messages);
    }
  }

  lemma DeliverNothing(limit: nat)
    ensures Deliver("", limit) == []
  {
  }

  method LowerCase(s: string) returns (r: string)
    ensures r == Lower(s)
  {
    r := "";
    for i := 0 to |s|
      invariant |r| == i && forall j | 0 <= j < i :: r[j] == LowerChar(s[j])
    {
      r := r + [LowerChar(s[i])];
    }
  }

  // ------------------------------------------------------------- the proofs

  /** Handing `n` bytes over changes neither their order nor their number. */
  lemma Handover(done: string, left: string, n: nat)
    requires n <= |left|
    ensures (done + left[..n]) + left[n..] == done + left
  {
    assert left == left[..n] + left[n..];
  }

  lemma LineStep(s: string, c: char, rest: string)
    requires s == [c] + rest
    ensures c == '\n' ==> HasLine(s) && Line(s) == "" && After(s) == rest
    ensures c != '\n' ==> HasLine(s) == HasLine(rest)
    ensures c != '\n' && HasLine(s) ==> Line(s) == [c] + Line(rest) && After(s) == After(rest)
  {
    assert s[1..] == rest;
  }

  /** A printed number reads back, whatever follows it. */
  lemma {:induction false} AccumulateDigits(n: nat, s: string)
    ensures Accumulate(Digits(n) + s, 0) == Accumulate(s, n)
    decreases n
  {
    var last := ['0' + (n % 10) as char];
    if n < 10 {
      assert (last + s)[1..] == s;
    } else {
      assert Digits(n) + s == Digits(n / 10) + (last + s);
      AccumulateDigits(n / 10, last + s);
      assert (last + s)[1..] == s;
    }
  }

  lemma {:induction false} LengthReadsBack(n: nat)
    requires n < WORD
    ensures StringToUnsigned(SkipBlanks(" " + Digits(n))) == Some(n)
  {
    var digits := Digits(n);
    assert (" " + digits)[1..] == digits && IsDigit(digits[0]);
    assert SkipBlanks(digits) == digits && SkipSpace(digits) == digits;
    AccumulateDigits(n, "");
    assert digits + "" == digits;
  }

  function Header(n: nat): string {
    "Content-Length: " + Digits(n)
  }

  lemma LengthPrefix(value: string)
    ensures var line := "Content-Length:" + value; IsLengthHeader(line) && line[15..] == value
  {
    var lower := Lower("Content-Length:" + value);
    assert lower[..15] == LENGTH_PREFIX;
  }

  lemma {:induction false} HeaderLine(n: nat)
    requires n < WORD
    ensures Avoids(Header(n), '\n') && IsLengthHeader(Header(n)) && Chomp(Header(n) + "\r") == Header(n)
    ensures StringToUnsigned(SkipBlanks(Header(n)[15..])) == Some(n)
  {
    var value := " " + Digits(n);
    assert Header(n) == "Content-Length:" + value;
    LengthPrefix(value);
    LengthReadsBack(n);
  }

  lemma {:induction false} FirstLine(line: string, rest: string)
    requires Avoids(line, '\n')
    ensures var s := line + ("\n" + rest); HasLine(s) && Line(s) == line && After(s) == rest
  {
    var s := line + ("\n" + rest);
    if |line| == 0 {
      LineStep(s, '\n', rest);
    } else {
      FirstLine(line[1..], rest);
      assert s == [line[0]] + (line[1..] + ("\n" + rest));
      LineStep(s, line[0], line[1..] + ("\n" + rest));
    }
  }

  lemma {:induction false} NoLine(s: string)
    requires Avoids(s, '\n')
    ensures !HasLine(s)
  {
    if |s| > 0 {
      NoLine(s[1..]);
    }
  }

  /** The header of a frame: one line, and the empty line that closes the header. */
  lemma {:induction false} HeadersReadBack(n: nat, rest: string)
    requires n < WORD
    ensures Headers((Header(n) + "\r") + ("\n" + ("\r" + ("\n" + rest))), None) == (Ok(n), rest)
  {
    HeaderLine(n);
    FirstLine(Header(n) + "\r", "\r" + ("\n" + rest));
    FirstLine("\r", rest);
  }

  lemma FrameShape(message: string, rest: string)
    ensures Frame(message) + rest == (Header(|message|) + "\r") + ("\n" + ("\r" + ("\n" + (message + rest))))
  {
  }

  /** One frame gives its message back and leaves the rest alone. */
  lemma FrameReceived(message: string, rest: string, limit: nat)
    requires |message| <= limit < WORD
    ensures Receive(Frame(message) + rest, limit) == (Ok(message), rest)
  {
    FrameShape(message, rest);
    HeadersReadBack(|message|, message + rest);
  }

  lemma DeliverFirst(message: string, rest: string, limit: nat)
    requires |message| <= limit < WORD
    ensures Deliver(Frame(message) + rest, limit) == [message] + Deliver(rest, limit)
  {
    FrameReceived(message, rest, limit);
  }

  ghost predicate AllFit(messages: seq<string>, limit: nat) {
    forall m | m in messages :: |m| <= limit
  }

  /** Round trip: what is written message by message is delivered message by message. */
  lemma {:induction false} RoundTrip(messages: seq<string>, limit: nat)
    requires AllFit(messages, limit) && limit < WORD
    ensures Deliver(Frames(messages), limit) == messages
  {
    hide Deliver, Frame;
    DeliverNothing(limit);
    if |messages| > 0 {
      DeliverFirst(messages[0], Frames(messages[1..]), limit);
      RoundTrip(messages[1..], limit);
    }
  }

  /** How many whole frames the first `k` bytes hold. */
  function Complete(messages: seq<string>, k: nat): (n: nat)
    ensures n <= |messages|
  {
    if |messages| == 0 || k < |Frame(messages[0])| then 0
    else 1 + Complete(messages[1..], k - |Frame(messages[0])|)
  }

  lemma {:induction false} CutFrame(message: string, k: nat, limit: nat)
    requires k < |Frame(message)| && |message| <= limit < WORD
    ensures Receive(Frame(message)[..k], limit) == (Err(ConnectionClosed), "")
  {
    var n := |message|;
    var line := Header(n) + "\r";
    var tail := "\n" + ("\r" + ("\n" + message));
    FrameShape(message, "");
    Unit(message);
    Unit(Frame(message));
    Cut(line, tail, k);
    HeaderLine(n);
    if k <= |line| {
      NoLine(line[..k]);
    } else {
      CutHeader(n, message, k - |line|);
    }
  }

  lemma CutHeader(n: nat, message: string, j: nat)
    requires 0 < j < 3 + |message| && |message| == n < WORD
    ensures var cut := (Header(n) + "\r") + ("\n" + ("\r" + ("\n" + message)))[..j];
            Headers(cut, None) == (Err(ConnectionClosed), "") ||
                (exists k :: 0 <= k < n && Headers(cut, None) == (Ok(n), message[..k]))
  {
    HeaderLine(n);
    Cut("\n", "\r" + ("\n" + message), j);
    if j < 3 {
      var after := ("\r" + ("\n" + message))[..j - 1];
      FirstLine(Header(n) + "\r", after);
      assert j == 1 ==> after == "";
      assert j == 2 ==> after == "\r";
      NoLine(after);
    } else {
      Cut("\r", "\n" + message, j - 1);
      Cut("\n", message, j - 2);
      HeadersReadBack(n, message[..j - 3]);
    }
  }

  lemma TakeFirst(messages: seq<string>, n: nat)
    requires 0 < n <= |messages|
    ensures messages[..n] == [messages[0]] + messages[1..][..n - 1]
  {
  }

  /** A connection that breaks at any byte delivers exactly the whole frames before it. */
  lemma {:induction false} CutAnywhere(messages: seq<string>, k: nat, limit: nat)
    requires AllFit(messages, limit) && limit < WORD && k <= |Frames(messages)|
    ensures Deliver(Frames(messages)[..k], limit) == messages[..Complete(messages, k)]
  {
    if |messages| > 0 {
      var m, others := messages[0], messages[1..];
      var size := |Frame(m)|;
      if k < size {
        CutInFirst(m, Frames(others), k, limit);
      } else {
        CutAnywhere(others, k - size, limit);
        CutPastFirst(m, Frames(others), k, limit);
        TakeFirst(messages, Complete(messages, k));
      }
    }
  }

  lemma CutInFirst(message: string, rest: string, k: nat, limit: nat)
    requires k < |Frame(message)| && |message| <= limit < WORD
    ensures Deliver((Frame(message) + rest)[..k], limit) == []
  {
    Cut(Frame(message), rest, k);
    CutFrame(message, k, limit);
  }

  lemma CutPastFirst(message: string, rest: string, k: nat, limit: nat)
    requires |Frame(message)| <= k <= |Frame(message)| + |rest| && |message| <= limit < WORD
    ensures Deliver((Frame(message) + rest)[..k], limit) == [message] + Deliver(rest[..k - |Frame(message)|], limit)
  {
    Cut(Frame(message), rest, k);
    DeliverFirst(message, rest[..k - |Frame(message)|], limit);
  }

  // ------------------------------------------- headers as others write them

  predicate IsSpace(c: char) {
    c == ' ' || '\t' <= c <= '\r'
  }

  predicate AllSpace(s: string) {
    forall i | 0 <= i < |s| :: IsSpace(s[i])
  }

  lemma {:induction false} SpacesSkipped(spaces: string, s: string)
    requires AllSpace(spaces) && (s == "" || !IsSpace(s[0]))
    ensures SkipSpace(spaces + s) == s
  {
    if spaces == "" {
      Unit(s);
    } else {
      assert (spaces + s)[1..] == spaces[1..] + s;
      SpacesSkipped(spaces[1..], s);
    }
  }

  /** A blank is a space, so trimming before reading a number makes no difference. */
  lemma {:induction false} TrimmedReads(s: string)
    ensures StringToUnsigned(SkipBlanks(s)) == StringToUnsigned(s)
  {
    hide Accumulate;
    if |s| > 0 && (s[0] == ' ' || s[0] == '\t') {
      TrimmedReads(s[1..]);
    }
  }

  /** How a number reads: space before it, a sign that counts modulo 2^64, anything after it. */
  lemma NumberReads(spaces: string, sign: string, n: nat, junk: string)
    requires AllSpace(spaces) && (sign == "" || sign == "+" || sign == "-") && (junk == "" || !IsDigit(junk[0]))
    ensures StringToUnsigned(spaces + (sign + (Digits(n) + junk))) ==
            if n >= WORD then None else if sign == "-" then Some((WORD - n) % WORD) else Some(n)
  {
    hide SkipSpace, Digits;
    var digits := Digits(n) + junk;
    AccumulateDigits(n, junk);
    assert IsDigit(digits[0]);
    SpacesSkipped(spaces, sign + digits);
    if sign == "" {
      Unit(digits);
    } else {
      assert (sign + digits)[1..] == digits;
    }
  }

  /** Without a digit after the space and the sign there is no number. */
  lemma NoNumberReads(spaces: string, sign: string, junk: string)
    requires AllSpace(spaces) && (sign == "" || sign == "+" || sign == "-") && (junk == "" || !IsDigit(junk[0]))
    requires sign == "" ==> junk == "" || (!IsSpace(junk[0]) && junk[0] != '+' && junk[0] != '-')
    ensures StringToUnsigned(spaces + (sign + junk)) == None
  {
    hide SkipSpace;
    SpacesSkipped(spaces, sign + junk);
    if sign == "" {
      Unit(junk);
    } else {
      assert (sign + junk)[1..] == junk;
    }
  }

  /** The name of the length header, in any mixture of capital and small letters. */
  predicate SpellsLength(name: string) {
    && |name| == 15
    && forall i | 0 <= i < 15 ::
         var c := "content-length:"[i];
         name[i] == c || ('a' <= c <= 'z' && name[i] as int == c as int - 32)
  }

  /** A line of a header as it stands before its line feed, with a carriage return or without. */
  datatype Field =
    | Other(text: string)
    | Length(name: string, spaces: string, n: nat, junk: string)

  function Raw(line: Field): string {
    match line
    case Other(text) => text
    case Length(name, spaces, n, junk) => name + (spaces + (Digits(n) + junk))
  }

  predicate WellFormed(line: Field) {
    match line
    case Other(text) =>
      text != "" && text != "\r" && Avoids(text, '\n') && !(|text| >= 15 && SpellsLength(text[..15]))
    case Length(name, spaces, n, junk) =>
      && SpellsLength(name) && AllSpace(spaces) && Avoids(spaces, '\n') && n < WORD
      && Avoids(junk, '\n') && (junk == "" || !IsDigit(junk[0]))
  }

  function Lines(lines: seq<Field>): string {
    if |lines| == 0 then "" else Raw(lines[0]) + ("\n" + Lines(lines[1..]))
  }

  /** The last length that is given counts. */
  function LastLength(lines: seq<Field>, length: Option<nat>): Option<nat> {
    if |lines| == 0 then length
    else LastLength(lines[1..], if lines[0].Length? then Some(lines[0].n) else length)
  }

  lemma SpelledIsHeader(line: string)
    ensures IsLengthHeader(line) <==> |line| >= 15 && SpellsLength(line[..15])
  {
    if |line| >= 15 {
      var lower := Lower(line)[..15];
      assert lower == LENGTH_PREFIX <==> forall i | 0 <= i < 15 :: lower[i] == LENGTH_PREFIX[i];
      assert forall i | 0 <= i < 15 :: lower[i] == LowerChar(line[i]) && line[..15][i] == line[i];
    }
  }

  /** A trailing carriage return has no part in the name. */
  lemma ChompKeepsPrefix(text: string)
    ensures IsLengthHeader(Chomp(text)) <==> IsLengthHeader(text)
  {
    SpelledIsHeader(text);
    SpelledIsHeader(Chomp(text));
    if |text| >= 15 && text[|text| - 1] == '\r' {
      assert |text| > 15 ==> text[..|text| - 1][..15] == text[..15];
      assert |text| == 15 ==> text[..15][14] == '\r';
    }
  }

  lemma ChompJoin(a: string, b: string)
    requires a != "" && a[|a| - 1] != '\r'
    ensures Chomp(a + b) == a + Chomp(b)
  {
    if b == "" {
      Unit(a);
    }
  }

  /** One line of another name changes nothing. */
  lemma OtherHeader(text: string, rest: string, length: Option<nat>)
    requires WellFormed(Other(text))
    ensures Headers(text + ("\n" + rest), length) == Headers(rest, length)
  {
    FirstLine(text, rest);
    SpelledIsHeader(text);
    ChompKeepsPrefix(text);
  }

  /** A line that gives a length, whatever its letters, its spaces and what follows the number. */
  lemma LengthHeader(line: Field, rest: string, length: Option<nat>)
    requires line.Length? && WellFormed(line)
    ensures Headers(Raw(line) + ("\n" + rest), length) == Headers(rest, Some(line.n))
  {
    hide StringToUnsigned, SkipBlanks, SpellsLength;
    var value := line.spaces + (Digits(line.n) + line.junk);
    RawAvoids(line);
    FirstLine(Raw(line), rest);
    LengthLineReads(line.name, line.spaces, line.n, line.junk);
  }

  lemma RawAvoids(line: Field)
    requires line.Length? && WellFormed(line)
    ensures Avoids(Raw(line), '\n')
  {
    assert forall i | 0 <= i < 15 :: line.name[i] != '\n';
  }

  lemma SplitName(name: string, value: string)
    requires |name| == 15
    ensures (name + value)[..15] == name && (name + value)[15..] == value
  {
  }

  lemma ChompAfterNumber(name: string, spaces: string, n: nat, junk: string)
    ensures Chomp(name + (spaces + (Digits(n) + junk))) == name + (spaces + (Digits(n) + Chomp(junk)))
  {
    hide Chomp, Digits;
    var number := Digits(n);
    var front := name + (spaces + number);
    assert IsDigit(number[|number| - 1]);
    assert front[|front| - 1] == number[|number| - 1];
    ChompJoin(front, junk);
    AssocTwice(name, spaces, number, junk);
    AssocTwice(name, spaces, number, Chomp(junk));
  }

  lemma AssocTwice(a: string, b: string, c: string, d: string)
    ensures (a + (b + c)) + d == a + (b + (c + d))
  {
    Assoc(a, b + c, d);
    Assoc(b, c, d);
  }

  lemma ChompShortens(junk: string)
    requires junk == "" || !IsDigit(junk[0])
    ensures Chomp(junk) == "" || !IsDigit(Chomp(junk)[0])
  {
  }

  lemma LengthLineReads(name: string, spaces: string, n: nat, junk: string)
    requires WellFormed(Length(name, spaces, n, junk))
    ensures var line := Chomp(name + (spaces + (Digits(n) + junk)));
            IsLengthHeader(line) && StringToUnsigned(SkipBlanks(line[15..])) == Some(n)
  {
    hide StringToUnsigned, SkipBlanks, Digits, Chomp, IsLengthHeader;
    var value := spaces + (Digits(n) + Chomp(junk));
    ChompAfterNumber(name, spaces, n, junk);
    ChompShortens(junk);
    SplitName(name, value);
    SpelledIsHeader(name + value);
    TrimmedReads(value);
    Unit(Digits(n) + Chomp(junk));
    NumberReads(spaces, "", n, Chomp(junk));
  }

  /** A line whose length is no number, or too large a one, is refused and the rest of the header left. */
  lemma BadLengthRefused(name: string, value: string, rest: string, length: Option<nat>)
    requires SpellsLength(name) && Avoids(value, '\n') && StringToUnsigned(Chomp(value)) == None
    ensures Headers((name + value) + ("\n" + rest), length) == (Err(InvalidLength), rest)
  {
    hide StringToUnsigned;
    assert name[14] == ':';
    assert forall i | 0 <= i < 15 :: name[i] != '\n';
    FirstLine(name + value, rest);
    ChompJoin(name, value);
    var line := name + Chomp(value);
    assert line[..15] == name && line[15..] == Chomp(value);
    SpelledIsHeader(line);
    TrimmedReads(Chomp(value));
  }

  lemma EmptyLineEnds(last: string, rest: string, length: Option<nat>)
    requires last == "" || last == "\r"
    ensures Headers(last + ("\n" + rest), length) ==
            (if length.Some? then Ok(length.value) else Err(MissingLength), rest)
  {
    FirstLine(last, rest);
  }

  /** Any header: other lines are passed over, the last length counts, and without one the header is refused. */
  lemma {:induction false} HeadersMean(lines: seq<Field>, last: string, rest: string, length: Option<nat>)
    requires (forall line | line in lines :: WellFormed(line)) && (last == "" || last == "\r")
    ensures var n := LastLength(lines, length);
            Headers(Lines(lines) + (last + ("\n" + rest)), length) ==
            (if n.Some? then Ok(n.value) else Err(MissingLength), rest)
  {
    hide Headers, WellFormed, Raw;
    var end := last + ("\n" + rest);
    if |lines| == 0 {
      Unit(end);
      EmptyLineEnds(last, rest, length);
    } else {
      var line, others := lines[0], Lines(lines[1..]) + end;
      assert line in lines;
      Assoc(Raw(line), "\n" + Lines(lines[1..]), end);
      Assoc("\n", Lines(lines[1..]), end);
      if line.Length? {
        LengthHeader(line, others, length);
        HeadersMean(lines[1..], last, rest, Some(line.n));
      } else {
        RawIsText(line);
        OtherHeader(line.text, others, length);
        HeadersMean(lines[1..], last, rest, length);
      }
    }
  }

  lemma RawIsText(line: Field)
    requires line.Other?
    ensures Raw(line) == line.text && (WellFormed(line) ==> WellFormed(Other(line.text)))
  {
  }

  /** A message under any header that gives its length last. */
  lemma AnyHeaderReceived(lines: seq<Field>, last: string, message: string, rest: string, limit: nat)
    requires (forall line | line in lines :: WellFormed(line)) && (last == "" || last == "\r")
    requires LastLength(lines, None) == Some(|message|)
    ensures Receive(Lines(lines) + (last + ("\n" + (message + rest))), limit) ==
            if |message| <= limit then (Ok(message), rest) else (Err(TooLarge), message + rest)
  {
    HeadersMean(lines, last, message + rest, None);
    assert (message + rest)[..|message|] == message && (message + rest)[|message|..] == rest;
  }

  /** The very bytes of a frame. */
  lemma FrameBytes()
    ensures Frame("{}") == "Content-Length: 2\r\n\r\n{}"
  {
    assert Digits(2) == "2";
  }

  /** A frame with a content type before its length. */
  lemma ContentTypeReceived(body: string, rest: string)
    requires |body| == 8
    ensures Receive("Content-Type: application/json\r\n" + ("Content-Length: 8\r\n" + ("\r\n" + (body + rest))), 100) ==
            (Ok(body), rest)
  {
    hide Receive, Headers;
    var kind, size := "Content-Type: application/json\r", "Content-Length: 8\r";
    var lines := [Other(kind), Length("Content-Length:", " ", 8, "\r")];
    TwoLines(lines, kind, size, "\r" + ("\n" + (body + rest)));
    AnyHeaderReceived(lines, "\r", body, rest, 100);
    Assoc(kind, "\n", size + "\n" + ("\r" + ("\n" + (body + rest))));
    assert kind + "\n" == "Content-Type: application/json\r\n" && size + "\n" == "Content-Length: 8\r\n";
    Assoc("\r", "\n", body + rest);
    assert "\r" + "\n" == "\r\n";
  }

  lemma KindIsOther()
    ensures WellFormed(Other("Content-Type: application/json\r"))
  {
    var kind := "Content-Type: application/json\r";
    assert kind[..15][8] == 'T';
  }

  lemma SizeIsLength()
    ensures WellFormed(Length("Content-Length:", " ", 8, "\r"))
    ensures Raw(Length("Content-Length:", " ", 8, "\r")) == "Content-Length: 8\r"
  {
    assert Digits(8) == "8";
    assert "Content-Length:" + (" " + ("8" + "\r")) == "Content-Length: 8\r";
  }

  lemma LinesOfTwo(a: Field, b: Field, end: string)
    ensures Lines([a, b]) + end == Raw(a) + ("\n" + (Raw(b) + "\n" + end))
    ensures a.Other? && b.Length? ==> LastLength([a, b], None) == Some(b.n)
  {
    hide Raw;
    assert [a, b][1..] == [b] && [b][1..] == [];
    assert Lines([b]) == Raw(b) + ("\n" + "");
    Unit("\n");
    Assoc(Raw(a), "\n" + (Raw(b) + "\n"), end);
    Assoc("\n", Raw(b) + "\n", end);
    assert LastLength([b], None) == LastLength([], if b.Length? then Some(b.n) else None);
  }

  lemma TwoLines(lines: seq<Field>, kind: string, size: string, end: string)
    requires kind == "Content-Type: application/json\r" && size == "Content-Length: 8\r"
    requires lines == [Other(kind), Length("Content-Length:", " ", 8, "\r")]
    ensures (forall line | line in lines :: WellFormed(line)) && LastLength(lines, None) == Some(8)
    ensures Lines(lines) + end == kind + ("\n" + (size + "\n" + end))
  {
    hide WellFormed, Raw, Lines, LastLength;
    KindIsOther();
    SizeIsLength();
    LinesOfTwo(lines[0], lines[1], end);
    RawIsText(lines[0]);
  }
}
