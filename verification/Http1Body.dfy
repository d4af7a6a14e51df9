/**
 HTTP/1.1 bodies: the chunked writer and the three body readers (section 7.1 of RFC 9112).

 The readers pull from a byte source that may deliver any number of bytes per call or fail,
 and push into a sink that may fail; their meaning is given by functions on the whole input.
 */
module Http1Body {
  import opened Prelude
  import opened Utf8

  const CR: byte := 13
  const LF: byte := 10
  const CRLF: seq<byte> := [CR, LF]
  const MAX_LINE := 8192
  const USIZE_LIMIT := 0x1_0000_0000_0000_0000

  datatype BodyError = Io | ClosedEarly | ClosedMidChunk | UnexpectedEof | LineTooLong | NotUtf8
                     | InvalidChunkSize | ExpectedChunkCrlf

  // ---- Byte source and sink ----------------------------------------------------------------

  /** A reader whose k-th call delivers at most `schedule(k)` bytes, or fails when that is not positive. */
  class Reader {
    var remaining: seq<byte>
    var calls: nat
    const schedule: nat -> int

    constructor (input: seq<byte>, schedule: nat -> int)
      ensures remaining == input && this.schedule == schedule && calls == 0
    {
      remaining := input;
      calls := 0;
      this.schedule := schedule;
    }

    /** The source never fails. */
    ghost predicate Reliable() {
      forall k :: schedule(k) > 0
    }

    /** Any non-empty prefix that fits may be delivered; nothing is delivered only at the end or into no room. */
    method Read(room: nat) returns (r: Result<seq<byte>, BodyError>)
      modifies this
      ensures r.Ok? ==> |r.value| <= room && old(remaining) == r.value + remaining
      ensures r.Ok? ==> (r.value == [] <==> room == 0 || old(remaining) == [])
      ensures r.Err? ==> r.error == Io && remaining == old(remaining) && !Reliable()
      ensures calls == old(calls) + 1
    {
      var most := schedule(calls);
      calls := calls + 1;
      if most <= 0 {
        return Err(Io);
      }
      var n := if most < room then most else room;
      n := if |remaining| < n then |remaining| else n;
      r := Ok(remaining[..n]);
      remaining := remaining[n..];
    }
  }

  /** A writer that accepts at most `capacity` bytes in all and then fails. */
  class Sink {
    var bytes: seq<byte>
    const capacity: nat

    constructor (capacity: nat)
      ensures bytes == [] && this.capacity == capacity
    {
      bytes := [];
      this.capacity := capacity;
    }

    method WriteAll(data: seq<byte>) returns (ok: bool)
      modifies this
      ensures ok ==> bytes == old(bytes) + data
      ensures !ok ==> old(bytes) <= bytes <= old(bytes) + data && |old(bytes) + data| > capacity
    {
      var left := if |bytes| < capacity then capacity - |bytes| else 0;
      if |data| <= left {
        bytes := bytes + data;
        return true;
      }
      bytes := bytes + data[..left];
      return false;
    }
  }

  // ---- Writing ---------------------------------------------------------------------------

  function HexDigit(d: nat): (b: byte)
    requires d < 16
  {
    if d < 10 then 48 + d else 87 + d
  }

  /** Lower-case hexadecimal without leading zeros. */
  function ToHex(n: nat): (s: seq<byte>)
    ensures s != []
  {
    if n < 16 then [HexDigit(n)] else ToHex(n / 16) + [HexDigit(n % 16)]
  }

  const LAST_CHUNK: seq<byte> := [48, CR, LF, CR, LF]

  function EncodeChunk(data: seq<byte>): seq<byte> {
    if data == [] then [] else ToHex(|data|) + CRLF + data + CRLF
  }

  function EncodeBody(writes: seq<seq<byte>>): seq<byte> {
    if writes == [] then LAST_CHUNK else EncodeChunk(writes[0]) + EncodeBody(writes[1..])
  }

  /** Frames every write as one chunk. */
  class ChunkedWriter {
    const inner: Sink

    constructor (inner: Sink)
      ensures this.inner == inner
    {
      this.inner := inner;
    }

    method WriteChunk(data: seq<byte>) returns (ok: bool)
      modifies inner
      ensures ok ==> inner.bytes == old(inner.bytes) + EncodeChunk(data)
      ensures !ok ==> old(inner.bytes) <= inner.bytes <= old(inner.bytes) + EncodeChunk(data)
      ensures !ok ==> |old(inner.bytes) + EncodeChunk(data)| > inner.capacity
    {
      if data == [] {
        return true;
      }
      hide EncodeChunk, ToHex;
      var head := ToHex(|data|) + CRLF;
      ghost var start := inner.bytes;
      ChunkParts(head, data);
      ok := inner.WriteAll(head);
      if !ok {
        PrefixWithin(start, inner.bytes, head, EncodeChunk(data));
        return;
      }
      ok := inner.WriteAll(data);
      assert start + head + data == start + (head + data);
      if !ok {
        PrefixWithin(start, inner.bytes, head + data, EncodeChunk(data));
        return;
      }
      ok := inner.WriteAll(CRLF);
      assert start + (head + data) + CRLF == start + EncodeChunk(data);
    }

    method WriteStreamEnd() returns (ok: bool)
      modifies inner
      ensures ok ==> inner.bytes == old(inner.bytes) + LAST_CHUNK
      ensures !ok ==> old(inner.bytes) <= inner.bytes <= old(inner.bytes) + LAST_CHUNK
      ensures !ok ==> |old(inner.bytes) + LAST_CHUNK| > inner.capacity
    {
      ok := inner.WriteAll(LAST_CHUNK);
    }
  }

  lemma {:induction false} ChunkParts(head: seq<byte>, data: seq<byte>)
    requires data != [] && head == ToHex(|data|) + CRLF
    ensures EncodeChunk(data) == head + data + CRLF
    ensures head <= EncodeChunk(data) && head + data <= EncodeChunk(data)
  {
    hide ToHex;
  }

  lemma {:induction false} PrefixWithin(start: seq<byte>, now: seq<byte>, part: seq<byte>, whole: seq<byte>)
    requires now <= start + part && part <= whole
    ensures now <= start + whole
  {
    assert whole == part + whole[|part|..];
    assert start + whole == start + part + whole[|part|..];
  }

  // ---- Reading a line --------------------------------------------------------------------

  datatype LineRead = Line(text: seq<byte>, rest: seq<byte>) | NoLine(error: BodyError, rest: seq<byte>)

  function LineText(text: seq<byte>, rest: seq<byte>): LineRead {
    if FromUtf8(text).Valid? then Line(text, rest) else NoLine(NotUtf8, rest)
  }

  /** The line that starts with the bytes `line` already read and goes on in `input`. */
  function LineFrom(line: seq<byte>, input: seq<byte>): (l: LineRead)
    ensures |l.rest| <= |input|
    ensures l.Line? && line == [] ==> |l.rest| < |input|
    decreases |input|
  {
    if input == [] then
      if line == [] then NoLine(UnexpectedEof, []) else LineText(line, [])
    else
      var longer := line + [input[0]];
      if |longer| >= 2 && longer[|longer| - 2..] == CRLF then LineText(longer[..|longer| - 2], input[1..])
      else if |longer| > MAX_LINE then NoLine(LineTooLong, input[1..])
      else LineFrom(longer, input[1..])
  }

  method ReadLine(reader: Reader) returns (r: Result<seq<byte>, BodyError>)
    modifies reader
    ensures r.Ok? ==> LineFrom([], old(reader.remaining)) == Line(r.value, reader.remaining)
    ensures r.Err? && r.error != Io ==> LineFrom([], old(reader.remaining)) == NoLine(r.error, reader.remaining)
    ensures reader.Reliable() ==> r != Err(Io)
  {
    hide *;
    var line: seq<byte> := [];
    ghost var whole := LineFrom([], reader.remaining);
    while true
      invariant LineFrom(line, reader.remaining) == whole
      decreases |reader.remaining|
    {
      ghost var before := reader.remaining;
      LineStep(line, before);
      var got := reader.Read(1);
      if got.Err? {
        return Err(got.error);
      }
      if got.value == [] {
        if line == [] {
          return Err(UnexpectedEof);
        }
        break;
      }
      assert before[0] == got.value[0] && before[1..] == reader.remaining;
      line := line + [got.value[0]];
      if |line| >= 2 && line[|line| - 2..] == CRLF {
        line := line[..|line| - 2];
        break;
      }
      if |line| > MAX_LINE {
        return Err(LineTooLong);
      }
    }
    r := CheckText(line, reader.remaining);
  }

  lemma {:induction false} LineStep(line: seq<byte>, input: seq<byte>)
    ensures input == [] && line == [] ==> LineFrom(line, input) == NoLine(UnexpectedEof, [])
    ensures input == [] && line != [] ==> LineFrom(line, input) == LineText(line, [])
    ensures input != [] ==>
              var longer := line + [input[0]];
              LineFrom(line, input) ==
                if |longer| >= 2 && longer[|longer| - 2..] == CRLF then LineText(longer[..|longer| - 2], input[1..])
                else if |longer| > MAX_LINE then NoLine(LineTooLong, input[1..])
                else LineFrom(longer, input[1..])
  {
  }

  method CheckText(line: seq<byte>, ghost rest: seq<byte>) returns (r: Result<seq<byte>, BodyError>)
    ensures r == if LineText(line, rest) == Line(line, rest) then Ok(line) else Err(NotUtf8)
    ensures r.Err? ==> LineText(line, rest) == NoLine(NotUtf8, rest)
  {
    if FromUtf8(line).Valid? {
      return Ok(line);
    }
    return Err(NotUtf8);
  }

  // ---- Chunk sizes -----------------------------------------------------------------------

  /** How many bytes of white space (Unicode White_Space, in UTF-8) the string starts with. */
  function SpaceAt(s: seq<byte>): (n: nat)
    ensures n <= |s|
  {
    if |s| >= 1 && IsAsciiSpace(s[0]) then 1
    else if |s| >= 2 && IsNarrowSpace(s[0], s[1]) then 2
    else if |s| >= 3 && IsWideSpace(s[0], s[1], s[2]) then 3
    else 0
  }

  predicate IsAsciiSpace(b: byte) {
    9 <= b <= 13 || b == 32
  }

  predicate IsNarrowSpace(a: byte, b: byte) {
    a == 0xC2 && (b == 0x85 || b == 0xA0)
  }

  predicate IsWideSpace(a: byte, b: byte, c: byte) {
    || (a == 0xE1 && b == 0x9A && c == 0x80)
    || (a == 0xE2 && b == 0x80 && (0x80 <= c <= 0x8A || c == 0xA8 || c == 0xA9 || c == 0xAF))
    || (a == 0xE2 && b == 0x81 && c == 0x9F)
    || (a == 0xE3 && b == 0x80 && c == 0x80)
  }

  function TrimStart(s: seq<byte>): (r: seq<byte>)
    ensures |r| <= |s|
    decreases |s|
  {
    if SpaceAt(s) == 0 then s else TrimStart(s[SpaceAt(s)..])
  }

  function SpaceBefore(s: seq<byte>): (n: nat)
    ensures n <= |s|
  {
    var k := |s|;
    if k >= 1 && IsAsciiSpace(s[k - 1]) then 1
    else if k >= 2 && IsNarrowSpace(s[k - 2], s[k - 1]) then 2
    else if k >= 3 && IsWideSpace(s[k - 3], s[k - 2], s[k - 1]) then 3
    else 0
  }

  function TrimEnd(s: seq<byte>): (r: seq<byte>)
    ensures |r| <= |s|
    decreases |s|
  {
    if SpaceBefore(s) == 0 then s else TrimEnd(s[..|s| - SpaceBefore(s)])
  }

  function Trim(s: seq<byte>): seq<byte> {
    TrimEnd(TrimStart(s))
  }

  /** The part before the first semicolon. */
  function BeforeSemicolon(s: seq<byte>): seq<byte> {
    if s == [] || s[0] == 59 then [] else [s[0]] + BeforeSemicolon(s[1..])
  }

  function HexValue(b: byte): (d: Option<nat>)
    ensures d.Some? ==> d.value < 16
  {
    if 48 <= b <= 57 then Some(b - 48)
    else if 97 <= b <= 102 then Some(b - 87)
    else if 65 <= b <= 70 then Some(b - 55)
    else None
  }

  function HexDigits(s: seq<byte>): Option<nat> {
    if s == [] then Some(0)
    else
      var high := HexDigits(s[..|s| - 1]);
      var low := HexValue(s[|s| - 1]);
      if high.Some? && low.Some? then Some(high.value * 16 + low.value) else None
  }

  /** An optional plus sign and at least one hexadecimal digit, fitting a machine word. */
  function ParseUsizeHex(s: seq<byte>): (r: Option<nat>) {
    var digits := if |s| >= 2 && s[0] == 43 then s[1..] else s;
    if digits == [] then None
    else
      var n := HexDigits(digits);
      if n.Some? && n.value < USIZE_LIMIT then n else None
  }

  // ---- Chunked bodies --------------------------------------------------------------------

  datatype Decoded = Decoded(error: Option<BodyError>, out: seq<byte>, rest: seq<byte>)

  /**
   What reading a chunked body from `input` writes, where it stops, and with which error.
   `room` says whether the copy buffer can hold anything at all.
   */
  function DecodeChunked(input: seq<byte>, room: bool): (d: Decoded)
    decreases |input|, 0
  {
    match LineFrom([], input)
    case NoLine(e, rest) => Decoded(Some(e), [], rest)
    case Line(line, rest) =>
      if Trim(line) == [] then DecodeChunked(rest, room)
      else
        match ParseUsizeHex(Trim(BeforeSemicolon(Trim(line))))
        case None => Decoded(Some(InvalidChunkSize), [], rest)
        case Some(size) => AfterSize(size, rest, room)
  }

  /** What follows once a chunk size has been read. */
  function AfterSize(size: nat, rest: seq<byte>, room: bool): Decoded
    decreases |rest|, 2
  {
    if size == 0 then
      match LineFrom([], rest)
      case NoLine(e, after) => Decoded(Some(e), [], after)
      case Line(_, after) => Decoded(None, [], after)
    else if !room then Decoded(Some(ClosedMidChunk), [], rest)
    else if |rest| < size then Decoded(Some(ClosedMidChunk), rest, [])
    else AfterData(rest[..size], LineFrom([], rest[size..]), room)
  }

  /** The line after a chunk must be empty (or a lone carriage return at the end of input). */
  function AfterData(data: seq<byte>, trailer: LineRead, room: bool): Decoded
    decreases |trailer.rest|, 1
  {
    match trailer
    case NoLine(e, rest) => Decoded(Some(e), data, rest)
    case Line(text, rest) =>
      if text != [] && text != [CR] then Decoded(Some(ExpectedChunkCrlf), data, rest)
      else Extend(data, DecodeChunked(rest, room))
  }

  function Extend(written: seq<byte>, d: Decoded): Decoded {
    Decoded(d.error, written + d.out, d.rest)
  }

  lemma {:induction false} ExtendTwice(a: seq<byte>, b: seq<byte>, d: Decoded)
    ensures Extend(a, Extend(b, d)) == Extend(a + b, d)
  {
    assert a + (b + d.out) == a + b + d.out;
  }

  /** Copies exactly `size` bytes, in as many reads as the source needs. */
  method CopyData(reader: Reader, out: Sink, size: nat, bufLen: nat) returns (r: Result<nat, BodyError>)
    modifies reader, out
    ensures r.Ok? ==> r.value == size <= |old(reader.remaining)| && (size == 0 || bufLen > 0)
    ensures r.Ok? ==> out.bytes == old(out.bytes) + old(reader.remaining)[..size]
    ensures r.Ok? ==> reader.remaining == old(reader.remaining)[size..]
    ensures r == Err(ClosedMidChunk) ==> size > 0 && (bufLen == 0 || |old(reader.remaining)| < size)
    ensures r == Err(ClosedMidChunk) && bufLen == 0 ==>
              out.bytes == old(out.bytes) && reader.remaining == old(reader.remaining)
    ensures r == Err(ClosedMidChunk) && bufLen > 0 ==>
              out.bytes == old(out.bytes) + old(reader.remaining) && reader.remaining == []
    ensures r.Err? ==> r.error == ClosedMidChunk || r.error == Io
    ensures r == Err(Io) ==> old(out.bytes) <= out.bytes <= old(out.bytes) + Take(old(reader.remaining), size)
    ensures r == Err(Io) && bufLen == 0 ==> out.bytes == old(out.bytes)
    ensures reader.Reliable() && (bufLen == 0 || |old(out.bytes)| + |Take(old(reader.remaining), size)| <= out.capacity)
            ==> r != Err(Io)
  {
    var remaining := size;
    var total := 0;
    ghost var input := reader.remaining;
    ghost var before := out.bytes;
    while remaining > 0
      invariant 0 <= total <= |input| && 0 <= remaining && total + remaining == size
      invariant reader.remaining == input[total..]
      invariant out.bytes == before + input[..total]
      invariant bufLen == 0 ==> total == 0
    {
      var room := if bufLen < remaining then bufLen else remaining;
      var got := reader.Read(room);
      if got.Err? {
        return Err(got.error);
      }
      if got.value == [] {
        return Err(ClosedMidChunk);
      }
      assert input[..total + |got.value|] == input[..total] + got.value;
      ghost var sofar := out.bytes;
      var ok := out.WriteAll(got.value);
      if !ok {
        PrefixWithin(before, out.bytes, input[..total] + got.value, Take(input, size));
        return Err(Io);
      }
      remaining := remaining - |got.value|;
      total := total + |got.value|;
    }
    return Ok(total);
  }

  function Take(s: seq<byte>, n: nat): seq<byte> {
    if n < |s| then s[..n] else s
  }

  lemma {:induction false} ChunkOutput(size: nat, rest: seq<byte>, room: bool)
    requires size > 0 && room
    ensures Take(rest, size) <= AfterSize(size, rest, room).out
  {
    hide LineFrom, DecodeChunked;
  }

  /** Nothing but a prefix of the decoded body has been written when a read or write fails. */
  ghost predicate PartialCopy(before: seq<byte>, now: seq<byte>, whole: Decoded) {
    before <= now <= before + whole.out
  }

  /**
   Reads a chunked body. Unless the source or the sink fails, output, position and verdict are those
   of `DecodeChunked`, whatever the buffer size and however the source splits its deliveries.
   */
  method CopyChunked(reader: Reader, out: Sink, bufLen: nat) returns (r: Result<nat, BodyError>)
    modifies reader, out
    ensures var d := DecodeChunked(old(reader.remaining), bufLen > 0);
            if r == Err(Io) then PartialCopy(old(out.bytes), out.bytes, d)
            else
              && r == (if d.error.None? then Ok(|d.out|) else Err(d.error.value))
              && out.bytes == old(out.bytes) + d.out
              && reader.remaining == d.rest
    ensures reader.Reliable()
            && |old(out.bytes)| + |DecodeChunked(old(reader.remaining), bufLen > 0).out| <= out.capacity
            ==> r != Err(Io)
  {
    hide LineFrom, Trim, BeforeSemicolon, ParseUsizeHex, Take;
    ghost var room := bufLen > 0;
    ghost var whole := DecodeChunked(reader.remaining, room);
    ghost var before := out.bytes;
    ghost var written: seq<byte> := [];
    var total := 0;
    while true
      invariant total == |written|
      invariant out.bytes == before + written
      invariant whole == Extend(written, DecodeChunked(reader.remaining, room))
      decreases |reader.remaining|
    {
      var sizeLine := ReadLine(reader);
      if sizeLine.Err? {
        return Err(sizeLine.error);
      }
      if Trim(sizeLine.value) == [] {
        continue;
      }
      var size := ParseUsizeHex(Trim(BeforeSemicolon(Trim(sizeLine.value))));
      if size.None? {
        return Err(InvalidChunkSize);
      }
      if size.value == 0 {
        var ignored := ReadLine(reader);
        if ignored.Err? {
          return Err(ignored.error);
        }
        break;
      }
      var chunk := CopyOneChunk(reader, out, size.value, bufLen, before, written);
      if chunk.Err? {
        return Err(chunk.error);
      }
      total := total + size.value;
      written := out.bytes[|before|..];
    }
    return Ok(total);
  }

  /** The data of one chunk and the line end that must follow it. */
  method CopyOneChunk(
    reader: Reader, out: Sink, size: nat, bufLen: nat, ghost before: seq<byte>, ghost written: seq<byte>)
    returns (r: Result<nat, BodyError>)
    requires size > 0 && out.bytes == before + written
    modifies reader, out
    ensures var d := AfterSize(size, old(reader.remaining), bufLen > 0);
            if r == Err(Io) then PartialCopy(before, out.bytes, Extend(written, d))
            else if r.Err? then
              d.error == Some(r.error) && out.bytes == before + (written + d.out) && reader.remaining == d.rest
            else
              && |reader.remaining| < |old(reader.remaining)|
              && size <= |old(reader.remaining)|
              && out.bytes == before + (written + old(reader.remaining)[..size])
              && Extend(written, d)
                 == Extend(written + old(reader.remaining)[..size], DecodeChunked(reader.remaining, bufLen > 0))
    ensures reader.Reliable()
            && |before| + |written| + |AfterSize(size, old(reader.remaining), bufLen > 0).out| <= out.capacity
            ==> r != Err(Io)
  {
    hide LineFrom;
    ghost var rest := reader.remaining;
    ghost var d := AfterSize(size, rest, bufLen > 0);
    if bufLen > 0 {
      ChunkOutput(size, rest, true);
    }
    var copied := CopyData(reader, out, size, bufLen);
    if copied.Err? {
      assert before + written + d.out == before + (written + d.out);
      return Err(copied.error);
    }
    ghost var data := rest[..size];
    assert before + written + data == before + (written + data);
    var trailer := ReadLine(reader);
    if trailer.Err? {
      return Err(trailer.error);
    }
    if trailer.value != [] && trailer.value != [CR] {
      return Err(ExpectedChunkCrlf);
    }
    ExtendTwice(written, data, DecodeChunked(reader.remaining, bufLen > 0));
    return Ok(size);
  }

  // ---- Fixed-length and close-delimited bodies --------------------------------------------

  /** Copies exactly `len` bytes; a shorter source is an error after everything it had was copied. */
  method CopyFixed(reader: Reader, out: Sink, len: nat, bufLen: nat) returns (r: Result<nat, BodyError>)
    modifies reader, out
    ensures r.Ok? ==> r.value == len <= |old(reader.remaining)|
    ensures r.Ok? ==> out.bytes == old(out.bytes) + old(reader.remaining)[..len]
    ensures r.Ok? ==> reader.remaining == old(reader.remaining)[len..]
    ensures r == Err(ClosedEarly) ==> len > 0 && (bufLen == 0 || |old(reader.remaining)| < len)
    ensures r == Err(ClosedEarly) && bufLen > 0 ==> out.bytes == old(out.bytes) + old(reader.remaining)
    ensures r.Err? ==> r.error == ClosedEarly || r.error == Io
    ensures r == Err(Io) ==> old(out.bytes) <= out.bytes <= old(out.bytes) + Take(old(reader.remaining), len)
    ensures reader.Reliable() && (bufLen == 0 || |old(out.bytes)| + |Take(old(reader.remaining), len)| <= out.capacity)
            ==> r != Err(Io)
  {
    r := CopyData(reader, out, len, bufLen);
    if r == Err(ClosedMidChunk) {
      r := Err(ClosedEarly);
    }
  }

  /** Copies everything up to the end of the source (with no buffer room, nothing). */
  method CopyUntilEof(reader: Reader, out: Sink, bufLen: nat) returns (r: Result<nat, BodyError>)
    modifies reader, out
    ensures bufLen > 0 && r.Ok? ==> r.value == |old(reader.remaining)| && reader.remaining == []
    ensures bufLen > 0 && r.Ok? ==> out.bytes == old(out.bytes) + old(reader.remaining)
    ensures bufLen == 0 && r.Ok?
            ==> r.value == 0 && out.bytes == old(out.bytes) && reader.remaining == old(reader.remaining)
    ensures r.Err? ==> r.error == Io && old(out.bytes) <= out.bytes <= old(out.bytes) + old(reader.remaining)
    ensures reader.Reliable() && |old(out.bytes)| + |old(reader.remaining)| <= out.capacity ==> r.Ok?
  {
    var total := 0;
    ghost var input := reader.remaining;
    ghost var before := out.bytes;
    while true
      invariant 0 <= total <= |input| && (bufLen == 0 ==> total == 0)
      invariant reader.remaining == input[total..]
      invariant out.bytes == before + input[..total]
      decreases |reader.remaining|
    {
      var got := reader.Read(bufLen);
      if got.Err? {
        return Err(Io);
      }
      if got.value == [] {
        break;
      }
      assert input[..total + |got.value|] == input[..total] + got.value;
      var ok := out.WriteAll(got.value);
      if !ok {
        PrefixWithin(before, out.bytes, input[..total] + got.value, input);
        return Err(Io);
      }
      total := total + |got.value|;
    }
    return Ok(total);
  }

  // ---- Round trip ------------------------------------------------------------------------

  lemma {:induction false} HexRoundTrip(n: nat)
    ensures HexDigits(ToHex(n)) == Some(n)
    ensures forall i :: 0 <= i < |ToHex(n)| ==> 48 <= ToHex(n)[i] <= 57 || 97 <= ToHex(n)[i] <= 102
  {
    if n >= 16 {
      var high := ToHex(n / 16);
      HexRoundTrip(n / 16);
      assert (high + [HexDigit(n % 16)])[..|high|] == high;
    } else {
      assert [HexDigit(n)][..0] == [];
    }
  }

  function Power16(n: nat): nat {
    if n == 0 then 1 else 16 * Power16(n - 1)
  }

  lemma {:induction false} HexLength(n: nat, k: nat)
    requires k > 0 && n < Power16(k)
    ensures |ToHex(n)| <= k
  {
    if n >= 16 {
      assert k > 1 by { assert Power16(1) == 16 * Power16(0); }
      HexLength(n / 16, k - 1);
    }
  }

  lemma WordFitsSixteenDigits()
    ensures Power16(16) == USIZE_LIMIT
  {
    assert Power16(4) == 16 * 16 * 16 * 16;
    assert Power16(8) == Power16(4) * 65536;
    assert Power16(12) == Power16(8) * 65536;
  }

  /** A line without carriage returns is read back whole. */
  lemma {:induction false} PlainLine(line: seq<byte>, text: seq<byte>, rest: seq<byte>)
    requires forall i :: 0 <= i < |line + text| ==> (line + text)[i] != CR
    requires |line + text| < MAX_LINE
    ensures LineFrom(line, text + CRLF + rest) == LineText(line + text, rest)
    decreases |text|
  {
    hide LineText, LineFrom;
    if text == [] {
      assert line + text == line && [] + CRLF + rest == CRLF + rest;
      PlainLineEnds(line, rest);
    } else {
      var longer := line + [text[0]];
      assert longer + text[1..] == line + text;
      PlainLine(longer, text[1..], rest);
      assert (line + text)[|line|] == text[0];
      assert forall i :: 0 <= i < |line| ==> line[i] == (line + text)[i];
      PlainByte(line, text[0], text[1..] + CRLF + rest);
      assert [text[0]] + (text[1..] + CRLF + rest) == text + CRLF + rest;
    }
  }

  lemma {:induction false} PlainByte(line: seq<byte>, b: byte, more: seq<byte>)
    requires b != CR && |line| < MAX_LINE && forall i :: 0 <= i < |line| ==> line[i] != CR
    ensures LineFrom(line, [b] + more) == LineFrom(line + [b], more)
  {
    hide LineText, LineFrom;
    var input, longer := [b] + more, line + [b];
    LineStep(line, input);
    assert input[0] == b && input[1..] == more;
    assert |longer| >= 2 ==> longer[|longer| - 2..][0] == line[|line| - 1];
  }

  lemma {:induction false} PlainLineEnds(line: seq<byte>, rest: seq<byte>)
    requires |line| < MAX_LINE && forall i :: 0 <= i < |line| ==> line[i] != CR
    ensures LineFrom(line, CRLF + rest) == LineText(line, rest)
  {
    hide LineText, LineFrom;
    var input, withCr := CRLF + rest, line + [CR];
    LineStep(line, input);
    assert input[0] == CR && input[1..] == [LF] + rest;
    assert |withCr| >= 2 ==> withCr[|withCr| - 2..][1] == CR;
    LineEnds(line, rest);
  }

  lemma {:induction false} LineEnds(line: seq<byte>, rest: seq<byte>)
    ensures LineFrom(line + [CR], [LF] + rest) == LineText(line, rest)
  {
    hide LineText;
    var whole := line + [CR] + [LF];
    assert whole[|whole| - 2..] == CRLF && whole[..|whole| - 2] == line;
    assert ([LF] + rest)[1..] == rest;
  }

  lemma {:induction false} AsciiIsText(s: seq<byte>)
    requires forall i :: 0 <= i < |s| ==> s[i] < 0x80
    ensures FromUtf8(s) == Valid
  {
    if s != [] {
      AsciiIsText(s[1..]);
    }
  }

  lemma {:induction false} NoSemicolon(s: seq<byte>)
    requires 59 !in s
    ensures BeforeSemicolon(s) == s
  {
    if s != [] {
      NoSemicolon(s[1..]);
    }
  }

  /** The size line of a chunk parses back to the size. */
  lemma {:induction false} SizeLineParses(n: nat)
    requires n < USIZE_LIMIT
    ensures Trim(ToHex(n)) == ToHex(n)
    ensures ParseUsizeHex(Trim(BeforeSemicolon(ToHex(n)))) == Some(n)
  {
    var s := ToHex(n);
    HexRoundTrip(n);
    hide ToHex, HexDigits;
    assert TrimStart(s) == s;
    assert SpaceBefore(s) == 0;
    NoSemicolon(s);
  }

  lemma {:induction false} ChunkLine(text: seq<byte>, rest: seq<byte>)
    requires |text| <= 16 && forall i :: 0 <= i < |text| ==> 48 <= text[i] <= 57 || 97 <= text[i] <= 102
    ensures LineFrom([], text + CRLF + rest) == Line(text, rest)
  {
    hide LineFrom, FromUtf8;
    assert [] + text == text;
    PlainLine([], text, rest);
    AsciiIsText(text);
  }

  lemma {:induction false} SizeLine(data: seq<byte>, rest: seq<byte>)
    requires 0 < |data| < USIZE_LIMIT
    ensures LineFrom([], ToHex(|data|) + CRLF + rest) == Line(ToHex(|data|), rest)
  {
    hide LineFrom, ToHex, Power16;
    WordFitsSixteenDigits();
    HexLength(|data|, 16);
    HexRoundTrip(|data|);
    ChunkLine(ToHex(|data|), rest);
  }

  lemma {:induction false} DataThenLineEnd(data: seq<byte>, more: seq<byte>)
    requires data != []
    ensures AfterSize(|data|, data + CRLF + more, true) == Extend(data, DecodeChunked(more, true))
  {
    hide LineFrom, DecodeChunked;
    var rest := data + CRLF + more;
    assert rest[..|data|] == data && rest[|data|..] == [] + CRLF + more;
    ChunkLine([], more);
  }

  lemma {:induction false} ReadSized(input: seq<byte>, line: seq<byte>, rest: seq<byte>, size: nat)
    requires LineFrom([], input) == Line(line, rest) && line != [] && Trim(line) == line
    requires ParseUsizeHex(Trim(BeforeSemicolon(line))) == Some(size)
    ensures DecodeChunked(input, true) == AfterSize(size, rest, true)
  {
    hide LineFrom, Trim, BeforeSemicolon, ParseUsizeHex, AfterSize;
  }

  lemma {:induction false} DecodeOneChunk(data: seq<byte>, more: seq<byte>)
    requires 0 < |data| < USIZE_LIMIT
    ensures DecodeChunked(EncodeChunk(data) + more, true) == Extend(data, DecodeChunked(more, true))
  {
    var size := ToHex(|data|);
    var rest := data + CRLF + more;
    assert EncodeChunk(data) + more == size + CRLF + rest by { hide ToHex; }
    hide *;
    SizeLineParses(|data|);
    SizeLine(data, rest);
    ReadSized(size + CRLF + rest, size, rest, |data|);
    DataThenLineEnd(data, more);
  }

  // ---- Trimming is trimming white space ------------------------------------------------------

  lemma {:induction false} SpaceAtHead(c: int, rest: seq<byte>)
    requires IsScalar(c)
    ensures SpaceAt(EncodeScalar(c) + rest) == if IsWhiteSpace(c) then |EncodeScalar(c)| else 0
  {
    var enc := EncodeScalar(c);
    var s := enc + rest;
    assert forall i :: 0 <= i < |enc| ==> s[i] == enc[i];
    if 0x800 <= c < 0x10000 {
      ThreeBytes(c);
    }
  }

  lemma {:induction false} ThreeBytes(c: int)
    requires 0x800 <= c < 0x10000
    ensures IsWideSpace(0xE0 + c / 4096, 0x80 + c / 64 % 64, 0x80 + c % 64) <==> IsWhiteSpace(c)
  {
    var h, m, l := c / 4096, c / 64 % 64, c % 64;
    assert c == h * 4096 + m * 64 + l;
  }

  /** The end of a text by the bytes of its last character: only these can be white space. */
  lemma {:induction false} TailBytes(s: seq<byte>, width: nat)
    requires 1 <= width <= 4 && width <= |s|
    requires width == 1 ==> s[|s| - 1] < 0x80
    requires width > 1 ==> Continuation(s[|s| - 1]) && s[|s| - width] >= 0xC2
    requires width > 2 ==> Continuation(s[|s| - 2])
    requires width > 3 ==> Continuation(s[|s| - 3])
    ensures SpaceBefore(s) ==
            if width == 1 && IsAsciiSpace(s[|s| - 1]) then 1
            else if width == 2 && IsNarrowSpace(s[|s| - 2], s[|s| - 1]) then 2
            else if width == 3 && IsWideSpace(s[|s| - 3], s[|s| - 2], s[|s| - 1]) then 3
            else 0
  {
  }

  lemma {:induction false} SpaceAtTail(before: seq<byte>, c: int)
    requires IsScalar(c)
    ensures SpaceBefore(before + EncodeScalar(c)) == if IsWhiteSpace(c) then |EncodeScalar(c)| else 0
  {
    hide SpaceBefore, IsWideSpace;
    var enc := EncodeScalar(c);
    var s := before + enc;
    assert forall i :: 0 <= i < |enc| ==> s[|before| + i] == enc[i];
    TailBytes(s, |enc|);
    if 0x800 <= c < 0x10000 {
      ThreeBytes(c);
    } else if 0x80 <= c < 0x800 {
      assert c == c / 64 * 64 + c % 64;
    }
  }

  lemma {:induction false} EncodeSnoc(cs: seq<int>, c: int)
    requires AllScalars(cs) && IsScalar(c)
    ensures AllScalars(cs + [c]) && EncodeText(cs + [c]) == EncodeText(cs) + EncodeScalar(c)
  {
    hide EncodeScalar, IsScalar;
    if cs == [] {
      assert [] + [c] == [c] && [c][1..] == [];
    } else {
      EncodeSnoc(cs[1..], c);
      assert (cs + [c])[1..] == cs[1..] + [c];
    }
  }

  lemma {:induction false} TrimsStart(cs: seq<int>) returns (i: nat)
    requires AllScalars(cs)
    ensures i <= |cs| && (forall k :: 0 <= k < i ==> IsWhiteSpace(cs[k])) && (i < |cs| ==> !IsWhiteSpace(cs[i]))
    ensures TrimStart(EncodeText(cs)) == EncodeText(cs[i..])
  {
    hide EncodeScalar, IsScalar, IsWhiteSpace, SpaceAt;
    if cs == [] {
      i := 0;
      assert SpaceAt([]) == 0 by {
        NoSpace();
      }
    } else {
      SpaceAtHead(cs[0], EncodeText(cs[1..]));
      if IsWhiteSpace(cs[0]) {
        var j := TrimsStart(cs[1..]);
        i := j + 1;
        assert EncodeText(cs)[|EncodeScalar(cs[0])|..] == EncodeText(cs[1..]);
        assert cs[1..][j..] == cs[i..];
      } else {
        i := 0;
        assert cs[0..] == cs;
      }
    }
  }

  lemma {:induction false} NoSpace()
    ensures SpaceAt([]) == 0 && SpaceBefore([]) == 0
  {
  }

  lemma {:induction false} TrimsEnd(cs: seq<int>) returns (j: nat)
    requires AllScalars(cs)
    ensures j <= |cs| && (forall k :: j <= k < |cs| ==> IsWhiteSpace(cs[k])) && (0 < j ==> !IsWhiteSpace(cs[j - 1]))
    ensures TrimEnd(EncodeText(cs)) == EncodeText(cs[..j])
  {
    hide EncodeScalar, IsScalar, IsWhiteSpace, SpaceBefore;
    if cs == [] {
      j := 0;
      NoSpace();
    } else {
      var n := |cs| - 1;
      assert cs == cs[..n] + [cs[n]];
      EncodeSnoc(cs[..n], cs[n]);
      SpaceAtTail(EncodeText(cs[..n]), cs[n]);
      if IsWhiteSpace(cs[n]) {
        j := TrimsEnd(cs[..n]);
        var s := EncodeText(cs);
        assert s[..|s| - |EncodeScalar(cs[n])|] == EncodeText(cs[..n]);
        assert cs[..n][..j] == cs[..j];
      } else {
        j := |cs|;
        assert cs[..j] == cs;
      }
    }
  }

  /** Trimming a text takes away the white space at both ends, as Unicode defines it, and nothing else. */
  lemma {:induction false} TrimsWhiteSpace(cs: seq<int>) returns (i: nat, j: nat)
    requires AllScalars(cs)
    ensures i <= j <= |cs| && Trim(EncodeText(cs)) == EncodeText(cs[i..j])
    ensures forall k :: 0 <= k < i || j <= k < |cs| ==> IsWhiteSpace(cs[k])
    ensures i < j ==> !IsWhiteSpace(cs[i]) && !IsWhiteSpace(cs[j - 1])
  {
    hide TrimStart, TrimEnd, EncodeText, IsScalar, IsWhiteSpace;
    i := TrimsStart(cs);
    var n := TrimsEnd(cs[i..]);
    j := i + n;
    assert cs[i..][..n] == cs[i..j];
  }

  // ---- Size lines another writer may send --------------------------------------------------

  /** The same hexadecimal digits, each letter in either case. */
  predicate SameHex(lower: seq<byte>, s: seq<byte>) {
    |s| == |lower| && forall i :: 0 <= i < |s| ==> s[i] == lower[i] || (97 <= lower[i] <= 102 && s[i] == lower[i] - 32)
  }

  function Repeated(b: byte, n: nat): (s: seq<byte>)
    ensures |s| == n && forall i :: 0 <= i < n ==> s[i] == b
  {
    seq(n, _ => b)
  }

  lemma {:induction false} EitherCase(n: nat, s: seq<byte>)
    requires SameHex(ToHex(n), s)
    ensures HexDigits(s) == Some(n)
  {
    var lower := ToHex(n);
    var k := |s| - 1;
    if n >= 16 {
      assert lower[..k] == ToHex(n / 16);
      EitherCase(n / 16, s[..k]);
    } else {
      assert s[..k] == [];
    }
  }

  lemma {:induction false} LeadingZeros(z: nat, s: seq<byte>)
    requires HexDigits(s).Some?
    ensures HexDigits(Repeated(48, z) + s) == HexDigits(s)
  {
    var all := Repeated(48, z) + s;
    if s != [] {
      assert all[..|all| - 1] == Repeated(48, z) + s[..|s| - 1];
      LeadingZeros(z, s[..|s| - 1]);
    } else if z > 0 {
      assert all[..z - 1] == Repeated(48, z - 1) + [];
      LeadingZeros(z - 1, []);
    } else {
      assert all == [];
    }
  }

  lemma {:induction false} UpToSemicolon(s: seq<byte>, extension: seq<byte>)
    requires 59 !in s && (extension == [] || extension[0] == 59)
    ensures BeforeSemicolon(s + extension) == s
  {
    if s == [] {
      assert s + extension == extension;
    } else {
      assert (s + extension)[1..] == s[1..] + extension;
      UpToSemicolon(s[1..], extension);
    }
  }

  predicate IsPlain(b: byte) {
    32 < b < 128
  }

  lemma {:induction false} TrailingSpaces(s: seq<byte>, k: nat)
    requires s != [] && IsPlain(s[0]) && IsPlain(s[|s| - 1])
    ensures Trim(s + Repeated(32, k)) == s
  {
    var all := s + Repeated(32, k);
    assert TrimStart(all) == all;
    SpacesAtEnd(s, k);
  }

  lemma {:induction false} SpacesAtEnd(s: seq<byte>, k: nat)
    requires s != [] && IsPlain(s[|s| - 1])
    ensures TrimEnd(s + Repeated(32, k)) == s
  {
    var all := s + Repeated(32, k);
    hide SpaceAt;
    if k == 0 {
      assert all == s;
      PlainEnd(s);
    } else {
      OneSpaceLess(all);
      assert all[..|all| - 1] == s + Repeated(32, k - 1);
      SpacesAtEnd(s, k - 1);
    }
  }

  lemma {:induction false} PlainEnd(s: seq<byte>)
    requires s != [] && IsPlain(s[|s| - 1])
    ensures TrimEnd(s) == s
  {
    hide TrimEnd;
    TrimEndStep(s);
  }

  lemma {:induction false} OneSpaceLess(s: seq<byte>)
    requires s != [] && s[|s| - 1] == 32
    ensures TrimEnd(s) == TrimEnd(s[..|s| - 1])
  {
    hide TrimEnd;
    TrimEndStep(s);
  }

  lemma {:induction false} TrimEndStep(s: seq<byte>)
    ensures TrimEnd(s) == if SpaceBefore(s) == 0 then s else TrimEnd(s[..|s| - SpaceBefore(s)])
  {
    hide SpaceBefore;
  }

  /** What may follow the digits on a size line: nothing, or a semicolon and visible text ending in no space. */
  predicate IsExtension(extension: seq<byte>) {
    extension == []
    || (&& extension[0] == 59 && IsPlain(extension[|extension| - 1])
        && forall i :: 0 <= i < |extension| ==> IsPlain(extension[i]) || extension[i] == 32)
  }

  function SpelledSize(zeros: nat, digits: seq<byte>, spaces: nat, extension: seq<byte>): seq<byte> {
    Repeated(48, zeros) + digits + if extension == [] then [] else Repeated(32, spaces) + extension
  }

  lemma {:induction false} HexIsPlain(n: nat, digits: seq<byte>)
    requires SameHex(ToHex(n), digits)
    ensures digits != [] && 59 !in digits && 43 !in digits && forall i :: 0 <= i < |digits| ==> IsPlain(digits[i])
  {
    HexRoundTrip(n);
    hide ToHex, HexDigits;
  }

  /** Hexadecimal digits, leading zeros and a plus sign included, are read as their number if it fits 64 bits. */
  lemma {:induction false} SizeNumber(n: nat, zeros: nat, digits: seq<byte>)
    requires SameHex(ToHex(n), digits)
    ensures var number := Repeated(48, zeros) + digits;
            ParseUsizeHex(number) == ParseUsizeHex([43] + number)
            == if n < 0x1_0000_0000_0000_0000 then Some(n) else None
  {
    hide ToHex, HexDigits;
    var number := Repeated(48, zeros) + digits;
    HexIsPlain(n, digits);
    EitherCase(n, digits);
    LeadingZeros(zeros, digits);
    assert number[0] == if zeros > 0 then 48 else digits[0];
    assert ([43] + number)[1..] == number;
  }

  /** However a size is spelled, the line says that size. */
  lemma {:induction false} SpelledSizeParses(n: nat, zeros: nat, digits: seq<byte>, spaces: nat, extension: seq<byte>)
    requires n < USIZE_LIMIT && SameHex(ToHex(n), digits) && IsExtension(extension)
    ensures var line := SpelledSize(zeros, digits, spaces, extension);
            line != [] && Trim(line) == line && ParseUsizeHex(Trim(BeforeSemicolon(line))) == Some(n)
  {
    hide ToHex, HexDigits, Trim, BeforeSemicolon;
    var line, number := SpelledSize(zeros, digits, spaces, extension), Repeated(48, zeros) + digits;
    HexIsPlain(n, digits);
    EitherCase(n, digits);
    LeadingZeros(zeros, digits);
    assert forall i :: 0 <= i < |number| ==> number[i] == 48 || number[i] in digits;
    assert line[0] == number[0] && line[|line| - 1] == (number + extension)[|number + extension| - 1];
    assert line + Repeated(32, 0) == line && number + Repeated(32, 0) == number;
    TrailingSpaces(line, 0);
    if extension == [] {
      UpToSemicolon(number, []);
      assert number + [] == line;
      TrailingSpaces(number, 0);
    } else {
      UpToSemicolon(number + Repeated(32, spaces), extension);
      assert line == number + Repeated(32, spaces) + extension;
      TrailingSpaces(number, spaces);
    }
  }

  lemma {:induction false} SpelledLine(
    n: nat, zeros: nat, digits: seq<byte>, spaces: nat, extension: seq<byte>, rest: seq<byte>)
    requires SameHex(ToHex(n), digits) && IsExtension(extension)
    requires |SpelledSize(zeros, digits, spaces, extension)| < MAX_LINE
    ensures var line := SpelledSize(zeros, digits, spaces, extension);
            LineFrom([], line + CRLF + rest) == Line(line, rest)
  {
    hide ToHex, LineFrom, FromUtf8;
    HexIsPlain(n, digits);
    var line := SpelledSize(zeros, digits, spaces, extension);
    assert forall i :: 0 <= i < |line| ==> IsPlain(line[i]) || line[i] == 32;
    assert [] + line == line;
    PlainLine([], line, rest);
    AsciiIsText(line);
  }

  /**
   A chunk decodes to its data however its size is written: leading zeros, letters in either case, spaces and an
   extension after a semicolon.
   */
  lemma {:induction false} AnySpellingDecodes(
    data: seq<byte>, zeros: nat, digits: seq<byte>, spaces: nat, extension: seq<byte>, more: seq<byte>)
    requires 0 < |data| < USIZE_LIMIT && SameHex(ToHex(|data|), digits) && IsExtension(extension)
    requires |SpelledSize(zeros, digits, spaces, extension)| < MAX_LINE
    ensures var line := SpelledSize(zeros, digits, spaces, extension);
            DecodeChunked(line + CRLF + (data + CRLF + more), true) == Extend(data, DecodeChunked(more, true))
  {
    hide *;
    var line, rest := SpelledSize(zeros, digits, spaces, extension), data + CRLF + more;
    SpelledSizeParses(|data|, zeros, digits, spaces, extension);
    SpelledLine(|data|, zeros, digits, spaces, extension, rest);
    ReadSized(line + CRLF + rest, line, rest, |data|);
    DataThenLineEnd(data, more);
  }

  predicate IsHexDigit(b: byte) {
    '0' <= b as char <= '9' || 'a' <= b as char <= 'f' || 'A' <= b as char <= 'F'
  }

  /** A size without digits, or with anything else than digits after an optional plus sign, is refused. */
  lemma {:induction false} BadDigitRefused(s: seq<byte>, i: nat)
    requires i < |s| && !IsHexDigit(s[i]) && (i == 0 ==> s[0] != 43)
    ensures ParseUsizeHex(s) == None && ParseUsizeHex([]) == None && ParseUsizeHex([43]) == None
  {
    assert HexDigits([43]) == None;
    if |s| >= 2 && s[0] == 43 {
      NoHexNumber(s[1..], i - 1);
    } else {
      NoHexNumber(s, i);
    }
  }

  lemma {:induction false} NoHexNumber(s: seq<byte>, i: nat)
    requires i < |s| && !IsHexDigit(s[i])
    ensures HexDigits(s) == None
  {
    if i < |s| - 1 {
      NoHexNumber(s[..|s| - 1], i);
    }
  }

  lemma {:induction false} DecodeLastChunk(tail: seq<byte>)
    ensures DecodeChunked(LAST_CHUNK + tail, true) == Decoded(None, [], tail)
  {
    hide LineFrom, Trim, BeforeSemicolon, ParseUsizeHex, DecodeChunked;
    var rest := [] + CRLF + tail;
    assert LAST_CHUNK + tail == [48] + CRLF + rest;
    ChunkLine([48], rest);
    ChunkLine([], tail);
    assert ToHex(0) == [48];
    SizeLineParses(0);
    ReadSized(LAST_CHUNK + tail, [48], rest, 0);
  }

  predicate WritesFit(writes: seq<seq<byte>>) {
    forall i :: 0 <= i < |writes| ==> |writes[i]| < USIZE_LIMIT
  }

  /** Whatever was written comes out again, nothing more is consumed, and empty writes leave no trace. */
  lemma {:induction false} ChunkedRoundTrip(writes: seq<seq<byte>>, tail: seq<byte>)
    requires WritesFit(writes)
    ensures DecodeChunked(EncodeBody(writes) + tail, true) == Decoded(None, Concat(writes), tail)
  {
    hide DecodeChunked, EncodeChunk;
    if writes == [] {
      DecodeLastChunk(tail);
    } else {
      var more := EncodeBody(writes[1..]) + tail;
      ChunkedRoundTrip(writes[1..], tail);
      assert EncodeBody(writes) + tail == EncodeChunk(writes[0]) + more;
      if writes[0] == [] {
        EmptyWriteLeavesNoTrace(more);
      } else {
        DecodeOneChunk(writes[0], more);
      }
    }
  }

  lemma EmptyWriteLeavesNoTrace(more: seq<byte>)
    ensures EncodeChunk([]) + more == more
  {
  }

  /**
   End to end: write the pieces through the chunked writer, end the stream, then copy it back through a
   source that splits its deliveries in any way and a buffer of any positive size.
   */
  method WriteThenCopy(writes: seq<seq<byte>>, schedule: nat -> int, bufLen: nat)
    returns (r: Result<nat, BodyError>, body: seq<byte>)
    requires WritesFit(writes) && bufLen > 0 && forall k :: schedule(k) > 0
    ensures r == Ok(|Concat(writes)|) && body == Concat(writes)
  {
    hide DecodeChunked, EncodeChunk;
    var wire := new Sink(|EncodeBody(writes)|);
    var writer := new ChunkedWriter(wire);
    for i := 0 to |writes|
      invariant wire.bytes + EncodeBody(writes[i..]) == EncodeBody(writes)
    {
      ghost var sofar := wire.bytes;
      assert writes[i..][1..] == writes[i + 1..];
      assert sofar + (EncodeChunk(writes[i]) + EncodeBody(writes[i + 1..])) == EncodeBody(writes);
      var ok := writer.WriteChunk(writes[i]);
      assert sofar + EncodeChunk(writes[i]) + EncodeBody(writes[i + 1..]) == EncodeBody(writes);
    }
    assert writes[|writes|..] == [];
    var ok := writer.WriteStreamEnd();
    ChunkedRoundTrip(writes, []);
    assert EncodeBody(writes) + [] == EncodeBody(writes);
    var reader := new Reader(wire.bytes, schedule);
    var out := new Sink(|Concat(writes)|);
    r := CopyChunked(reader, out, bufLen);
    body := out.bytes;
  }
}
