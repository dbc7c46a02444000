/**
 The byte stream between the server and a slave process: frames of a size, a command and
 a payload, written through a non-blocking descriptor that may take any part of what it is
 offered, and read in whatever pieces arrive.
 */
module Framing {
  import opened Bytes
  import opened Lists

  const INT_LIMIT := 0x8000_0000
  const HEADER := 8

  /** A non-negative C int: a payload size. */
  type Int31 = n: int | 0 <= n < INT_LIMIT

  /** A payload whose size a C int can hold. */
  type Payload = p: seq<Byte> | |p| < INT_LIMIT

  datatype Msg = Msg(cmd: Word, payload: Payload)

  // ----- encoding -------------------------------------------------------------------

  function HeaderOf(size: Int31, cmd: Word): (b: seq<Byte>)
    ensures |b| == HEADER
  {
    WordBytes(size) + WordBytes(cmd)
  }

  function Frame(m: Msg): (b: seq<Byte>)
    ensures |b| == HEADER + |m.payload|
  {
    HeaderOf(|m.payload|, m.cmd) + m.payload
  }

  function Stream(ms: seq<Msg>): seq<Byte> {
    if ms == [] then [] else Stream(ms[..|ms| - 1]) + Frame(ms[|ms| - 1])
  }

  lemma StreamAppend(ms: seq<Msg>, m: Msg)
    ensures Stream(ms + [m]) == Stream(ms) + Frame(m)
  {
    assert (ms + [m])[..|ms + [m]| - 1] == ms;
  }

  lemma {:induction false} StreamFirst(ms: seq<Msg>)
    requires ms != []
    ensures Stream(ms) == Frame(ms[0]) + Stream(ms[1..])
  {
    var n := |ms| - 1;
    if n == 0 {
      assert ms[..0] == [] && ms[1..] == [];
      assert [] + Frame(ms[0]) == Frame(ms[0]) + [];
    } else {
      StreamFirst(ms[..n]);
      var front, back := ms[..n][1..], ms[1..];
      assert back == front + [ms[n]];
      StreamAppend(front, ms[n]);
      assert (Frame(ms[0]) + Stream(front)) + Frame(ms[n]) == Frame(ms[0]) + (Stream(front) + Frame(ms[n]));
    }
  }

  // ----- the writer -----------------------------------------------------------------

  /** `written` is everything the descriptor has taken so far. */
  datatype Writer = Writer(pending: Option<seq<Byte>>, written: seq<Byte>)

  /**
   How much of `size` bytes a loop of writes gets out: each write takes up to the next
   number in `accepts`; zero, or the end, is a write that would block.
   */
  function Taken(size: nat, accepts: seq<nat>): (n: nat)
    ensures n <= size
    decreases |accepts|
  {
    if size == 0 || accepts == [] || accepts[0] == 0 then 0
    else if size <= accepts[0] then size
    else accepts[0] + Taken(size - accepts[0], accepts[1..])
  }

  /** _slave_send_aux */
  function SendAux(w: Writer, data: seq<Byte>, accepts: seq<nat>): Writer {
    if w.pending.Some? then w.(pending := Some(w.pending.value + data))
    else
      var n := Taken(|data|, accepts);
      Writer(if n < |data| then Some(data[n..]) else None, w.written + data[..n])
  }

  /** _cserve2_slave_proc_send */
  function ProcSend(w: Writer, m: Msg, accepts: seq<nat>, more: seq<nat>): Writer
  {
    var w1 := SendAux(w, HeaderOf(|m.payload|, m.cmd), accepts);
    if m.payload == [] then w1 else SendAux(w1, m.payload, more)
  }

  /** _slave_write_cb, which is watched for only while something is pending */
  function WriteCb(w: Writer, accepts: seq<nat>): Writer
    requires w.pending.Some?
  {
    var p := w.pending.value;
    var n := Taken(|p|, accepts);
    Writer(if n == |p| then None else Some(p[n..]), w.written + p[..n])
  }

  /** Everything handed to the writer: what is out, then what waits. */
  function Given(w: Writer): seq<Byte> {
    w.written + if w.pending.Some? then w.pending.value else []
  }

  lemma SendAuxGiven(w: Writer, data: seq<Byte>, accepts: seq<nat>)
    ensures Given(SendAux(w, data, accepts)) == Given(w) + data
  {
    var n := Taken(|data|, accepts);
    assert data[..n] + data[n..] == data;
  }

  /** However the writes are cut short, a send adds exactly one frame behind everything sent. */
  lemma SendGiven(w: Writer, m: Msg, accepts: seq<nat>, more: seq<nat>)
    ensures Given(ProcSend(w, m, accepts, more)) == Given(w) + Frame(m)
  {
    var h := HeaderOf(|m.payload|, m.cmd);
    SendAuxGiven(w, h, accepts);
    SendAuxGiven(SendAux(w, h, accepts), m.payload, more);
    assert Given(w) + h + m.payload == Given(w) + Frame(m);
  }

  lemma WriteCbGiven(w: Writer, accepts: seq<nat>)
    requires w.pending.Some?
    ensures Given(WriteCb(w, accepts)) == Given(w)
    ensures w.written <= WriteCb(w, accepts).written
  {
    var p := w.pending.value;
    var n := Taken(|p|, accepts);
    assert p[..n] + p[n..] == p;
  }

  // ----- the reader -----------------------------------------------------------------

  /** The read fields of a slave: `buf` holds the part of the payload read so far. */
  datatype Reader = Reader(size: Int31, cmd: Word, buf: Option<seq<Byte>>, decoded: seq<Msg>)

  predicate ReaderOk(r: Reader) {
    if r.size == 0 then r.buf.None? else r.buf.Some? && |r.buf.value| < r.size
  }

  /** The part of a frame that has been read and not delivered. */
  function Partial(r: Reader): seq<Byte> {
    if r.buf.None? then [] else HeaderOf(r.size, r.cmd) + r.buf.value
  }

  predicate Consumed(r: Reader, bytes: seq<Byte>) {
    ReaderOk(r) && bytes == Stream(r.decoded) + Partial(r)
  }

  function Delivered(r: Reader, cmd: Word, payload: Payload): Reader {
    Reader(0, 0, None, r.decoded + [Msg(cmd, payload)])
  }

  /** A header read whole; a frame without payload is complete with it. */
  function TakeHeader(r: Reader, size: Int31, cmd: Word): Reader {
    if size == 0 then Delivered(r, cmd, []) else Reader(size, cmd, Some([]), r.decoded)
  }

  /** Some bytes of the payload. */
  function TakeBody(r: Reader, bytes: seq<Byte>): Reader
    requires r.buf.Some? && |r.buf.value| + |bytes| <= r.size
  {
    var buf := r.buf.value + bytes;
    if |buf| == r.size then Delivered(r, r.cmd, buf) else r.(buf := Some(buf))
  }

  /** A read of up to `want` bytes when `input` is in the pipe and the next piece is `chunk`. */
  function Piece(want: nat, input: seq<Byte>, chunk: nat): (n: nat)
    ensures n <= want && n <= |input|
  {
    if chunk <= want && chunk <= |input| then chunk else if want <= |input| then want else |input|
  }

  /** The loop of _slave_proc_read_cb: stops when the payload is complete or a read would block. */
  function ReadBody(r: Reader, input: seq<Byte>, chunks: seq<nat>): (res: (Reader, nat))
    requires ReaderOk(r)
    ensures res.1 <= |input| && ReaderOk(res.0)
    decreases |chunks|
  {
    if r.size == 0 || chunks == [] then (r, 0)
    else
      var n := Piece(r.size - |r.buf.value|, input, chunks[0]);
      if n == 0 then (r, 0)
      else
        var rest := ReadBody(TakeBody(r, input[..n]), input[n..], chunks[1..]);
        (rest.0, n + rest.1)
  }

  /** The next header is all there, and its size is not negative. */
  predicate HeaderThere(input: seq<Byte>) {
    HEADER <= |input| && BytesWord(input[..4]) < INT_LIMIT
  }

  /** _slave_proc_read_cb: the new read fields, and how many bytes were taken from the pipe. */
  function ReadCb(r: Reader, input: seq<Byte>, chunks: seq<nat>): (res: (Reader, nat))
    requires ReaderOk(r) && (r.size == 0 ==> |input| < HEADER || HeaderThere(input))
    ensures res.1 <= |input| && ReaderOk(res.0)
  {
    if r.size == 0 then
      if |input| < HEADER then (r, |input|)
      else
        var res := ReadBody(TakeHeader(r, BytesWord(input[..4]), BytesWord(input[4..8])), input[HEADER..], chunks);
        (res.0, HEADER + res.1)
    else ReadBody(r, input, chunks)
  }

  lemma HeaderRoundTrip(size: Int31, cmd: Word, rest: seq<Byte>)
    ensures var input := HeaderOf(size, cmd) + rest;
            HeaderThere(input) && BytesWord(input[..4]) == size && BytesWord(input[4..8]) == cmd
  {
    var input := HeaderOf(size, cmd) + rest;
    assert input[..4] == WordBytes(size) && input[4..8] == WordBytes(cmd);
    WordRoundTrip(size);
    WordRoundTrip(cmd);
  }

  lemma DeliveredConsumed(r: Reader, bytes: seq<Byte>, cmd: Word, payload: Payload)
    requires bytes == Stream(r.decoded)
    ensures Consumed(Delivered(r, cmd, payload), bytes + Frame(Msg(cmd, payload)))
  {
    StreamAppend(r.decoded, Msg(cmd, payload));
  }

  lemma TakeBodyConsumed(r: Reader, bytes: seq<Byte>, more: seq<Byte>)
    requires Consumed(r, bytes) && r.size != 0 && |r.buf.value| + |more| <= r.size
    ensures Consumed(TakeBody(r, more), bytes + more)
  {
    var buf := r.buf.value + more;
    assert bytes + more == Stream(r.decoded) + (HeaderOf(r.size, r.cmd) + buf);
    if |buf| == r.size {
      DeliveredConsumed(r, Stream(r.decoded), r.cmd, buf);
    }
  }

  lemma {:induction false} ReadBodyConsumed(r: Reader, bytes: seq<Byte>, input: seq<Byte>, chunks: seq<nat>)
    requires Consumed(r, bytes)
    ensures var res := ReadBody(r, input, chunks);
            Consumed(res.0, bytes + input[..res.1])
    decreases |chunks|
  {
    hide Consumed, TakeBody, Piece;
    Pieces(r, bytes);
    var res := ReadBody(r, input, chunks);
    assert bytes + input[..0] == bytes;
    if r.size != 0 && chunks != [] {
      var n := Piece(r.size - |r.buf.value|, input, chunks[0]);
      if n != 0 {
        TakeBodyConsumed(r, bytes, input[..n]);
        ReadBodyConsumed(TakeBody(r, input[..n]), bytes + input[..n], input[n..], chunks[1..]);
        assert bytes + input[..n] + input[n..][..res.1 - n] == bytes + input[..res.1];
      }
    }
  }

  lemma Pieces(r: Reader, bytes: seq<Byte>)
    requires Consumed(r, bytes)
    ensures ReaderOk(r)
  {}

  // ----- frames cannot be mistaken --------------------------------------------------

  lemma HeaderInjective(size: Int31, cmd: Word, x: seq<Byte>, size': Int31, cmd': Word, y: seq<Byte>)
    requires HeaderOf(size, cmd) + x <= HeaderOf(size', cmd') + y
    ensures size == size' && cmd == cmd' && x <= y
  {
    var a, b := HeaderOf(size, cmd) + x, HeaderOf(size', cmd') + y;
    assert a[..HEADER] == b[..HEADER];
    assert a[..4] == a[..HEADER][..4] == b[..4] && a[4..8] == a[..HEADER][4..] == b[4..8];
    HeaderRoundTrip(size, cmd, x);
    HeaderRoundTrip(size', cmd', y);
    assert x == a[HEADER..] && y == b[HEADER..];
  }

  lemma FrameInjective(m: Msg, x: seq<Byte>, m': Msg, y: seq<Byte>)
    requires Frame(m) + x <= Frame(m') + y
    ensures m == m' && x <= y
  {
    hide HeaderOf;
    var h, h' := HeaderOf(|m.payload|, m.cmd), HeaderOf(|m'.payload|, m'.cmd);
    assert Frame(m) + x == h + (m.payload + x) && Frame(m') + y == h' + (m'.payload + y);
    HeaderInjective(|m.payload|, m.cmd, m.payload + x, |m'.payload|, m'.cmd, m'.payload + y);
    var a, b, k := m.payload + x, m'.payload + y, |m.payload|;
    assert m.payload == a[..k] == b[..k] == m'.payload;
    assert x == a[k..] && y == b[k..];
  }

  /** A stream that starts another one is the stream of its first messages. */
  lemma {:induction false} StreamPrefix(ds: seq<Msg>, p: seq<Byte>, ms: seq<Msg>)
    requires Stream(ds) + p <= Stream(ms)
    ensures ds <= ms && p <= Stream(ms[|ds|..])
    ensures |Stream(ms)| == |Stream(ds)| + |Stream(ms[|ds|..])|
  {
    hide Frame;
    if ds == [] {
      assert [] + p == p && ms[0..] == ms;
    } else {
      StreamFirst(ds);
      StreamFirst(ms);
      assert Stream(ds) + p == Frame(ds[0]) + (Stream(ds[1..]) + p);
      FrameInjective(ds[0], Stream(ds[1..]) + p, ms[0], Stream(ms[1..]));
      StreamPrefix(ds[1..], p, ms[1..]);
      assert ds == [ds[0]] + ds[1..] && ms == [ms[0]] + ms[1..];
      assert ms[1..][|ds| - 1..] == ms[|ds|..];
    }
  }

  // ----- the two ends together ------------------------------------------------------

  /** One direction of the connection: `read` bytes have left the pipe. */
  datatype Link = Link(w: Writer, r: Reader, read: nat, sent: seq<Msg>)

  const NEW_LINK := Link(Writer(None, []), Reader(0, 0, None, []), 0, [])

  predicate Inv(l: Link) {
    && Given(l.w) == Stream(l.sent)
    && l.read <= |l.w.written|
    && Consumed(l.r, l.w.written[..l.read])
  }

  function InPipe(l: Link): seq<Byte>
    requires l.read <= |l.w.written|
  {
    l.w.written[l.read..]
  }

  lemma Pipe(l: Link)
    requires Inv(l)
    ensures Stream(l.r.decoded) + (Partial(l.r) + InPipe(l)) <= Stream(l.sent)
    ensures Stream(l.r.decoded) + (Partial(l.r) + InPipe(l)) == l.w.written
  {
    assert l.w.written == l.w.written[..l.read] + InPipe(l);
    assert Stream(l.r.decoded) + (Partial(l.r) + InPipe(l)) == l.w.written[..l.read] + InPipe(l);
  }

  predicate Heads(input: seq<Byte>, m: Msg) {
    HeaderThere(input) && BytesWord(input[..4]) == |m.payload| && BytesWord(input[4..8]) == m.cmd
  }

  lemma HeaderAhead(input: seq<Byte>, ms: seq<Msg>)
    requires HEADER <= |input| && input <= Stream(ms)
    ensures ms != [] && Heads(input, ms[0]) && input[..HEADER] == HeaderOf(|ms[0].payload|, ms[0].cmd)
  {
    hide HeaderOf;
    StreamFirst(ms);
    var m := ms[0];
    var h := HeaderOf(|m.payload|, m.cmd);
    assert Stream(ms) == h + (m.payload + Stream(ms[1..]));
    assert input[..HEADER] == h && input == h + input[HEADER..];
    HeaderRoundTrip(|m.payload|, m.cmd, input[HEADER..]);
  }

  /** Between frames, what is in the pipe starts with the header of the next message sent. */
  lemma NextHeader(l: Link)
    requires Inv(l)
    ensures ReaderOk(l.r) && l.r.decoded <= l.sent
    ensures l.r.size == 0 && HEADER <= |InPipe(l)| ==>
              |l.r.decoded| < |l.sent| && Heads(InPipe(l), l.sent[|l.r.decoded|])
              && InPipe(l)[..HEADER] == HeaderOf(|l.sent[|l.r.decoded|].payload|, l.sent[|l.r.decoded|].cmd)
  {
    hide Stream, HeaderThere, Given;
    Pipe(l);
    StreamPrefix(l.r.decoded, Partial(l.r) + InPipe(l), l.sent);
    if l.r.size == 0 && HEADER <= |InPipe(l)| {
      assert Partial(l.r) + InPipe(l) == InPipe(l);
      HeaderAhead(InPipe(l), l.sent[|l.r.decoded|..]);
    }
  }

  lemma NewLinkOk()
    ensures Inv(NEW_LINK)
  {}

  // ----- what moves a link ----------------------------------------------------------

  /** A message is sent, and part of it may be out. */
  function Sending(l: Link, m: Msg, accepts: seq<nat>, more: seq<nat>): Link {
    l.(w := ProcSend(l.w, m, accepts, more), sent := l.sent + [m])
  }

  function Writing(l: Link, accepts: seq<nat>): Link
    requires l.w.pending.Some?
  {
    l.(w := WriteCb(l.w, accepts))
  }

  function Reading(l: Link, chunks: seq<nat>): Link
    requires Inv(l)
  {
    NextHeader(l);
    var res := ReadCb(l.r, InPipe(l), chunks);
    l.(r := res.0, read := l.read + res.1)
  }

  lemma SendingKeeps(l: Link, m: Msg, accepts: seq<nat>, more: seq<nat>)
    requires Inv(l)
    ensures Inv(Sending(l, m, accepts, more))
  {
    SendGiven(l.w, m, accepts, more);
    StreamAppend(l.sent, m);
    assert Sending(l, m, accepts, more).w.written[..l.read] == l.w.written[..l.read];
  }

  lemma WritingKeeps(l: Link, accepts: seq<nat>)
    requires Inv(l) && l.w.pending.Some?
    ensures Inv(Writing(l, accepts))
  {
    WriteCbGiven(l.w, accepts);
    assert Writing(l, accepts).w.written[..l.read] == l.w.written[..l.read];
  }

  /** Between frames there is nothing in the pipe, or a whole header. */
  predicate HeaderWhole(l: Link)
    requires l.read <= |l.w.written|
  {
    l.r.size == 0 ==> InPipe(l) == [] || HEADER <= |InPipe(l)|
  }

  lemma HeaderConsumed(r: Reader, bytes: seq<Byte>, input: seq<Byte>)
    requires Consumed(r, bytes) && r.size == 0 && HeaderThere(input)
    requires input[..HEADER] == HeaderOf(BytesWord(input[..4]), BytesWord(input[4..8]))
    ensures Consumed(TakeHeader(r, BytesWord(input[..4]), BytesWord(input[4..8])), bytes + input[..HEADER])
  {
    var size, cmd := BytesWord(input[..4]), BytesWord(input[4..8]);
    assert bytes == Stream(r.decoded);
    if size == 0 {
      DeliveredConsumed(r, bytes, cmd, []);
      assert Frame(Msg(cmd, [])) == HeaderOf(0, cmd);
    } else {
      assert HeaderOf(size, cmd) + [] == HeaderOf(size, cmd);
    }
  }

  lemma ReadCbConsumed(r: Reader, bytes: seq<Byte>, input: seq<Byte>, chunks: seq<nat>)
    requires Consumed(r, bytes) && ReaderOk(r)
    requires r.size == 0 ==> HeaderThere(input)
    requires r.size == 0 ==> input[..HEADER] == HeaderOf(BytesWord(input[..4]), BytesWord(input[4..8]))
    ensures var res := ReadCb(r, input, chunks); Consumed(res.0, bytes + input[..res.1])
  {
    hide Consumed, ReadBody, HeaderOf;
    if r.size == 0 {
      HeaderConsumed(r, bytes, input);
      var r1 := TakeHeader(r, BytesWord(input[..4]), BytesWord(input[4..8]));
      ReadBodyConsumed(r1, bytes + input[..HEADER], input[HEADER..], chunks);
      var n := ReadBody(r1, input[HEADER..], chunks).1;
      assert bytes + input[..HEADER] + input[HEADER..][..n] == bytes + input[..HEADER + n];
    } else {
      ReadBodyConsumed(r, bytes, input, chunks);
    }
  }

  /** A short header read loses its bytes: the stream is kept if and only if there is none. */
  lemma ReadingKeepsIff(l: Link, chunks: seq<nat>)
    requires Inv(l)
    ensures Inv(Reading(l, chunks)) <==> HeaderWhole(l)
  {
    hide Stream, ReadBody, HeaderOf, HeaderThere, TakeHeader;
    NextHeader(l);
    var input := InPipe(l);
    if l.r.size != 0 || HEADER <= |input| {
      ReadCbConsumed(l.r, l.w.written[..l.read], input, chunks);
      var n := ReadCb(l.r, input, chunks).1;
      assert l.w.written[..l.read] + input[..n] == l.w.written[..l.read + n];
    } else {
      assert l.w.written[..l.read + |input|] == l.w.written[..l.read] + input;
    }
  }

  lemma Drained(l: Link)
    requires Inv(l) && l.w.pending.None? && InPipe(l) == []
    ensures l.r.decoded == l.sent && l.r.size == 0
  {
    hide Stream, HeaderOf;
    NextHeader(l);
    Pipe(l);
    var d := |l.r.decoded|;
    var p := Partial(l.r);
    assert p + InPipe(l) == p;
    StreamPrefix(l.r.decoded, p, l.sent);
    assert |p| == |Stream(l.sent[d..])|;
    if d < |l.sent| {
      StreamFirst(l.sent[d..]);
      PartialShort(l.r, l.sent[d..]);
    } else {
      assert l.sent[d..] == [];
      StreamEmpty();
    }
  }

  lemma Idle(l: Link)
    requires Inv(l) && l.r.size == 0
    ensures Partial(l.r) == [] && Partial(l.r) + InPipe(l) == InPipe(l)
  {}

  lemma LastFits(ms: seq<Msg>)
    requires ms != []
    ensures HEADER + |ms[|ms| - 1].payload| <= |Stream(ms)|
  {}

  lemma StreamEmpty()
    ensures Stream([]) == []
  {}

  /** The frame in hand is not complete, so it is shorter than what it is the start of. */
  lemma PartialShort(r: Reader, ms: seq<Msg>)
    requires ReaderOk(r) && ms != [] && Partial(r) <= Stream(ms)
    ensures |Partial(r)| < |Stream(ms)|
  {
    StreamFirst(ms);
    if HEADER <= |Partial(r)| {
      HeaderAhead(Partial(r), ms);
      HeaderRoundTrip(r.size, r.cmd, r.buf.value);
    }
  }
}
