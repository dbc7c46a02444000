/**
 The descriptors' code: the server's end of a slave, the slave's own end, and the server's
 end of a client. What a descriptor takes or gives is decided by the `accepts` and `chunks`
 of each call. The methods are proved to be the functions of Framing.
 */
module FrameChannel {
  import opened Bytes
  import opened Lists
  import opened Framing
  import CommandLink

  /** The server's end of a slave process; `written` is what its descriptor has taken. */
  class Slave {
    var pending: Option<seq<Byte>>
    var written: seq<Byte>
    var size: Int31
    var cmd: Word
    var buf: Option<seq<Byte>>
    var decoded: seq<Msg>

    function W(): Writer
      reads this
    {
      Writer(pending, written)
    }

    function R(): Reader
      reads this
    {
      Reader(size, cmd, buf, decoded)
    }

    constructor ()
      ensures W() == NEW_LINK.w && R() == NEW_LINK.r
    {
      pending, written, size, cmd, buf, decoded := None, [], 0, 0, None, [];
    }

    /** _slave_write: writes until everything is out or a write would block. */
    method SlaveWrite(data: seq<Byte>, accepts: seq<nat>) returns (sent: nat)
      modifies this`written
      ensures sent == Taken(|data|, accepts) && written == old(written) + data[..sent]
    {
      sent := 0;
      var i := 0;
      while sent < |data| && i < |accepts| && accepts[i] != 0
        invariant sent <= |data| && i <= |accepts|
        invariant sent + Taken(|data| - sent, accepts[i..]) == Taken(|data|, accepts)
        invariant written == old(written) + data[..sent]
      {
        var ret := if |data| - sent <= accepts[i] then |data| - sent else accepts[i];
        assert accepts[i..][1..] == accepts[i + 1..];
        assert data[..sent] + data[sent..sent + ret] == data[..sent + ret];
        written := written + data[sent..sent + ret];
        sent := sent + ret;
        i := i + 1;
      }
    }

    /** _slave_write_cb */
    method WriteReady(accepts: seq<nat>)
      requires pending.Some?
      modifies this`pending, this`written
      ensures W() == WriteCb(old(W()), accepts)
    {
      var str := pending.value;
      var sent := SlaveWrite(str, accepts);
      if sent == |str| {
        pending := None;
        return;
      }
      pending := Some(str[sent..]);
    }

    /** _slave_send_aux */
    method SendAux(data: seq<Byte>, accepts: seq<nat>)
      modifies this`pending, this`written
      ensures W() == Framing.SendAux(old(W()), data, accepts)
    {
      if pending.Some? {
        pending := Some(pending.value + data);
        return;
      }
      var sent := SlaveWrite(data, accepts);
      if sent < |data| {
        pending := Some(data[sent..]);
      }
    }

    /** _cserve2_slave_proc_send */
    method ProcSend(m: Msg, accepts: seq<nat>, more: seq<nat>)
      modifies this`pending, this`written
      ensures W() == Framing.ProcSend(old(W()), m, accepts, more)
      ensures Given(W()) == Given(old(W())) + Frame(m)
    {
      SendGiven(W(), m, accepts, more);
      SendAux(HeaderOf(|m.payload|, m.cmd), accepts);
      if m.payload != [] {
        SendAux(m.payload, more);
      }
    }

    /** The payload loop of _slave_proc_read_cb. */
    method ReadPayload(input: seq<Byte>, chunks: seq<nat>) returns (n: nat)
      requires size != 0 && ReaderOk(R())
      modifies this`buf
      ensures n <= |input| && buf.Some? && |buf.value| <= size
      ensures ReadBody(old(R()), input, chunks)
              == (if |buf.value| == size then Delivered(R(), cmd, buf.value) else R(), n)
    {
      hide ReadBody, Piece;
      n := 0;
      var i := 0;
      assert chunks[0..] == chunks && input[0..] == input;
      while i < |chunks| && |buf.value| < size && Piece(size - |buf.value|, input[n..], chunks[i]) != 0
        invariant n <= |input| && i <= |chunks| && buf.Some? && |buf.value| <= size
        invariant |buf.value| < size ==>
                    var res := ReadBody(R(), input[n..], chunks[i..]);
                    ReadBody(old(R()), input, chunks) == (res.0, n + res.1)
        invariant |buf.value| == size ==>
                    ReadBody(old(R()), input, chunks) == (Delivered(R(), cmd, buf.value), n)
        decreases |chunks| - i
      {
        var ret := Piece(size - |buf.value|, input[n..], chunks[i]);
        BodyStep(R(), input, n, chunks, i);
        buf := Some(buf.value + input[n..n + ret]);
        n := n + ret;
        i := i + 1;
      }
      if |buf.value| < size {
        BodyStops(R(), input[n..], chunks[i..]);
      }
    }

    /** _slave_proc_read_cb, with `input` in the pipe: returns how many bytes it read. */
    method ReadReady(input: seq<Byte>, chunks: seq<nat>) returns (n: nat)
      requires ReaderOk(R()) && (size == 0 ==> |input| < HEADER || HeaderThere(input))
      modifies this`size, this`cmd, this`buf, this`decoded
      ensures (R(), n) == ReadCb(old(R()), input, chunks)
    {
      hide HeaderThere, BytesWord;
      n := 0;
      var done := false;
      if size == 0 {
        if |input| < HEADER {
          return |input|;
        }
        WordsThere(input);
        n := HEADER;
        size, cmd := BytesWord(input[..4]), BytesWord(input[4..8]);
        if size != 0 {
          buf := Some([]);
        } else {
          done := true;
        }
      }
      if buf.Some? {
        assert input[0..] == input;
        var got := ReadPayload(input[n..], chunks);
        n := n + got;
        done := |buf.value| == size;
      }
      if done {
        decoded := decoded + [Msg(cmd, if buf.Some? then buf.value else [])];
        size, cmd, buf := 0, 0, None;
      }
    }
  }

  /** How command_read comes back, or that it still waits for the rest of a payload. */
  datatype Outcome = GaveUp | Waiting | Command(cmd: Word, params: seq<Byte>)

  /** What happens at one read: some bytes have arrived before it, and it is cut to a size. */
  datatype Arrival = Arrival(bytes: seq<Byte>, chunk: nat)

  function Arrived(steps: seq<Arrival>): seq<Byte> {
    if steps == [] then [] else steps[0].bytes + Arrived(steps[1..])
  }

  /** The payload read by the reads of the command link. */
  function Reads(r: Reader, pipe: seq<Byte>, steps: seq<Arrival>): (res: (Reader, seq<Byte>))
    requires ReaderOk(r)
    decreases |steps|
  {
    if r.size == 0 || steps == [] then (r, pipe)
    else
      var p := pipe + steps[0].bytes;
      var res := CommandLink.OneRead(r, p, steps[0].chunk);
      Reads(res.0, p[res.1..], steps[1..])
  }

  /** What a writer that waits for its descriptor gets out in successive writes. */
  function Writes(w: Writer, rooms: seq<nat>): Writer
    decreases |rooms|
  {
    if w.pending.None? then w
    else if rooms == [] then Writer(None, Given(w))
    else Writes(WriteCb(w, [rooms[0]]), rooms[1..])
  }

  /** The slave process: blocking reads and writes on its two descriptors. */
  class SlaveProcess {
    /** What has arrived and is not read. */
    var pipe: seq<Byte>
    var written: seq<Byte>

    /**
     command_read: a header that comes back short, or asks for a negative size, ends it;
     otherwise it reads until the payload is there, however it arrives and is cut up, and what
     it has read is exactly the frame of what it returns.
     */
    method CommandRead(steps: seq<Arrival>) returns (outcome: Outcome, used: nat)
      modifies this`pipe
      ensures used <= |steps|
      ensures outcome == GaveUp <==> !HeaderThere(old(pipe))
      ensures outcome.Command? ==>
                && |outcome.params| < INT_LIMIT
                && old(pipe) + Arrived(steps[..used]) == Frame(Msg(outcome.cmd, outcome.params)) + pipe
      ensures outcome == Waiting ==>
                && used == |steps|
                && exists r: Reader :: ReaderOk(r) && r.size != 0 && old(pipe) + Arrived(steps) == Partial(r) + pipe
      ensures outcome != GaveUp ==>
                var size, cmd := BytesWord(old(pipe)[..4]), BytesWord(old(pipe)[4..8]);
                var res := Reads(TakeHeader(Reader(0, 0, None, []), size, cmd), old(pipe)[HEADER..], steps);
                && pipe == res.1
                && (outcome == Waiting <==> res.0.size != 0)
                && (outcome.Command? ==> res.0.decoded == [Msg(outcome.cmd, outcome.params)])
    {
      hide Reads, Piece, HeaderOf, BytesWord, Arrived, Framing.Partial;
      used := 0;
      if |pipe| < HEADER {
        pipe := [];
        return GaveUp, 0;
      }
      var word, cmd := BytesWord(pipe[..4]), BytesWord(pipe[4..8]);
      if INT_LIMIT <= word {
        pipe := pipe[HEADER..];
        return GaveUp, 0;
      }
      var size: Int31 := word;
      ghost var start := pipe;
      pipe := pipe[HEADER..];
      var buf: seq<Byte> := [];
      ghost var r := TakeHeader(Reader(0, 0, None, []), size, cmd);
      HeaderBack(start);
      while |buf| < size && used < |steps|
        invariant |buf| <= size && used <= |steps|
        invariant r == Loading(size, cmd, buf)
        invariant Reads(r, pipe, steps[used..]) == Reads(TakeHeader(Reader(0, 0, None, []), size, cmd), start[HEADER..], steps)
        invariant start + Arrived(steps[..used]) == HeaderOf(size, cmd) + buf + pipe
      {
        ghost var before := pipe;
        pipe := pipe + steps[used].bytes;
        var ret := Piece(size - |buf|, pipe, steps[used].chunk);
        ReadStep(size, cmd, buf, before, steps, used);
        Regroup(start, Arrived(steps[..used]), HeaderOf(size, cmd), buf, before, steps[used].bytes, ret);
        buf := buf + pipe[..ret];
        pipe := pipe[ret..];
        r := Loading(size, cmd, buf);
        used := used + 1;
      }
      ReadsStop(r, pipe, steps[used..]);
      if |buf| < size {
        assert steps[..used] == steps;
        PartialIs(r);
        return Waiting, used;
      }
      assert HeaderOf(size, cmd) + buf == Frame(Msg(cmd, buf));
      return Command(cmd, buf), used;
    }

    /** response_send: the payload is written in as many pieces as it takes. */
    method ResponseSend(m: Msg, rooms: seq<nat>)
      modifies this`written
      ensures written == old(written) + Frame(m)
      ensures Writer(None, written) == Writes(Framing.ProcSend(Writer(None, old(written)), m, [HEADER], []), rooms)
    {
      hide WriteCb;
      FirstWrite(written, m);
      written := written + HeaderOf(|m.payload|, m.cmd);
      ghost var start := written;
      var sent, i := 0, 0;
      while sent < |m.payload|
        invariant sent <= |m.payload| && i <= |rooms| && written == start + m.payload[..sent]
        invariant Writes(LeftToWrite(written, m.payload, sent), rooms[i..])
                  == Writes(Framing.ProcSend(Writer(None, old(written)), m, [HEADER], []), rooms)
        decreases |m.payload| - sent, |rooms| - i
      {
        var ret := |m.payload| - sent;
        WriteStep(written, m.payload, sent, rooms, i);
        if i < |rooms| {
          ret := if rooms[i] <= ret then rooms[i] else ret;
          i := i + 1;
        }
        assert m.payload[..sent] + m.payload[sent..sent + ret] == m.payload[..sent + ret];
        written := written + m.payload[sent..sent + ret];
        sent := sent + ret;
      }
      assert Writes(Writer(None, written), rooms[i..]) == Writer(None, written);
    }
  }

  /** The reader when `buf` of a payload of `size` bytes has been read. */
  function Loading(size: Int31, cmd: Word, buf: Payload): (r: Reader)
    requires |buf| <= size
    ensures ReaderOk(r)
  {
    if |buf| == size then Reader(0, 0, None, [Msg(cmd, buf)]) else Reader(size, cmd, Some(buf), [])
  }

  lemma Regroup(x: seq<Byte>, a: seq<Byte>, h: seq<Byte>, buf: seq<Byte>, p: seq<Byte>, bytes: seq<Byte>, n: nat)
    requires x + a == h + buf + p && n <= |p + bytes|
    ensures x + (a + bytes) == h + (buf + (p + bytes)[..n]) + (p + bytes)[n..]
  {
    assert x + (a + bytes) == (x + a) + bytes == h + buf + (p + bytes);
    assert p + bytes == (p + bytes)[..n] + (p + bytes)[n..];
  }

  lemma PartialIs(r: Reader)
    requires r.buf.Some?
    ensures Partial(r) == HeaderOf(r.size, r.cmd) + r.buf.value
  {}

  lemma HeaderBack(input: seq<Byte>)
    requires HeaderThere(input)
    ensures input + Arrived([]) == HeaderOf(BytesWord(input[..4]), BytesWord(input[4..8])) + [] + input[HEADER..]
  {
    BytesRoundTrip(input[..4]);
    BytesRoundTrip(input[4..8]);
    assert input[..HEADER] == input[..4] + input[4..8];
  }

  lemma ReadStep(size: Int31, cmd: Word, buf: Payload, pipe: seq<Byte>, steps: seq<Arrival>, i: nat)
    requires |buf| < size && i < |steps|
    ensures var p := pipe + steps[i].bytes;
            var n := Piece(size - |buf|, p, steps[i].chunk);
            && Reads(Loading(size, cmd, buf), pipe, steps[i..]) == Reads(Loading(size, cmd, buf + p[..n]), p[n..], steps[i + 1..])
            && Arrived(steps[..i + 1]) == Arrived(steps[..i]) + steps[i].bytes
            && p == p[..n] + p[n..]
  {
    var p := pipe + steps[i].bytes;
    var n := Piece(size - |buf|, p, steps[i].chunk);
    assert steps[i..][1..] == steps[i + 1..];
    OneReadIs(size, cmd, buf, p, steps[i].chunk);
    ArrivedMore(steps, i);
    hide CommandLink.OneRead, Piece;
  }

  lemma OneReadIs(size: Int31, cmd: Word, buf: Payload, p: seq<Byte>, chunk: nat)
    requires |buf| < size
    ensures var n := Piece(size - |buf|, p, chunk);
            CommandLink.OneRead(Loading(size, cmd, buf), p, chunk) == (Loading(size, cmd, buf + p[..n]), n)
  {
    var n := Piece(size - |buf|, p, chunk);
    var r := Loading(size, cmd, buf);
    assert [chunk][1..] == [];
    if n == 0 {
      assert buf + p[..n] == buf;
    } else {
      assert r.decoded + [Msg(cmd, buf + p[..n])] == [Msg(cmd, buf + p[..n])];
      assert ReadBody(TakeBody(r, p[..n]), p[n..], []) == (TakeBody(r, p[..n]), 0);
      assert ReadBody(r, p, [chunk]) == (TakeBody(r, p[..n]), n);
    }
  }

  lemma {:induction false} ArrivedMore(steps: seq<Arrival>, i: nat)
    requires i < |steps|
    ensures Arrived(steps[..i + 1]) == Arrived(steps[..i]) + steps[i].bytes
  {
    assert steps[..i + 1][1..] == steps[1..][..i];
    if i > 0 {
      assert steps[..i][1..] == steps[1..][..i - 1];
      ArrivedMore(steps[1..], i - 1);
    } else {
      assert steps[..1][1..] == [];
    }
  }

  lemma ReadsStop(r: Reader, pipe: seq<Byte>, steps: seq<Arrival>)
    requires ReaderOk(r) && (r.size == 0 || steps == [])
    ensures Reads(r, pipe, steps) == (r, pipe)
  {}

  /** The response with `sent` bytes of its payload out. */
  function LeftToWrite(written: seq<Byte>, payload: seq<Byte>, sent: nat): Writer
    requires sent <= |payload|
  {
    Writer(if sent < |payload| then Some(payload[sent..]) else None, written)
  }

  lemma FirstWrite(written: seq<Byte>, m: Msg)
    ensures Framing.ProcSend(Writer(None, written), m, [HEADER], [])
            == LeftToWrite(written + HeaderOf(|m.payload|, m.cmd), m.payload, 0)
  {
    var h := HeaderOf(|m.payload|, m.cmd);
    assert h[..HEADER] == h && m.payload[0..] == m.payload;
    assert (written + h) + m.payload[..0] == written + h;
  }

  lemma WriteStep(written: seq<Byte>, payload: seq<Byte>, sent: nat, rooms: seq<nat>, i: nat)
    requires sent < |payload| && i <= |rooms|
    ensures var left := |payload| - sent;
            var n := if i < |rooms| && rooms[i] < left then rooms[i] else left;
            Writes(LeftToWrite(written, payload, sent), rooms[i..])
            == Writes(LeftToWrite(written + payload[sent..sent + n], payload, sent + n), if i < |rooms| then rooms[i + 1..] else rooms[i..])
  {
    var left := |payload| - sent;
    if i < |rooms| {
      var n := if rooms[i] < left then rooms[i] else left;
      assert [rooms[i]][1..] == [] && rooms[i..][1..] == rooms[i + 1..];
      assert Taken(left, [rooms[i]]) == n;
      var p := payload[sent..];
      assert p[n..] == payload[sent + n..] && p[..n] == payload[sent..sent + n];
    } else {
      assert payload[sent..sent + left] == payload[sent..];
    }
  }

  /** The server's end of a client: like a slave's, with one write to a call. */
  class Client {
    var pending: Option<seq<Byte>>
    var written: seq<Byte>

    function W(): Writer
      reads this
    {
      Writer(pending, written)
    }

    /** cserve2_client_send, when a failed write is one that would block: `room` is then zero. */
    method ClientSend(data: seq<Byte>, room: nat)
      modifies this
      ensures W() == Framing.SendAux(old(W()), data, [room])
      ensures Given(W()) == Given(old(W())) + data
    {
      SendAuxGiven(W(), data, [room]);
      assert [room][1..] == [];
      if pending.Some? {
        pending := Some(pending.value + data);
        return;
      }
      var sent := if room <= |data| then room else |data|;
      assert room < |data| && room != 0 ==> Taken(|data|, [room]) == room + Taken(|data| - room, [room][1..]);
      assert sent == Taken(|data|, [room]);
      written := written + data[..sent];
      if sent < |data| {
        pending := Some(data[sent..]);
      }
    }

    /** cserve2_client_deliver */
    method ClientDeliver(room: nat)
      modifies this
      ensures W() == if old(pending).Some? then WriteCb(old(W()), [room]) else old(W())
      ensures Given(W()) == Given(old(W())) && (pending.Some? ==> pending.value != [])
    {
      if pending.None? {
        return;
      }
      var str := pending.value;
      var sent := if room <= |str| then room else |str|;
      assert room < |str| && room != 0 ==> Taken(|str|, [room]) == room + Taken(|str| - room, [room][1..]);
      assert sent == Taken(|str|, [room]);
      WriteCbGiven(W(), [room]);
      written := written + str[..sent];
      if sent == |str| {
        pending := None;
        return;
      }
      pending := Some(str[sent..]);
    }
  }

  lemma BodyStep(r: Reader, input: seq<Byte>, n: nat, chunks: seq<nat>, i: nat)
    requires ReaderOk(r) && r.size != 0 && n <= |input| && i < |chunks|
    requires Piece(r.size - |r.buf.value|, input[n..], chunks[i]) != 0
    ensures var k := Piece(r.size - |r.buf.value|, input[n..], chunks[i]);
            var r' := r.(buf := Some(r.buf.value + input[n..n + k]));
            if |r'.buf.value| < r.size
            then var res := ReadBody(r', input[n + k..], chunks[i + 1..]);
                 ReadBody(r, input[n..], chunks[i..]) == (res.0, k + res.1)
            else ReadBody(r, input[n..], chunks[i..]) == (Delivered(r', r.cmd, r'.buf.value), k)
  {
    var k := Piece(r.size - |r.buf.value|, input[n..], chunks[i]);
    assert input[n..][..k] == input[n..n + k] && input[n..][k..] == input[n + k..];
    assert chunks[i..][1..] == chunks[i + 1..];
  }

  lemma BodyStops(r: Reader, input: seq<Byte>, chunks: seq<nat>)
    requires ReaderOk(r) && r.size != 0
    requires chunks == [] || Piece(r.size - |r.buf.value|, input, chunks[0]) == 0
    ensures ReadBody(r, input, chunks) == (r, 0)
  {}

  lemma WordsThere(input: seq<Byte>)
    requires HeaderThere(input)
    ensures HEADER <= |input| && 0 <= BytesWord(input[..4]) < INT_LIMIT
  {}
}
