/**
 The socket that carries a client's messages: the client writes a size and that many bytes,
 in pieces, and the server reads one piece whenever its descriptor is readable.
 */
module ClientLink {
  import opened Bytes
  import opened Lists
  import opened Framing

  const SIZE := 4

  function Boxed(p: Payload): (b: seq<Byte>)
    ensures |b| == SIZE + |p|
  {
    WordBytes(|p|) + p
  }

  function Boxes(ps: seq<Payload>): seq<Byte> {
    if ps == [] then [] else Boxed(ps[0]) + Boxes(ps[1..])
  }

  lemma {:induction false} BoxesJoin(a: seq<Payload>, b: seq<Payload>)
    ensures Boxes(a + b) == Boxes(a) + Boxes(b)
  {
    if a == [] {
      assert a + b == b;
    } else {
      assert (a + b)[1..] == a[1..] + b;
      BoxesJoin(a[1..], b);
      assert Boxed(a[0]) + (Boxes(a[1..]) + Boxes(b)) == Boxed(a[0]) + Boxes(a[1..]) + Boxes(b);
    }
  }

  lemma BoxesOne(p: Payload)
    ensures Boxes([p]) == Boxed(p)
  {
    assert [p][1..] == [] && Boxed(p) + [] == Boxed(p);
  }

  /** The msg fields of a client: `buf` holds what has been read of the message of `size` bytes. */
  datatype Reading = Idle | Reading(size: Int31, buf: seq<Byte>)

  /** How the server is with the client: what it reads stands, or it has closed, or taken a part of a size for one. */
  datatype Health = Well | Closed | Confused

  datatype State = State(
    sent: seq<Payload>, written: seq<Byte>, read: nat, msg: Reading, decoded: seq<Payload>, health: Health)

  const START := State([], [], 0, Idle, [], Well)

  datatype Event =
    | Send(p: Payload)
    | Write(room: nat)
    | Readable(chunk: nat)

  function Arrived(s: State): seq<Byte>
    requires s.read <= |s.written|
  {
    s.written[s.read..]
  }

  /** What has been read and belongs to no message yet. */
  function Begun(m: Reading): seq<Byte> {
    if m.Idle? then [] else WordBytes(m.size) + m.buf
  }

  ghost predicate Ok(s: State) {
    && s.written <= Boxes(s.sent) && s.read <= |s.written| && s.decoded <= s.sent
    && (s.health.Well? ==>
          && s.written[..s.read] == Boxes(s.decoded) + Begun(s.msg)
          && (s.msg.Reading? ==>
                && |s.decoded| < |s.sent| && s.msg.size == |s.sent[|s.decoded|]|
                && (s.msg.buf == [] || |s.msg.buf| < s.msg.size)))
  }

  /** The client sends one message after another; the handler is called when something has arrived. */
  ghost predicate Enabled(s: State, e: Event)
    requires Ok(s)
  {
    match e
    case Send(p) => s.written == Boxes(s.sent)
    case Write(_) => s.written != Boxes(s.sent)
    case Readable(chunk) => s.health.Well? && Arrived(s) != [] && 0 < chunk
  }

  /** A read that gets only part of a size. */
  ghost predicate CutsSize(s: State, e: Event)
    requires Ok(s)
  {
    e.Readable? && s.msg.Idle? && Piece(SIZE, Arrived(s), e.chunk) < SIZE
  }

  /** A read for a message of no bytes, which returns none, as a closed socket does. */
  ghost predicate ReadsNothing(s: State, e: Event)
    requires Ok(s)
  {
    e.Readable? && s.msg.Reading? && s.msg.size == 0
  }

  /** cserve2_message_handler, for data that has arrived */
  ghost function Handle(s: State, chunk: nat): State
    requires Ok(s) && s.health.Well?
  {
    var input := Arrived(s);
    if s.msg.Idle? then
      var n := Piece(SIZE, input, chunk);
      if n < SIZE || INT_LIMIT <= BytesWord(input[..SIZE]) then s.(read := s.read + n, health := Confused)
      else s.(read := s.read + n, msg := Reading(BytesWord(input[..SIZE]), []))
    else if s.msg.size == 0 then s.(health := Closed)
    else
      var n := Piece(s.msg.size - |s.msg.buf|, input, chunk);
      var buf := s.msg.buf + input[..n];
      if |buf| == s.msg.size then s.(read := s.read + n, msg := Idle, decoded := s.decoded + [buf])
      else s.(read := s.read + n, msg := s.msg.(buf := buf))
  }

  ghost function Step(s: State, e: Event): (s': State)
    requires Ok(s) && Enabled(s, e)
    ensures Ok(s')
    ensures s'.sent == if e.Send? then s.sent + [e.p] else s.sent
    ensures s'.health.Well? <==> s.health.Well? && !CutsSize(s, e) && !ReadsNothing(s, e)
  {
    match e
    case Send(p) =>
      BoxesJoin(s.sent, [p]);
      s.(sent := s.sent + [p])
    case Write(room) =>
      var all := Boxes(s.sent);
      var n := if |s.written| + room <= |all| then |s.written| + room else |all|;
      Grown(s, all[..n]);
      s.(written := all[..n])
    case Readable(chunk) =>
      HandleOk(s, chunk);
      Handle(s, chunk)
  }

  lemma Grown(s: State, w: seq<Byte>)
    requires Ok(s) && s.written <= w <= Boxes(s.sent)
    ensures Ok(s.(written := w))
  {
    assert w[..s.read] == s.written[..s.read];
  }

  /** The bytes of the messages from the d-th on. */
  lemma BoxesFrom(ps: seq<Payload>, d: nat)
    requires d <= |ps|
    ensures Boxes(ps) == Boxes(ps[..d]) + Boxes(ps[d..])
    ensures d < |ps| ==> Boxes(ps[d..]) == Boxed(ps[d]) + Boxes(ps[d + 1..])
    ensures d < |ps| ==> Boxes(ps[..d + 1]) == Boxes(ps[..d]) + Boxed(ps[d])
    ensures d == |ps| ==> Boxes(ps[d..]) == []
  {
    assert ps == ps[..d] + ps[d..];
    BoxesJoin(ps[..d], ps[d..]);
    if d < |ps| {
      assert ps[d..][1..] == ps[d + 1..] && ps[..d + 1] == ps[..d] + [ps[d]];
      BoxesJoin(ps[..d], [ps[d]]);
      BoxesOne(ps[d]);
    }
  }

  /** What is still to be read of what has been sent. */
  lemma Ahead(s: State)
    requires Ok(s) && s.health.Well?
    ensures var d := |s.decoded|;
            && s.decoded == s.sent[..d]
            && Boxes(s.sent) == Boxes(s.decoded) + Boxes(s.sent[d..])
            && Begun(s.msg) + Arrived(s) <= Boxes(s.sent[d..])
  {
    hide Boxes, Begun;
    var d := |s.decoded|;
    BoxesFrom(s.sent, d);
    assert s.decoded == s.sent[..d];
    Unread(s.written, s.read, Boxes(s.decoded), Begun(s.msg), Boxes(s.sent), Boxes(s.sent[d..]));
  }

  lemma Unread(written: seq<Byte>, read: nat, x: seq<Byte>, begun: seq<Byte>, all: seq<Byte>, rest: seq<Byte>)
    requires read <= |written| && written <= all && written[..read] == x + begun && all == x + rest
    ensures begun + written[read..] <= rest
  {
    assert written == written[..read] + written[read..] == x + (begun + written[read..]);
    Cancel(x, begun + written[read..], rest);
  }

  lemma ReadOn(written: seq<Byte>, read: nat, x: seq<Byte>, begun: seq<Byte>, n: nat)
    requires read + n <= |written| && written[..read] == x + begun
    ensures written[..read + n] == x + (begun + written[read..][..n])
  {
    assert written[..read + n] == written[..read] + written[read..][..n];
  }

  lemma Cancel(x: seq<Byte>, a: seq<Byte>, b: seq<Byte>)
    requires x + a <= x + b
    ensures a <= b
  {
    assert a == (x + a)[|x|..] && b == (x + b)[|x|..];
  }

  lemma HandleOk(s: State, chunk: nat)
    requires Ok(s) && s.health.Well? && Arrived(s) != [] && 0 < chunk
    ensures Ok(Handle(s, chunk)) && Handle(s, chunk).sent == s.sent
    ensures Handle(s, chunk).health.Well? <==> !CutsSize(s, Readable(chunk)) && !ReadsNothing(s, Readable(chunk))
  {
    hide Boxes, Piece;
    if s.msg.Idle? {
      SizeRead(s, chunk);
    } else if s.msg.size != 0 {
      BodyRead(s, chunk);
    }
  }

  lemma SizeRead(s: State, chunk: nat)
    requires Ok(s) && s.health.Well? && Arrived(s) != [] && 0 < chunk && s.msg.Idle?
    ensures Ok(Handle(s, chunk))
    ensures Handle(s, chunk).health.Well? <==> Piece(SIZE, Arrived(s), chunk) == SIZE
  {
    hide Boxes, BytesWord, WordBytes;
    Ahead(s);
    var d, input := |s.decoded|, Arrived(s);
    var n := Piece(SIZE, input, chunk);
    BoxesFrom(s.sent, d);
    ReadOn(s.written, s.read, Boxes(s.decoded), [], n);
    if n == SIZE {
      assert [] + input == input && [] + input[..n] == input[..n];
      HeadSize(s.sent[d], Boxes(s.sent[d + 1..]), input);
    }
  }

  lemma HeadSize(p: Payload, rest: seq<Byte>, input: seq<Byte>)
    requires SIZE <= |input| && input <= Boxed(p) + rest
    ensures BytesWord(input[..SIZE]) == |p| && input[..SIZE] == WordBytes(|p|) + []
  {
    FirstSize(p, rest, input);
    WordRoundTrip(|p|);
  }

  lemma FirstSize(p: Payload, rest: seq<Byte>, input: seq<Byte>)
    requires SIZE <= |input| && input <= Boxed(p) + rest
    ensures input[..SIZE] == WordBytes(|p|)
  {
    assert (Boxed(p) + rest)[..SIZE] == WordBytes(|p|);
  }

  /** More of the message: it is still the start of the one sent, and all of it when it has its size. */
  lemma MoreBody(p: Payload, rest: seq<Byte>, buf: seq<Byte>, input: seq<Byte>, n: nat)
    requires WordBytes(|p|) + buf + input <= Boxed(p) + rest && n <= |input| && |buf| + n <= |p|
    ensures buf + input[..n] == p[..|buf| + n]
  {
    assert Boxed(p) + rest == WordBytes(|p|) + (p + rest) && WordBytes(|p|) + buf + input == WordBytes(|p|) + (buf + input);
    Cancel(WordBytes(|p|), buf + input, p + rest);
    assert (buf + input)[..|buf| + n] == (p + rest)[..|buf| + n];
    assert (buf + input)[..|buf| + n] == buf + input[..n];
    assert (p + rest)[..|buf| + n] == p[..|buf| + n];
  }

  lemma BodyRead(s: State, chunk: nat)
    requires Ok(s) && s.health.Well? && Arrived(s) != [] && 0 < chunk && s.msg.Reading? && s.msg.size != 0
    ensures Ok(Handle(s, chunk)) && Handle(s, chunk).health.Well?
  {
    hide Boxes, WordBytes;
    Ahead(s);
    var d, input := |s.decoded|, Arrived(s);
    BoxesFrom(s.sent, d);
    var p, n := s.sent[d], Piece(s.msg.size - |s.msg.buf|, input, chunk);
    MoreBody(p, Boxes(s.sent[d + 1..]), s.msg.buf, input, n);
    ReadOn(s.written, s.read, Boxes(s.decoded), WordBytes(|p|) + s.msg.buf, n);
    Longer(WordBytes(|p|), s.msg.buf, input[..n]);
    if |s.msg.buf| + n == s.msg.size {
      assert p[..|p|] == p;
      BodyDone(s, n);
    }
  }

  lemma Longer(x: seq<Byte>, a: seq<Byte>, b: seq<Byte>)
    ensures x + a + b == x + (a + b)
  {}

  lemma BodyDone(s: State, n: nat)
    requires Ok(s) && s.health.Well? && s.msg.Reading? && n <= |Arrived(s)|
    requires var d := |s.decoded|; d < |s.sent| && s.msg.buf + Arrived(s)[..n] == s.sent[d]
    requires s.written[..s.read + n] == Boxes(s.decoded) + (WordBytes(s.msg.size) + s.msg.buf + Arrived(s)[..n])
    ensures Ok(s.(read := s.read + n, msg := Idle, decoded := s.decoded + [s.sent[|s.decoded|]]))
  {
    var d := |s.decoded|;
    BoxesFrom(s.sent, d);
    assert s.decoded == s.sent[..d];
    hide Boxes, WordBytes;
    assert s.decoded + [s.sent[d]] == s.sent[..d + 1];
    Longer(WordBytes(s.msg.size), s.msg.buf, Arrived(s)[..n]);
    assert Boxes(s.decoded) + Boxed(s.sent[d]) + [] == Boxes(s.decoded) + Boxed(s.sent[d]);
  }

  // ----- runs -----------------------------------------------------------------------

  ghost predicate Legal(s: State, es: seq<Event>)
    requires Ok(s)
    decreases |es|
  {
    es == [] || (Enabled(s, es[0]) && Legal(Step(s, es[0]), es[1..]))
  }

  ghost function Final(s: State, es: seq<Event>): (s': State)
    requires Ok(s) && Legal(s, es)
    ensures Ok(s')
    decreases |es|
  {
    if es == [] then s else Final(Step(s, es[0]), es[1..])
  }

  function Sends(es: seq<Event>): seq<Payload> {
    if es == [] then [] else (if es[0].Send? then [es[0].p] else []) + Sends(es[1..])
  }

  /** No read gets part of a size, and none is for a message of no bytes. */
  ghost predicate Clean(s: State, es: seq<Event>)
    requires Ok(s) && Legal(s, es)
    decreases |es|
  {
    es == [] || (!CutsSize(s, es[0]) && !ReadsNothing(s, es[0]) && Clean(Step(s, es[0]), es[1..]))
  }

  lemma StepIs(s: State, e: Event)
    requires Ok(s) && Enabled(s, e)
    ensures Step(s, e).sent == if e.Send? then s.sent + [e.p] else s.sent
    ensures Step(s, e).health.Well? <==> s.health.Well? && !CutsSize(s, e) && !ReadsNothing(s, e)
  {}

  lemma {:induction false} RunIs(s: State, es: seq<Event>)
    requires Ok(s) && Legal(s, es)
    ensures Final(s, es).sent == s.sent + Sends(es)
    ensures Final(s, es).health.Well? <==> s.health.Well? && Clean(s, es)
    decreases |es|
  {
    hide Ok, Enabled, Step, CutsSize, ReadsNothing;
    if es != [] {
      StepIs(s, es[0]);
      RunIs(Step(s, es[0]), es[1..]);
    }
  }

  /**
   At every moment of every run the messages the server has read are the first ones the client
   sent, in order; once everything is written and read they are all of them; and the client
   is served exactly as long as no read gets part of a size and no message is empty when read.
   */
  lemma ServerReadsMessages(es: seq<Event>)
    requires Legal(START, es)
    ensures var s := Final(START, es);
            && s.decoded <= Sends(es)
            && (s.health.Well? && s.written == Boxes(Sends(es)) && Arrived(s) == [] && s.msg.Idle? ==> s.decoded == Sends(es))
            && (s.health.Well? <==> Clean(START, es))
  {
    RunIs(START, es);
    assert START.sent + Sends(es) == Sends(es);
    var s := Final(START, es);
    hide Legal, Final, Sends, Clean;
    if s.health.Well? && s.written == Boxes(Sends(es)) && Arrived(s) == [] && s.msg.Idle? {
      Ahead(s);
      var d := |s.decoded|;
      BoxesFrom(s.sent, d);
      assert |s.written| == s.read && s.written[..s.read] == s.written;
      assert |Boxes(s.sent)| == |Boxes(s.decoded)|;
    }
  }
}
