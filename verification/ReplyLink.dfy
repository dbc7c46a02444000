/**
 The pipe that carries replies: the slave process writes a frame with blocking writes, and
 the server reads what has arrived whenever its non-blocking descriptor is readable.
 */
module ReplyLink {
  import opened Bytes
  import opened Lists
  import opened Framing

  datatype Event =
    | Respond(m: Msg)
    | Write(room: nat)
    | Readable(chunks: seq<nat>)

  /** A reply being written has its header out, and no other is begun before its end. */
  predicate Ok(l: Link) {
    && Inv(l)
    && (l.w.pending.Some? ==> l.sent != [] && |l.w.pending.value| <= |l.sent[|l.sent| - 1].payload|)
  }

  predicate Enabled(l: Link, e: Event) {
    match e
    case Respond(_) => l.w.pending.None?
    case Write(_) => l.w.pending.Some?
    case Readable(_) => true
  }

  /** A header is eight bytes, which a pipe takes in one piece. */
  function Step(l: Link, e: Event): (l': Link)
    requires Ok(l) && Enabled(l, e)
    ensures Ok(l')
    ensures l'.sent == if e.Respond? then l.sent + [e.m] else l.sent
  {
    StepOk(l, e);
    match e
    case Respond(m) => Sending(l, m, [HEADER], [])
    case Write(room) => Writing(l, [room])
    case Readable(chunks) => Reading(l, chunks)
  }

  lemma StepOk(l: Link, e: Event)
    requires Ok(l) && Enabled(l, e)
    ensures e.Respond? ==> Ok(Sending(l, e.m, [HEADER], []))
    ensures e.Write? ==> Ok(Writing(l, [e.room]))
    ensures e.Readable? ==> Ok(Reading(l, e.chunks))
  {
    hide Stream, Given, ReadCb, Inv;
    match e
    case Respond(m) => SendingKeeps(l, m, [HEADER], []);
    case Write(room) => WritingKeeps(l, [room]);
    case Readable(chunks) =>
      HeadersAreWhole(l);
      ReadingKeepsIff(l, chunks);
  }

  /**
   A reply in the pipe always has its whole header there: what is not yet written is part of
   the payload of the last one.
   */
  lemma HeadersAreWhole(l: Link)
    requires Ok(l)
    ensures HeaderWhole(l)
  {
    hide Stream, Consumed;
    if l.r.size == 0 {
      NextHeader(l);
      Pipe(l);
      var rest := l.sent[|l.r.decoded|..];
      Idle(l);
      StreamPrefix(l.r.decoded, InPipe(l), l.sent);
      if rest == [] {
        StreamEmpty();
      } else {
        LastFits(rest);
        assert rest[|rest| - 1] == l.sent[|l.sent| - 1];
      }
    }
  }

  // ----- runs -----------------------------------------------------------------------

  ghost predicate Legal(l: Link, es: seq<Event>)
    requires Ok(l)
    decreases |es|
  {
    es == [] || (Enabled(l, es[0]) && Legal(Step(l, es[0]), es[1..]))
  }

  ghost function Final(l: Link, es: seq<Event>): (l': Link)
    requires Ok(l) && Legal(l, es)
    ensures Ok(l')
    decreases |es|
  {
    if es == [] then l else Final(Step(l, es[0]), es[1..])
  }

  function Replies(es: seq<Event>): seq<Msg> {
    if es == [] then [] else (if es[0].Respond? then [es[0].m] else []) + Replies(es[1..])
  }

  lemma {:induction false} SentAre(l: Link, es: seq<Event>)
    requires Ok(l) && Legal(l, es)
    ensures Final(l, es).sent == l.sent + Replies(es)
    decreases |es|
  {
    hide Ok, Step;
    if es != [] {
      StepIs(l, es[0]);
      SentAre(Step(l, es[0]), es[1..]);
    }
  }

  lemma StepIs(l: Link, e: Event)
    requires Ok(l) && Enabled(l, e)
    ensures Step(l, e).sent == if e.Respond? then l.sent + [e.m] else l.sent
  {}

  /**
   At every moment of every run, however writes and reads are cut up and interleaved, the
   replies the server has read are the first ones given, in order, and once the slave has
   finished writing and the pipe is empty they are all of them.
   */
  lemma ServerReadsReplies(es: seq<Event>)
    requires Legal(NEW_LINK, es)
    ensures var l := Final(NEW_LINK, es);
            && Given(l.w) == Stream(Replies(es))
            && l.r.decoded <= Replies(es)
            && (l.w.pending.None? && InPipe(l) == [] ==> l.r.decoded == Replies(es) && l.r.size == 0)
  {
    hide Stream, Consumed, Enabled, Step, Legal, Final, Replies;
    NewLinkOk();
    SentAre(NEW_LINK, es);
    assert NEW_LINK.sent + Replies(es) == Replies(es);
    var l := Final(NEW_LINK, es);
    NextHeader(l);
    if l.w.pending.None? && InPipe(l) == [] { Drained(l); }
  }
}
