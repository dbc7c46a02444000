/**
 The pipe that carries commands: the server writes frames through its non-blocking
 descriptor, and the slave process reads them with blocking reads, one at a time.
 */
module CommandLink {
  import opened Bytes
  import opened Lists
  import opened Framing
  import ReplyLink

  /** A slave whose header read comes back short gives up. */
  datatype State = State(l: Link, alive: bool)

  const START := State(NEW_LINK, true)

  datatype Event =
    | Send(m: Msg, accepts: seq<nat>, more: seq<nat>)
    | Writable(accepts: seq<nat>)
    | Read(chunk: nat)

  predicate Ok(s: State) {
    && Given(s.l.w) == Stream(s.l.sent)
    && s.l.read <= |s.l.w.written|
    && (if s.alive then Inv(s.l) else s.l.r.decoded <= s.l.sent)
  }

  /** A read of an empty pipe waits. */
  predicate Enabled(s: State, e: Event)
    requires Ok(s)
  {
    match e
    case Send(_, _, _) => true
    case Writable(_) => s.l.w.pending.Some?
    case Read(_) => s.alive && InPipe(s.l) != []
  }

  predicate ShortHeader(s: State, e: Event)
    requires Ok(s)
  {
    e.Read? && s.l.r.size == 0 && |InPipe(s.l)| < HEADER
  }

  /** One read of command_read: the header, or what a piece of the payload takes. */
  function OneRead(r: Reader, input: seq<Byte>, chunk: nat): (res: (Reader, nat))
    requires ReaderOk(r) && (r.size == 0 ==> HeaderThere(input))
    ensures res.1 <= |input| && ReaderOk(res.0)
  {
    ReadCb(r, input, if r.size == 0 then [] else [chunk])
  }

  function Step(s: State, e: Event): (s': State)
    requires Ok(s) && Enabled(s, e)
    ensures Ok(s')
    ensures s'.l.sent == if e.Send? then s.l.sent + [e.m] else s.l.sent
    ensures s'.alive <==> s.alive && !ShortHeader(s, e)
  {
    match e
    case Send(m, accepts, more) =>
      SendOk(s, m, accepts, more);
      s.(l := Sending(s.l, m, accepts, more))
    case Writable(accepts) =>
      WriteOk(s, accepts);
      s.(l := Writing(s.l, accepts))
    case Read(chunk) =>
      NextHeader(s.l);
      if ShortHeader(s, e) then s.(l := s.l.(read := |s.l.w.written|), alive := false)
      else
        ReadOk(s, chunk);
        var res := OneRead(s.l.r, InPipe(s.l), chunk);
        s.(l := s.l.(r := res.0, read := s.l.read + res.1))
  }

  lemma SendOk(s: State, m: Msg, accepts: seq<nat>, more: seq<nat>)
    requires Ok(s)
    ensures Ok(s.(l := Sending(s.l, m, accepts, more)))
  {
    hide Stream, Given, ProcSend;
    Grows(s.l.w, m, accepts, more);
    SendGiven(s.l.w, m, accepts, more);
    StreamAppend(s.l.sent, m);
    if s.alive { SendingKeeps(s.l, m, accepts, more); }
  }

  lemma Grows(w: Writer, m: Msg, accepts: seq<nat>, more: seq<nat>)
    ensures w.written <= ProcSend(w, m, accepts, more).written
  {}

  lemma WriteOk(s: State, accepts: seq<nat>)
    requires Ok(s) && s.l.w.pending.Some?
    ensures Ok(s.(l := Writing(s.l, accepts)))
  {
    WriteCbGiven(s.l.w, accepts);
    if s.alive { WritingKeeps(s.l, accepts); }
  }

  lemma ReadOk(s: State, chunk: nat)
    requires Ok(s) && s.alive && HeaderWhole(s.l) && InPipe(s.l) != []
    ensures ReaderOk(s.l.r) && (s.l.r.size == 0 ==> HeaderThere(InPipe(s.l)))
    ensures var res := OneRead(s.l.r, InPipe(s.l), chunk);
            Ok(s.(l := s.l.(r := res.0, read := s.l.read + res.1)))
  {
    hide Stream, Given, ReadCb, HeaderThere;
    NextHeader(s.l);
    ReadingKeepsIff(s.l, if s.l.r.size == 0 then [] else [chunk]);
  }

  // ----- runs -----------------------------------------------------------------------

  ghost predicate Legal(s: State, es: seq<Event>)
    requires Ok(s)
    decreases |es|
  {
    es == [] || (Enabled(s, es[0]) && Legal(Step(s, es[0]), es[1..]))
  }

  ghost function Final(s: State, es: seq<Event>): (s': State)
    requires Ok(s) && Legal(s, es)
    ensures Ok(s')
    decreases |es|
  {
    if es == [] then s else Final(Step(s, es[0]), es[1..])
  }

  function Sends(es: seq<Event>): seq<Msg> {
    if es == [] then [] else (if es[0].Send? then [es[0].m] else []) + Sends(es[1..])
  }

  /** No header is read in part. */
  ghost predicate HeadersWhole(s: State, es: seq<Event>)
    requires Ok(s) && Legal(s, es)
    decreases |es|
  {
    es == [] || (!ShortHeader(s, es[0]) && HeadersWhole(Step(s, es[0]), es[1..]))
  }

  lemma {:induction false} RunIs(s: State, es: seq<Event>)
    requires Ok(s) && Legal(s, es)
    ensures Final(s, es).l.sent == s.l.sent + Sends(es)
    ensures Final(s, es).alive <==> s.alive && HeadersWhole(s, es)
    decreases |es|
  {
    hide Ok, Enabled, Step, ShortHeader;
    if es != [] {
      StepIs(s, es[0]);
      RunIs(Step(s, es[0]), es[1..]);
    }
  }

  lemma StepIs(s: State, e: Event)
    requires Ok(s) && Enabled(s, e)
    ensures Step(s, e).l.sent == if e.Send? then s.l.sent + [e.m] else s.l.sent
    ensures Step(s, e).alive <==> s.alive && !ShortHeader(s, e)
  {}

  /**
   At every moment of every run, the commands the slave has read are the first ones sent, in
   order; once the writer and the pipe are empty a living slave has read them all; and it
   lives exactly as long as no header read of it comes back short.
   */
  lemma SlaveReadsCommands(es: seq<Event>)
    requires Legal(START, es)
    ensures var s := Final(START, es);
            && Given(s.l.w) == Stream(Sends(es))
            && s.l.r.decoded <= Sends(es)
            && (s.alive && s.l.w.pending.None? && InPipe(s.l) == [] ==>
                  s.l.r.decoded == Sends(es) && s.l.r.size == 0)
            && (s.alive <==> HeadersWhole(START, es))
  {
    hide Stream, Given, Inv, Legal, Final, Sends, HeadersWhole;
    NewLinkOk();
    RunIs(START, es);
    assert START.l.sent + Sends(es) == Sends(es);
    var s := Final(START, es);
    if s.alive {
      NextHeader(s.l);
      if s.l.w.pending.None? && InPipe(s.l) == [] { Drained(s.l); }
    }
  }

  // ----- how the server sends -------------------------------------------------------

  /**
   A command is sent only to an idle slave, which has read and answered everything before, and
   an empty pipe takes a header whole.
   */
  predicate Prompt(s: State, e: Event)
    requires Ok(s)
  {
    e.Send? ==>
      && s.l.w.pending.None? && InPipe(s.l) == [] && s.l.r.decoded == s.l.sent
      && Taken(HEADER, e.accepts) == HEADER
  }

  ghost predicate AllPrompt(s: State, es: seq<Event>)
    requires Ok(s) && Legal(s, es)
    decreases |es|
  {
    es == [] || (Prompt(s, es[0]) && AllPrompt(Step(s, es[0]), es[1..]))
  }

  /** What is not yet written is part of the last payload. */
  predicate Served(s: State) {
    s.alive && ReplyLink.Ok(s.l)
  }

  lemma PromptStep(s: State, e: Event)
    requires Ok(s) && Enabled(s, e) && Served(s) && Prompt(s, e)
    ensures Served(Step(s, e)) && !ShortHeader(s, e)
  {
    hide Stream, Given, Consumed;
    ReplyLink.HeadersAreWhole(s.l);
    StepIs(s, e);
    if e.Send? { SentWhole(s.l.w, e.m, e.accepts, e.more); }
  }

  lemma SentWhole(w: Writer, m: Msg, accepts: seq<nat>, more: seq<nat>)
    requires w.pending.None? && Taken(HEADER, accepts) == HEADER
    ensures var p := ProcSend(w, m, accepts, more).pending; p.Some? ==> |p.value| <= |m.payload|
  {}

  lemma {:induction false} PromptRun(s: State, es: seq<Event>)
    requires Ok(s) && Legal(s, es) && Served(s) && AllPrompt(s, es)
    ensures Served(Final(s, es))
    decreases |es|
  {
    hide Ok, Enabled, Step, Served, Prompt;
    if es != [] {
      PromptStep(s, es[0]);
      PromptRun(Step(s, es[0]), es[1..]);
    }
  }

  /**
   As the server sends, one command at a time to an idle slave, no header is ever read in part
   and the slave lives in every run; it has read the first commands sent, and all of them once
   writer and pipe are empty.
   */
  lemma ServedSlaveLives(es: seq<Event>)
    requires Legal(START, es) && AllPrompt(START, es)
    ensures var s := Final(START, es);
            && s.alive && HeadersWhole(START, es)
            && s.l.r.decoded <= Sends(es)
            && (s.l.w.pending.None? && InPipe(s.l) == [] ==> s.l.r.decoded == Sends(es))
  {
    hide Legal, Final, Sends, HeadersWhole, AllPrompt;
    NewLinkOk();
    PromptRun(START, es);
    SlaveReadsCommands(es);
  }

  // ----- short headers --------------------------------------------------------------

  /** With nothing left to write, a header in the pipe is whole. */
  lemma WrittenOutIsSafe(s: State, chunk: nat)
    requires Ok(s) && s.alive && s.l.w.pending.None?
    ensures !(InPipe(s.l) != [] && ShortHeader(s, Read(chunk)))
  {
    hide Stream, Consumed;
    if s.l.r.size == 0 {
      NextHeader(s.l);
      Pipe(s.l);
      Idle(s.l);
      StreamPrefix(s.l.r.decoded, InPipe(s.l), s.l.sent);
      var rest := s.l.sent[|s.l.r.decoded|..];
      if rest == [] { StreamEmpty(); } else { LastFits(rest); }
    }
  }

  lemma Then(s: State, e: Event, rest: seq<Event>)
    requires Ok(s) && Enabled(s, e) && Legal(Step(s, e), rest)
    ensures Legal(s, [e] + rest) && Final(s, [e] + rest) == Final(Step(s, e), rest)
  {
    hide Ok, Step, Enabled;
    assert ([e] + rest)[1..] == rest;
  }

  /**
   Why one command at a time: if two waited for the descriptor, a write could take the first
   and half the header of the second, and a slave that reads everything it finds gives up.
   */
  lemma CutHeaderKillsSlave(m: Msg, m': Msg)
    requires m.payload == []
    ensures var es := [Send(m, [], [])] + ([Send(m', [], [])] + ([Writable([HEADER + 4])] + ([Read(0)] + ([Read(0)] + []))));
            Legal(START, es) && !Final(START, es).alive && Final(START, es).l.r.decoded == [m]
  {
    NewLinkOk();
    var h := HeaderOf(0, m.cmd);
    var s1 := Step(START, Send(m, [], []));
    assert [] + h == h;
    Waits(START, m);
    assert s1 == State(Link(Writer(Some(h), []), Reader(0, 0, None, []), 0, [m]), true);
    var s2 := Step(s1, Send(m', [], []));
    var p := h + Frame(m');
    Waits(s1, m');
    assert s2 == State(Link(Writer(Some(p), []), Reader(0, 0, None, []), 0, [m] + [m']), true);
    var s3 := Step(s2, Writable([HEADER + 4]));
    CutOff(p);
    assert s3 == State(Link(Writer(Some(p[12..]), p[..12]), Reader(0, 0, None, []), 0, [m] + [m']), true);
    var s4 := Step(s3, Read(0));
    HeaderRoundTrip(0, m.cmd, p[8..12]);
    assert InPipe(s3.l) == h + p[8..12];
    assert s4 == State(Link(Writer(Some(p[12..]), p[..12]), Reader(0, 0, None, [m]), 8, [m] + [m']), true);
    var s5 := Step(s4, Read(0));
    assert |InPipe(s4.l)| == 4 && ShortHeader(s4, Read(0));
    Then(s4, Read(0), []);
    Then(s3, Read(0), [Read(0)] + []);
    Then(s2, Writable([HEADER + 4]), [Read(0)] + ([Read(0)] + []));
    Then(s1, Send(m', [], []), [Writable([HEADER + 4])] + ([Read(0)] + ([Read(0)] + [])));
    Then(START, Send(m, [], []), [Send(m', [], [])] + ([Writable([HEADER + 4])] + ([Read(0)] + ([Read(0)] + []))));
    hide Ok, Step, Legal, Final, Enabled;
  }

  lemma CutOff(p: seq<Byte>)
    requires |p| > HEADER + 4
    ensures WriteCb(Writer(Some(p), []), [HEADER + 4]) == Writer(Some(p[HEADER + 4..]), p[..HEADER + 4])
  {
    assert [HEADER + 4][1..] == [];
    assert Taken(|p|, [HEADER + 4]) == HEADER + 4 + Taken(|p| - (HEADER + 4), []);
  }

  lemma Waits(s: State, m: Msg)
    requires s.l.w.written == []
    ensures s.l.w.pending.None? ==>
              ProcSend(s.l.w, m, [], []).pending == Some(HeaderOf(|m.payload|, m.cmd) + m.payload)
    ensures s.l.w.pending.Some? ==>
              ProcSend(s.l.w, m, [], []) == Writer(Some(s.l.w.pending.value + Frame(m)), [])
    ensures ProcSend(s.l.w, m, [], []).written == []
  {
    var h := HeaderOf(|m.payload|, m.cmd);
    assert h[0..] == h && [] + h[..0] == [] && h + [] == h;
    if s.l.w.pending.Some? {
      assert s.l.w.pending.value + h + m.payload == s.l.w.pending.value + Frame(m);
      assert s.l.w.pending.value + h + [] == s.l.w.pending.value + h;
    }
  }
}
