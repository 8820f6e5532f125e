/** Client to server: what a session asks for and what reaches the connections it borrows. */
module Batches {
  import opened Wire
  import opened Connection
  import opened Session

  /** An event of an ordinary stream: Q, P, B, D, E or S, of which only a Query can be a pooler command, or silence. */
  predicate Plain(e: Event) {
    || e.input.IdleTimeout?
    || (&& e.input.Message?
        && (Extended(e.input.frame) || IsCode(e.input.frame, 'Q') || IsCode(e.input.frame, 'S'))
        && (e.offer.Command? ==> IsCode(e.input.frame, 'Q')))
  }

  predicate AllPlain(es: seq<Event>) {
    forall i :: 0 <= i < |es| ==> Plain(es[i])
  }

  /** What the client says. */
  function Stream(es: seq<Event>): seq<Frame>
    requires AllPlain(es)
  {
    if es == [] then []
    else Word(es[0]) + Stream(es[1..])
  }

  /** What an event may send: nothing but the unit it completes, a Query or a batch up to its Sync. */
  function Completes(held: seq<Frame>, e: Event): seq<Request>
    requires Plain(e)
  {
    match e.input
    case Message(f) => if Extended(f) then [] else if IsCode(f, 'Q') then [[f]] else [held + [f]]
    case _ => []
  }

  function HeldAfter(held: seq<Frame>, e: Event): seq<Frame>
    requires Plain(e)
  {
    match e.input
    case Message(f) => if Extended(f) then held + [f] else if IsCode(f, 'Q') then held else []
    case _ => held
  }

  /** The requests that a stream spells out, given the batch already open. */
  function Units(open: seq<Frame>, es: seq<Event>): seq<Request>
    requires AllPlain(es)
    decreases |es|
  {
    if es == [] then [] else Completes(open, es[0]) + Units(HeldAfter(open, es[0]), es[1..])
  }

  /** The batch left open at the end of a stream. */
  function OpenAfter(open: seq<Frame>, es: seq<Event>): seq<Frame>
    requires AllPlain(es)
    decreases |es|
  {
    if es == [] then open else OpenAfter(HeldAfter(open, es[0]), es[1..])
  }

  /** `sent` is `units` with some of them dropped whole. */
  predicate WithoutSome(sent: seq<Request>, units: seq<Request>) {
    if units == [] then sent == []
    else
      || (sent != [] && sent[0] == units[0] && WithoutSome(sent[1..], units[1..]))
      || WithoutSome(sent, units[1..])
  }

  // ---------------------------------------------------------------- one event

  lemma InsideSends(st: Settings, s: Client, c: Conn, e: Event)
    requires Plain(e)
    ensures var d := Inside(st, s, c, e.input);
            && d.sends == s.sends + Completes(s.held, e)
            && (!d.phase.Gone? ==> d.held == HeldAfter(s.held, e))
  {
    if e.input.Message? {
      var f := e.input.frame;
      assert IsCode(f, 'Q') ==> !Extended(f) && !IsCode(f, 'S');
      assert IsCode(f, 'S') ==> !Extended(f) && !IsCode(f, 'X') && !IsCode(f, 'Q');
    }
  }

  lemma ReplySends(st: Settings, p: Pumped, held: seq<Frame>, request: Request, before: seq<Request>)
    requires p.Done? ==> p.conn.sent == before + [request]
    ensures var t := AfterReply(st, p, held, request);
            !t.next.Quit? ==> t.conn.sent == before + t.sends
  {
  }

  lemma OneChunkSends(d: Conn, timed: bool, writes: nat)
    ensures OneChunk(d, timed, writes).Done? ==> OneChunk(d, timed, writes).conn.sent == d.sent
  {
    if Recv(d, timed).Chunk? {
      RecvConserves(d, timed);
    }
  }

  lemma CopySends(st: Settings, c: Conn, held: seq<Frame>, writes: nat, f: Frame)
    requires Copying(f)
    ensures var t := Iterate(st, c, held, writes, Message(f));
            !t.next.Quit? ==> t.conn.sent == c.sent + t.sends
  {
    var more := held + [f];
    if !IsCode(f, 'd') && !SendFails(c, more) {
      var p := OneChunk(Send(c, more), st.timed, writes);
      OneChunkSends(Send(c, more), st.timed, writes);
      ReplySends(st, p, [], more, c.sent);
    }
  }

  lemma SyncSends(st: Settings, c: Conn, held: seq<Frame>, writes: nat, f: Frame)
    requires IsCode(f, 'S')
    ensures var t := Iterate(st, c, held, writes, Message(f));
            !t.next.Quit? ==> t.conn.sent == c.sent + t.sends
  {
    var batch := held + [f];
    var flagged := if StartsNamed(batch) then c.(needsCleanup := true) else c;
    var p := Exchange(flagged, batch, st.timed, Sink.Client(writes));
    ExchangeAppends(flagged, batch, st.timed, Sink.Client(writes));
    ReplySends(st, p, if p.Broken? then batch else [], batch, c.sent);
  }

  /** The record of what a turn sends is what its connection gets. */
  lemma TurnSends(st: Settings, c: Conn, held: seq<Frame>, writes: nat, input: Input)
    ensures var t := Iterate(st, c, held, writes, input);
            !t.next.Quit? ==> t.conn.sent == c.sent + t.sends
  {
    if input.Message? {
      var f := input.frame;
      if IsCode(f, 'Q') {
        ExchangeAppends(c, [f], st.timed, Sink.Client(writes));
        ReplySends(st, Exchange(c, [f], st.timed, Sink.Client(writes)), held, [f], c.sent);
      } else if IsCode(f, 'S') {
        SyncSends(st, c, held, writes, f);
      } else if Copying(f) {
        CopySends(st, c, held, writes, f);
      }
    }
  }

  lemma ExchangeAppends(c: Conn, request: Request, timed: bool, sink: Sink)
    ensures var p := Exchange(c, request, timed, sink); p.Done? ==> p.conn.sent == c.sent + [request]
  {
    if Exchange(c, request, timed, sink).Done? {
      PumpConserves(Send(c, request), timed, sink);
    }
  }

  /** In one send or not at all, and nothing is dropped once a connection has been granted. */
  lemma StepSends(st: Settings, s: Client, e: Event)
    requires Plain(e) && !s.phase.Gone?
    ensures var d := Step(st, s, e);
            && (d.sends == s.sends + Completes(s.held, e) || d.sends == s.sends)
            && (!d.phase.Gone? ==> d.held == HeldAfter(s.held, e))
            && (!d.phase.Gone? && (e.offer.Granted? || e.input.IdleTimeout?) ==>
                  d.sends == s.sends + Completes(s.held, e))
  {
    match s.phase
    case Inner(c) => InsideSends(st, s, c, e);
    case Outer =>
      if e.offer.Granted? {
        InsideSends(st, s, Renamed(e.offer.conn, st.name).conn, e);
      }
  }

  // ---------------------------------------------------------------- whole streams

  lemma {:induction false} NothingOfUnits(units: seq<Request>)
    ensures WithoutSome([], units)
  {
    if units != [] {
      NothingOfUnits(units[1..]);
    }
  }

  lemma WithoutSomeMore(first: seq<Request>, kept: bool, sent: seq<Request>, units: seq<Request>)
    requires |first| <= 1 && WithoutSome(sent, units)
    ensures WithoutSome((if kept then first else []) + sent, first + units)
  {
    if first == [] {
      assert first + units == units && first + sent == sent && [] + sent == sent;
    } else {
      assert (first + units)[1..] == units;
      assert (first + sent)[1..] == sent;
      assert [] + sent == sent;
    }
  }

  /**
   * Each batch, with what an idle timeout left of an earlier one, reaches a connection as exactly its
   * own messages in order and in one send, or not at all; no message of one travels with another.
   */
  lemma {:induction false} RunSendsUnits(st: Settings, s: Client, es: seq<Event>)
    requires AllPlain(es)
    ensures s.sends <= Run(st, s, es).sends
    ensures WithoutSome(Run(st, s, es).sends[|s.sends|..], Units(s.held, es))
    decreases |es|
  {
    var d := Run(st, s, es);
    if s.phase.Gone? {
      GoneStays(st, s, es);
      NothingOfUnits(Units(s.held, es));
    } else if es != [] {
      var e := es[0];
      var s1 := Step(st, s, e);
      StepSends(st, s, e);
      var kept := s1.sends == s.sends + Completes(s.held, e);
      var first := Completes(s.held, e);
      var rest := Units(HeldAfter(s.held, e), es[1..]);
      if s1.phase.Gone? {
        GoneStays(st, s1, es[1..]);
        NothingOfUnits(rest);
        WithoutSomeMore(first, kept, [], rest);
        assert d.sends[|s.sends|..] == (if kept then first else []) + [];
      } else {
        RunSendsUnits(st, s1, es[1..]);
        WithoutSomeMore(first, kept, d.sends[|s1.sends|..], rest);
        assert d.sends[|s.sends|..] == (if kept then first else []) + d.sends[|s1.sends|..];
      }
    }
  }

  /** `d` has sent all the units of the stream since `s`. */
  ghost predicate SentAll(s: Client, d: Client, es: seq<Event>)
    requires AllPlain(es)
  {
    d.sends == s.sends + Units(s.held, es) && d.held == OpenAfter(s.held, es)
  }

  lemma SentAllMore(s: Client, s1: Client, d: Client, es: seq<Event>)
    requires AllPlain(es) && es != []
    requires s1.sends == s.sends + Completes(s.held, es[0]) && s1.held == HeldAfter(s.held, es[0])
    requires SentAll(s1, d, es[1..])
    ensures SentAll(s, d, es)
  {
  }

  lemma GoneAtOnce(st: Settings, s: Client, es: seq<Event>)
    requires es != [] && !Run(st, s, es).phase.Gone?
    ensures !s.phase.Gone? && !Step(st, s, es[0]).phase.Gone?
  {
    if s.phase.Gone? {
      GoneStays(st, s, es);
    }
    if Step(st, s, es[0]).phase.Gone? {
      GoneStays(st, Step(st, s, es[0]), es[1..]);
    }
  }

  /** If every connection asked for is granted and the session goes on, nothing is dropped. */
  lemma {:induction false} RunSendsAll(st: Settings, s: Client, es: seq<Event>)
    requires AllPlain(es)
    requires forall i :: 0 <= i < |es| ==> es[i].offer.Granted? || es[i].input.IdleTimeout?
    requires !Run(st, s, es).phase.Gone?
    ensures SentAll(s, Run(st, s, es), es)
    decreases |es|
  {
    if es != [] {
      var s1 := Step(st, s, es[0]);
      GoneAtOnce(st, s, es);
      StepSends(st, s, es[0]);
      RunSendsAll(st, s1, es[1..]);
      SentAllMore(s, s1, Run(st, s, es), es);
    }
  }

  // ---------------------------------------------------------------- the order of the stream

  /** No Query comes while a batch is open. */
  predicate RunsClosed(open: seq<Frame>, es: seq<Event>)
    requires AllPlain(es)
    decreases |es|
  {
    es != [] ==>
      && (es[0].input.Message? && IsCode(es[0].input.frame, 'Q') ==> open == [])
      && RunsClosed(HeldAfter(open, es[0]), es[1..])
  }

  /** The units of a stream one after the other, and the batch left open. */
  function Told(open: seq<Frame>, es: seq<Event>): seq<Frame>
    requires AllPlain(es)
  {
    Flat(Units(open, es)) + OpenAfter(open, es)
  }

  lemma ToldFirst(open: seq<Frame>, es: seq<Event>)
    requires AllPlain(es) && es != []
    ensures Told(open, es) == Flat(Completes(open, es[0])) + Told(HeldAfter(open, es[0]), es[1..])
  {
    var done, rest := Completes(open, es[0]), Units(HeldAfter(open, es[0]), es[1..]);
    if done == [] {
      assert done + rest == rest;
    } else {
      assert (done + rest)[1..] == rest;
      assert Flat(done) == done[0];
    }
  }

  /**
   * The units, one after the other, spell the client's stream exactly when every batch is closed by
   * its Sync before the next Query: otherwise the Query overtakes the batch.
   */
  lemma {:induction false} UnitsSpellStream(open: seq<Frame>, es: seq<Event>)
    requires AllPlain(es)
    requires forall i :: 0 <= i < |open| ==> Extended(open[i])
    ensures Told(open, es) == open + Stream(es) <==> RunsClosed(open, es)
    decreases |es|
  {
    if es != [] {
      var held := HeldAfter(open, es[0]);
      ToldFirst(open, es);
      UnitsSpellStream(held, es[1..]);
      EventSpells(open, es[0], Told(held, es[1..]), Stream(es[1..]));
    }
  }

  function Word(e: Event): seq<Frame> {
    match e.input case Message(f) => [f] case _ => []
  }

  /** One event spells what it says unless it is a Query while a batch is open. */
  lemma EventSpells(open: seq<Frame>, e: Event, told: seq<Frame>, said: seq<Frame>)
    requires Plain(e) && forall i :: 0 <= i < |open| ==> Extended(open[i])
    ensures Flat(Completes(open, e)) + told == open + (Word(e) + said) <==>
            (e.input.Message? && IsCode(e.input.frame, 'Q') ==> open == []) && told == HeldAfter(open, e) + said
  {
    assert Flat([]) == [] && [] + told == told && [] + said == said;
    match e.input
    case IdleTimeout =>
    case Message(f) =>
      assert open + ([f] + said) == (open + [f]) + said;
      if IsCode(f, 'Q') {
        QuerySpells(open, f, told, said);
      } else if !Extended(f) {
        assert Flat([open + [f]]) == open + [f];
        SameTail(open + [f], told, said);
      }
  }

  lemma QuerySpells(open: seq<Frame>, f: Frame, told: seq<Frame>, said: seq<Frame>)
    requires forall i :: 0 <= i < |open| ==> Extended(open[i])
    requires IsCode(f, 'Q') && !Extended(f)
    ensures Flat([[f]]) + told == (open + [f]) + said <==> open == [] && told == open + said
  {
    assert Flat([[f]]) == [f];
    if open == [] {
      SameTail([f], told, said);
      assert open + [f] == [f] && open + said == said;
    } else {
      assert ((open + [f]) + said)[0] == open[0];
    }
  }

  lemma SameTail(a: seq<Frame>, x: seq<Frame>, y: seq<Frame>)
    ensures a + x == a + y <==> x == y
  {
    assert (a + x)[|a|..] == x;
    assert (a + y)[|a|..] == y;
  }

  /**
   * With every connection granted, what a session has sent, and the batch it holds, spell what the
   * client said exactly when every batch is closed before the next Query.
   */
  lemma SendsSpellStream(st: Settings, writes: nat, es: seq<Event>)
    requires AllPlain(es)
    requires forall i :: 0 <= i < |es| ==> es[i].offer.Granted? || es[i].input.IdleTimeout?
    requires !Run(st, Fresh(writes), es).phase.Gone?
    ensures var s := Run(st, Fresh(writes), es);
            Flat(s.sends) + s.held == Stream(es) <==> RunsClosed([], es)
  {
    RunSendsAll(st, Fresh(writes), es);
    UnitsSpellStream([], es);
    assert [] + Units([], es) == Units([], es);
    assert [] + Stream(es) == Stream(es);
  }

  // ---------------------------------------------------------------- idle timeouts

  /** The requests of the stream if an idle timeout, which gives the transaction up, dropped the open batch. */
  function Apart(open: seq<Frame>, es: seq<Event>): seq<Request>
    requires AllPlain(es)
    decreases |es|
  {
    if es == [] then []
    else if es[0].input.IdleTimeout? then Apart([], es[1..])
    else Completes(open, es[0]) + Apart(HeldAfter(open, es[0]), es[1..])
  }

  predicate HasSyncIn(es: seq<Event>)
    requires AllPlain(es)
  {
    exists i :: 0 <= i < |es| && IsSync(es[i])
  }

  predicate IsSync(e: Event) {
    e.input.Message? && IsCode(e.input.frame, 'S')
  }

  /** No idle timeout finds a batch open that a Sync still closes. */
  predicate TimeoutsFindNothing(open: seq<Frame>, es: seq<Event>)
    requires AllPlain(es)
    decreases |es|
  {
    es != [] ==>
      && (es[0].input.IdleTimeout? && open != [] ==> !HasSyncIn(es[1..]))
      && TimeoutsFindNothing(HeldAfter(open, es[0]), es[1..])
  }

  lemma HasSyncFirst(es: seq<Event>)
    requires AllPlain(es) && es != []
    ensures HasSyncIn(es) <==> IsSync(es[0]) || HasSyncIn(es[1..])
  {
    if HasSyncIn(es[1..]) {
      var i :| 0 <= i < |es[1..]| && IsSync(es[1..][i]);
      assert IsSync(es[i + 1]);
    }
    if HasSyncIn(es) {
      var i :| 0 <= i < |es| && IsSync(es[i]);
      if i > 0 {
        assert IsSync(es[1..][i - 1]);
      }
    }
  }

  lemma {:induction false} WithoutSyncSame(a: seq<Frame>, b: seq<Frame>, es: seq<Event>)
    requires AllPlain(es) && !HasSyncIn(es)
    ensures Units(a, es) == Apart(b, es) && TimeoutsFindNothing(a, es)
    decreases |es|
  {
    if es != [] {
      HasSyncFirst(es);
      var next := if es[0].input.IdleTimeout? then [] else HeldAfter(b, es[0]);
      WithoutSyncSame(HeldAfter(a, es[0]), next, es[1..]);
    }
  }

  lemma SameHead(head: seq<Request>, x: seq<Request>, y: seq<Request>)
    ensures head + x == head + y <==> x == y
  {
    assert (head + x)[|head|..] == x && (head + y)[|head|..] == y;
  }

  /** A batch that has kept more than it should is still longer when its Sync comes. */
  lemma {:induction false} LongerDiffers(a: seq<Frame>, b: seq<Frame>, es: seq<Event>)
    requires AllPlain(es) && HasSyncIn(es) && |a| > |b|
    ensures Units(a, es) != Apart(b, es)
    decreases |es|
  {
    var e, rest := es[0], es[1..];
    HasSyncFirst(es);
    if e.input.IdleTimeout? {
      LongerDiffers(a, [], rest);
      assert [] + Units(a, rest) == Units(a, rest);
    } else if IsSync(e) {
      assert Units(a, es)[0] == a + [e.input.frame] && Apart(b, es)[0] == b + [e.input.frame];
    } else {
      LongerDiffers(HeldAfter(a, e), HeldAfter(b, e), rest);
      assert Completes(a, e) == Completes(b, e);
      SameHead(Completes(a, e), Units(HeldAfter(a, e), rest), Apart(HeldAfter(b, e), rest));
    }
  }

  /**
   * The requests of a stream are what they would be if every idle timeout dropped the open batch,
   * exactly when no timeout finds a batch open that a Sync still closes: otherwise the abandoned
   * batch travels in front of a later one.
   */
  lemma {:induction false} UnitsStayApart(open: seq<Frame>, es: seq<Event>)
    requires AllPlain(es)
    ensures Units(open, es) == Apart(open, es) <==> TimeoutsFindNothing(open, es)
    decreases |es|
  {
    if es != [] {
      var e, rest := es[0], es[1..];
      assert e.input.IdleTimeout? ==> [] + Units(open, rest) == Units(open, rest);
      if e.input.IdleTimeout? && open != [] {
        if HasSyncIn(rest) {
          LongerDiffers(open, [], rest);
        } else {
          WithoutSyncSame(open, [], rest);
        }
      } else {
        UnitsStayApart(HeldAfter(open, e), rest);
        SameHead(Completes(open, e), Units(HeldAfter(open, e), rest), Apart(HeldAfter(open, e), rest));
      }
    }
  }

  /** So it is with what a session sends when every connection is granted. */
  lemma SendsStayApart(st: Settings, writes: nat, es: seq<Event>)
    requires AllPlain(es)
    requires forall i :: 0 <= i < |es| ==> es[i].offer.Granted? || es[i].input.IdleTimeout?
    requires !Run(st, Fresh(writes), es).phase.Gone?
    ensures Run(st, Fresh(writes), es).sends == Apart([], es) <==> TimeoutsFindNothing([], es)
  {
    RunSendsAll(st, Fresh(writes), es);
    UnitsStayApart([], es);
    assert [] + Units([], es) == Units([], es);
  }
}
