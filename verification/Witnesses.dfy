/** Concrete sessions that break what the conditions of the session theorems rule out. */
module Witnesses {
  import opened Text
  import opened Wire
  import opened Connection
  import opened Session
  import Batches

  const SETTINGS: Settings := Settings(true, false, [])

  function Sql(text: string): Frame {
    Frame('Q' as int, Ascii(text) + [0])
  }

  function Ready(status: byte): Inbound {
    Deliver(Frame(READY, [status]))
  }

  const SET_DONE: Inbound := Deliver(Frame(COMPLETE, SET_TAG))

  function Ask(f: Frame, offer: Offer): Event {
    Event(Message(f), offer)
  }

  /** A connection just opened to backend `b`. */
  function Opened(b: Backend): Conn {
    Conn(b, [], [], [], false, false, false, false, [])
  }

  function Last(h: seq<Request>): Request {
    if h == [] then [] else h[|h| - 1]
  }

  // ---------------------------------------------------------------- a SET inside a transaction

  const BEGIN: Frame := Sql("BEGIN")
  const SET: Frame := Sql("SET x")
  const COMMIT: Frame := Sql("COMMIT")

  function SettingBackend(): Backend {
    Backend(
      h => Some(SettingReply(h)),
      h => SettingStatus(h),
      h => [SET] in h && DiscardAll() !in h)
  }

  function SettingStatus(h: seq<Request>): byte {
    if Last(h) == [BEGIN] || Last(h) == [SET] then IN_BLOCK else IDLE
  }

  function SettingReply(h: seq<Request>): seq<Inbound> {
    (if Last(h) == [SET] then [SET_DONE] else []) + [Ready(SettingStatus(h))]
  }

  lemma LastOf(h: seq<Request>, m: Request)
    ensures Last(h + [m]) == m
  {
  }

  lemma SettingReplyAnswers(h: seq<Request>)
    ensures AnswerFrom(SettingReply(h), false) && Finished(SettingReply(h))
    ensures Status(SettingReply(h)[|SettingReply(h)| - 1].frame) == SettingStatus(h)
  {
    var r := SettingReply(h);
    assert AnswerFrom([Ready(SettingStatus(h))], false);
    if Last(h) == [SET] {
      assert r[1..] == [Ready(SettingStatus(h))];
    } else {
      assert r == [Ready(SettingStatus(h))];
    }
  }

  lemma SettingIsPostgreSQL()
    ensures PostgreSQL(SettingBackend())
  {
    var b := SettingBackend();
    assert |SET.body| == 6 && |BEGIN.body| == 6 && |DiscardAll()[0].body| == 12 && |Rollback()[0].body| == 9;
    forall h: seq<Request>, m: Request
      ensures var r := b.respond(h + [m]).value;
              AnswerFrom(r, false) && (Finished(r) ==> Status(r[|r| - 1].frame) == b.status(h + [m]))
    {
      SettingReplyAnswers(h + [m]);
    }
    forall h: seq<Request> ensures b.status(h + [Rollback()]) == IDLE && b.status(h + [DiscardAll()]) == IDLE {
      LastOf(h, Rollback());
      LastOf(h, DiscardAll());
    }
  }

  lemma SettingKeepsSessionLaws()
    ensures SessionLaws(SettingBackend()) && DiscardWorks(SettingBackend())
  {
    var b := SettingBackend();
    assert |SET.body| == 6;
    forall h: seq<Request>, name: Bytes | StaysQuoted(name) && b.dirty(h + [SetName(name)])
      ensures b.dirty(h)
    {
      assert |SetName(name)[0].body| > 20;
      assert [SET] in h;
      assert DiscardAll() !in h;
    }
    forall h: seq<Request>, m: Request | b.dirty(h + [m]) && !b.dirty(h)
      ensures Marks(b.respond(h + [m]).value, false)
    {
      assert m == [SET];
      LastOf(h, m);
      assert SettingReply(h + [m])[0] == SET_DONE && Marking(SET_DONE, false);
    }
    forall h: seq<Request> ensures !b.dirty(h + [DiscardAll()]) {
      assert (h + [DiscardAll()])[|h|] == DiscardAll();
    }
  }

  lemma SettingBackendIsLawful()
    ensures Pristine(Opened(SettingBackend()))
  {
    SettingIsPostgreSQL();
    SettingKeepsSessionLaws();
  }

  /** A reply of at most one completed command and a ReadyForQuery is read in one go. */
  lemma ShortReply(c: Conn, request: Request, done: seq<Inbound>, status: byte, sink: Sink)
    requires c.inbox == [] && c.buffer == [] && !c.dataAvailable && sink != Sink.Client(0)
    requires done == [] || done == [SET_DONE]
    requires status == IDLE || status == IN_BLOCK
    requires c.backend.respond(c.sent + [request]) == Some(done + [Ready(status)])
    ensures var p := Exchange(c, request, false, sink);
            && p.Done? && p.sink == (if sink.Nobody? then sink else Sink.Client(sink.writes - 1))
            && p.conn == c.(sent := c.sent + [request], inTransaction := status != IDLE,
                            needsCleanup := c.needsCleanup || (done != [] && !c.inTransaction))
  {
    var d := Send(c, request);
    assert d.inbox == done + [Ready(status)];
    if done == [] {
      assert d.inbox == [Ready(status)];
      assert d.inbox[1..] == [];
    } else {
      var d1 := TakeOne(d);
      assert d1.inbox == [Ready(status)];
      assert d1.inbox[1..] == [];
      assert Recv(d, false) == Recv(d1, false);
    }
  }

  /** The connection in the middle of the client's transaction, and after it. */
  function InsideBlock(): Conn {
    Opened(SettingBackend()).(sent := [[BEGIN]], inTransaction := true)
  }

  function AfterBlock(): Conn {
    Opened(SettingBackend()).(sent := [[BEGIN], [SET], [COMMIT]])
  }

  lemma SetTurn()
    ensures var t := Iterate(SETTINGS, InsideBlock(), [], 3, Message(SET));
            t.next == Stay && t.conn == InsideBlock().(sent := [[BEGIN], [SET]]) && t.writes == 2 && t.held == []
  {
    var c := InsideBlock();
    var h := c.sent + [[SET]];
    assert Last(h) == [SET];
    assert h == [[BEGIN], [SET]];
    ShortReply(c, [SET], [SET_DONE], IN_BLOCK, Sink.Client(3));
  }

  lemma CommitTurn()
    ensures var t := Iterate(SETTINGS, InsideBlock().(sent := [[BEGIN], [SET]]), [], 2, Message(COMMIT));
            t.next == Leave && t.conn == AfterBlock()
  {
    var c := InsideBlock().(sent := [[BEGIN], [SET]]);
    var h := c.sent + [[COMMIT]];
    assert |COMMIT.body| == 7 && |SET.body| == 6 && |BEGIN.body| == 6;
    assert Last(h) == [COMMIT];
    assert h == [[BEGIN], [SET], [COMMIT]];
    assert c.backend.respond(h) == Some([] + [Ready(IDLE)]);
    ShortReply(c, [COMMIT], [], IDLE, Sink.Client(2));
  }

  /**
   * A SET that completes inside a transaction is not noticed: from a connection whose flag is right,
   * SET and COMMIT lead to a connection that cleanup passes as it is, with the variable still set.
   */
  lemma SetInTransactionIsMissed()
    ensures Pristine(Opened(SettingBackend())) && Followed(InsideBlock())
    ensures var t := Iterate(SETTINGS, InsideBlock(), [], 3, Message(SET));
            var u := Iterate(SETTINGS, t.conn, t.held, t.writes, Message(COMMIT));
            && u.next == Leave && Cleanup(u.conn) == Done(u.conn, [], Nobody)
            && !u.conn.bad && u.conn.backend.dirty(u.conn.sent)
  {
    SettingBackendIsLawful();
    InsideBlockFollowed();
    SetTurn();
    CommitTurn();
    AfterBlockPasses();
  }

  lemma AfterBlockPasses()
    ensures var c := AfterBlock();
            Cleanup(c) == Done(c, [], Nobody) && !c.bad && c.backend.dirty(c.sent)
  {
    assert |DiscardAll()[0].body| == 12 && |SET.body| == 6 && |BEGIN.body| == 6 && |COMMIT.body| == 7;
    assert AfterBlock().sent[1] == [SET];
  }

  lemma InsideBlockFollowed()
    ensures Followed(InsideBlock())
  {
    SettingBackendIsLawful();
    var b := SettingBackend();
    assert |SET.body| == 6 && |BEGIN.body| == 6 && SET.body[0] == 'S' as int && BEGIN.body[0] == 'B' as int;
    assert |Rollback()[0].body| == 9;
    assert Last([[BEGIN]]) == [BEGIN];
    forall h: seq<Request>
      ensures !Sets(b.respond(h + [Rollback()]).value)
    {
      assert Last(h + [Rollback()]) == Rollback();
      var r := b.respond(h + [Rollback()]).value;
      assert r == [Ready(IDLE)];
      assert r[1..] == [];
    }
  }

  // ---------------------------------------------------------------- an idle timeout that cannot be reported

  lemma BeginTurn(writes: nat)
    requires writes > 0
    ensures var t := Iterate(SETTINGS, Opened(SettingBackend()), [], writes, Message(BEGIN));
            t.next == Stay && t.conn == InsideBlock() && t.writes == writes - 1 && t.held == [] && t.sends == [[BEGIN]]
  {
    var c := Opened(SettingBackend());
    assert |SET.body| == 6 && |BEGIN.body| == 6 && SET.body[0] == 'S' as int && BEGIN.body[0] == 'B' as int;
    assert c.sent + [[BEGIN]] == [[BEGIN]];
    assert Last([[BEGIN]]) == [BEGIN];
    assert c.backend.respond([[BEGIN]]) == Some([] + [Ready(IN_BLOCK)]);
    ShortReply(c, [BEGIN], [], IN_BLOCK, Sink.Client(writes));
  }

  /**
   * BEGIN, then silence until the idle timeout, which cannot be reported because the client's socket
   * is broken: the connection goes back as it is, inside the transaction.
   */
  lemma IdleTimeoutLeavesTransaction()
    ensures var c := Opened(SettingBackend());
            var s := Run(SETTINGS, Fresh(1), [Ask(BEGIN, Granted(c)), Event(IdleTimeout, NoPool)]);
            Clean(c) && s.returned == [InsideBlock()] && !InsideBlock().bad && !Usable(InsideBlock())
  {
    var c := Opened(SettingBackend());
    SettingBackendIsLawful();
    BeginTurn(1);
    assert Renamed(c, SETTINGS.name) == Done(c, [], Nobody);
    BorrowAndStay(SETTINGS, 1, BEGIN, c);
    var s1 := Step(SETTINGS, Fresh(1), Ask(BEGIN, Granted(c)));
    GiveUp(SETTINGS, s1, InsideBlock());
    RunTwo(SETTINGS, Fresh(1), Ask(BEGIN, Granted(c)), Event(IdleTimeout, NoPool));
  }

  lemma RunTwo(st: Settings, s: Client, e: Event, f: Event)
    ensures Run(st, s, [e, f]) == Step(st, Step(st, s, e), f)
  {
    assert [e, f][1..] == [f] && [f][1..] == [];
    assert Run(st, s, [e, f]) == Run(st, Step(st, s, e), [f]);
  }

  lemma BorrowAndStay(st: Settings, writes: nat, f: Frame, c: Conn)
    requires !Extended(f) && !IsCode(f, 'X') && Renamed(c, st.name).Done?
    requires Iterate(st, Renamed(c, st.name).conn, [], writes, Message(f)).next == Stay
    ensures var t := Iterate(st, Renamed(c, st.name).conn, [], writes, Message(f));
            var s := Step(st, Fresh(writes), Ask(f, Granted(c)));
            && s.phase == Inner(t.conn) && s.writes == t.writes && s.held == t.held
            && s.returned == [] && s.sends == t.sends
  {
  }

  lemma GiveUp(st: Settings, s: Client, c: Conn)
    requires s.phase == Inner(c) && s.writes < 2 && s.returned == []
    ensures Step(st, s, Event(IdleTimeout, NoPool)).returned == [c]
  {
  }

  // ---------------------------------------------------------------- an idle timeout with a batch open

  const DESCRIBE: Frame := Frame('D' as int, [0, 0])
  const PARSE: Frame := Frame('P' as int, ['s' as int, 0, 0, 0, 0])
  const SYNC: Frame := Frame('S' as int, [])

  lemma InsideBlockRollsBack()
    ensures Cleanup(InsideBlock()).Done?
  {
    var c := InsideBlock();
    assert |SET.body| == 6 && |BEGIN.body| == 6 && |Rollback()[0].body| == 9;
    LastOf(c.sent, Rollback());
    assert c.backend.respond(c.sent + [Rollback()]) == Some([] + [Ready(IDLE)]);
    ShortReply(c, Rollback(), [], IDLE, Nobody);
  }

  lemma TimesOut(st: Settings, s: Client, c: Conn)
    requires s.phase == Inner(c) && s.writes >= 2 && Cleanup(c).Done?
    ensures var d := Step(st, s, Event(IdleTimeout, NoPool));
            d.phase == Outer && d.held == s.held && d.sends == s.sends
  {
    assert s.sends + [] == s.sends;
  }

  lemma Buffers(st: Settings, s: Client, f: Frame)
    requires !s.phase.Gone? && Extended(f)
    ensures var d := Step(st, s, Event(Message(f), NoPool));
            && d.held == s.held + [f] && d.sends == s.sends && d.phase == s.phase && d.writes == s.writes
  {
    assert s.sends + [] == s.sends;
  }

  /** BEGIN and a Parse, silence until the timeout, then Describe and Sync: a batch of the client's own making. */
  function Abandoned(c: Conn): seq<Event> {
    [Ask(BEGIN, Granted(c)), Event(Message(PARSE), NoPool), Event(IdleTimeout, NoPool),
     Event(Message(DESCRIBE), NoPool), Ask(SYNC, Granted(c))]
  }

  lemma RunFive(st: Settings, s: Client, es: seq<Event>)
    requires |es| == 5
    ensures Run(st, s, es) == Step(st, Step(st, Step(st, Step(st, Step(st, s, es[0]), es[1]), es[2]), es[3]), es[4])
  {
    var s2 := Step(st, Step(st, s, es[0]), es[1]);
    assert es[1..][1..] == es[2..] && es[2..][1..] == es[3..] && es[3..] == [es[3], es[4]];
    assert Run(st, s, es) == Run(st, Step(st, s, es[0]), es[1..]) == Run(st, s2, es[2..]);
    assert Run(st, s2, es[2..]) == Run(st, Step(st, s2, es[2]), es[3..]);
    RunTwo(st, Step(st, s2, es[2]), es[3], es[4]);
  }

  lemma Closes(st: Settings, s: Client, f: Frame, c: Conn)
    requires s.phase == Outer && IsCode(f, 'S') && Renamed(c, st.name).Done?
    ensures Step(st, s, Ask(f, Granted(c))).sends == s.sends + [s.held + [f]]
  {
    Batches.InsideSends(st, s, Renamed(c, st.name).conn, Ask(f, Granted(c)));
  }

  /** The connection that the client gives up is in a transaction with a Parse in the buffer. */
  lemma GivesUpParse(c: Conn)
    requires c == Opened(SettingBackend())
    ensures var s1 := Step(SETTINGS, Fresh(3), Ask(BEGIN, Granted(c)));
            var s2 := Step(SETTINGS, s1, Event(Message(PARSE), NoPool));
            s2.phase == Inner(InsideBlock()) && s2.writes == 2 && s2.held == [PARSE] && s2.sends == [[BEGIN]]
  {
    BeginTurn(3);
    assert Renamed(c, SETTINGS.name) == Done(c, [], Nobody);
    BorrowAndStay(SETTINGS, 3, BEGIN, c);
    Buffers(SETTINGS, Step(SETTINGS, Fresh(3), Ask(BEGIN, Granted(c))), PARSE);
  }

  /** The Parse given up with its transaction travels in front of the next batch, in one send. */
  lemma AbandonedBatchTravelsOn()
    ensures Run(SETTINGS, Fresh(3), Abandoned(Opened(SettingBackend()))).sends == [[BEGIN], [PARSE, DESCRIBE, SYNC]]
  {
    var c := Opened(SettingBackend());
    var es := Abandoned(c);
    GivesUpParse(c);
    RunFive(SETTINGS, Fresh(3), es);
    TravelsOn(Step(SETTINGS, Step(SETTINGS, Fresh(3), es[0]), es[1]), c);
  }

  lemma TravelsOn(s: Client, c: Conn)
    requires s.phase == Inner(InsideBlock()) && s.writes == 2 && s.held == [PARSE] && s.sends == [[BEGIN]]
    requires c.name == SETTINGS.name
    ensures var s1 := Step(SETTINGS, s, Event(IdleTimeout, NoPool));
            var s2 := Step(SETTINGS, s1, Event(Message(DESCRIBE), NoPool));
            Step(SETTINGS, s2, Ask(SYNC, Granted(c))).sends == [[BEGIN], [PARSE, DESCRIBE, SYNC]]
  {
    InsideBlockRollsBack();
    TimesOut(SETTINGS, s, InsideBlock());
    var s1 := Step(SETTINGS, s, Event(IdleTimeout, NoPool));
    Buffers(SETTINGS, s1, DESCRIBE);
    var s2 := Step(SETTINGS, s1, Event(Message(DESCRIBE), NoPool));
    Closes(SETTINGS, s2, SYNC, c);
    assert s2.held + [SYNC] == [PARSE, DESCRIBE, SYNC];
  }

  // ---------------------------------------------------------------- changes that go unseen

  /** A backend whose session is changed by one request, which it answers with `done`, and by no other. */
  function MarkedBackend(request: Request, done: seq<Inbound>): Backend {
    Backend(
      h => Some(MarkedReply(request, done, h)),
      h => IDLE,
      h => request in h && DiscardAll() !in h)
  }

  function MarkedReply(request: Request, done: seq<Inbound>, h: seq<Request>): seq<Inbound> {
    (if Last(h) == request then done else []) + [Ready(IDLE)]
  }

  /** The request does change a session as PostgreSQL does, and none of the pooler's own is taken for it. */
  ghost predicate CanMark(request: Request, done: seq<Inbound>) {
    && (done == [SET_DONE] || (done == [] && HasNamedParse(request)))
    && request != DiscardAll() && request != Rollback()
    && forall name :: StaysQuoted(name) ==> SetName(name) != request
  }

  lemma MarkedReplyAnswers(request: Request, done: seq<Inbound>, h: seq<Request>)
    requires done == [] || done == [SET_DONE]
    ensures var r := MarkedReply(request, done, h);
            AnswerFrom(r, false) && Finished(r) && Status(r[|r| - 1].frame) == IDLE
  {
    var r := MarkedReply(request, done, h);
    assert AnswerFrom([Ready(IDLE)], false);
    if Last(h) == request && done != [] {
      assert r[1..] == [Ready(IDLE)];
    } else {
      assert r == [Ready(IDLE)];
    }
  }

  lemma MarkedKeepsSessionLaws(request: Request, done: seq<Inbound>)
    requires CanMark(request, done)
    ensures SessionLaws(MarkedBackend(request, done)) && DiscardWorks(MarkedBackend(request, done))
  {
    var b := MarkedBackend(request, done);
    forall h: seq<Request>, name: Bytes | StaysQuoted(name) && b.dirty(h + [SetName(name)]) ensures b.dirty(h) {
      assert request in h;
      assert DiscardAll() !in h;
    }
    forall h: seq<Request>, m: Request | b.dirty(h + [m]) && !b.dirty(h)
      ensures HasNamedParse(m) || Marks(b.respond(h + [m]).value, false)
    {
      assert m == request;
      LastOf(h, m);
      if done == [SET_DONE] {
        assert MarkedReply(request, done, h + [m])[0] == SET_DONE && Marking(SET_DONE, false);
      }
    }
    forall h: seq<Request> ensures !b.dirty(h + [DiscardAll()]) {
      assert (h + [DiscardAll()])[|h|] == DiscardAll();
    }
  }

  lemma MarkedIsLawful(request: Request, done: seq<Inbound>)
    requires CanMark(request, done)
    ensures Pristine(Opened(MarkedBackend(request, done))) && RollbackIsPlain(MarkedBackend(request, done))
  {
    var b := MarkedBackend(request, done);
    forall h: seq<Request>, m: Request
      ensures var r := b.respond(h + [m]).value;
              AnswerFrom(r, false) && (Finished(r) ==> Status(r[|r| - 1].frame) == b.status(h + [m]))
    {
      MarkedReplyAnswers(request, done, h + [m]);
    }
    MarkedKeepsSessionLaws(request, done);
    forall h: seq<Request> ensures !Sets(b.respond(h + [Rollback()]).value) {
      LastOf(h, Rollback());
      var r := b.respond(h + [Rollback()]).value;
      assert r == [Ready(IDLE)] && r[1..] == [];
    }
  }

  // ---------------------------------------------------------------- a named Parse that is not first

  const LATE: Request := [DESCRIBE, PARSE, SYNC]

  lemma LateCanMark()
    ensures CanMark(LATE, []) && !StartsNamed(LATE)
  {
    assert NamesStatement(LATE[1]);
  }

  /**
   * Describe, a named Parse, Sync: only the first message of a batch is looked at, so the statement
   * is not noticed and is still there on a connection that cleanup passes as it is.
   */
  lemma LateParseIsMissed()
    ensures var c := Opened(MarkedBackend(LATE, []));
            var t := Iterate(SETTINGS, c, [DESCRIBE, PARSE], 1, Message(SYNC));
            && Pristine(c) && t.next == Leave && Cleanup(t.conn) == Done(t.conn, [], Nobody)
            && !t.conn.bad && t.conn.backend.dirty(t.conn.sent)
  {
    LateCanMark();
    MarkedIsLawful(LATE, []);
    LateTurn();
  }

  lemma LateTurn()
    ensures var c := Opened(MarkedBackend(LATE, []));
            var t := Iterate(SETTINGS, c, [DESCRIBE, PARSE], 1, Message(SYNC));
            t.next == Leave && t.conn == c.(sent := [LATE])
    ensures var d := Opened(MarkedBackend(LATE, [])).(sent := [LATE]);
            Cleanup(d) == Done(d, [], Nobody) && d.backend.dirty(d.sent)
  {
    var c := Opened(MarkedBackend(LATE, []));
    assert [DESCRIBE, PARSE] + [SYNC] == LATE;
    assert c.sent + [LATE] == [LATE];
    assert c.backend.respond([LATE]) == Some([] + [Ready(IDLE)]);
    ShortReply(c, LATE, [], IDLE, Sink.Client(1));
    assert |DiscardAll()| == 1;
  }

  // ---------------------------------------------------------------- an application_name that ends its literal

  lemma SetNameInjective(a: Bytes, b: Bytes)
    requires SetName(a) == SetName(b)
    ensures a == b
  {
    var pre := Ascii("SET application_name = '");
    var post := Ascii("'");
    var x, y := pre + a + post + [0], pre + b + post + [0];
    assert x == SetName(a)[0].body && y == SetName(b)[0].body;
    assert a == x[|pre|..|pre| + |a|] && b == y[|pre|..|pre| + |b|];
  }

  lemma QuotedCanMark(name: Bytes)
    requires !StaysQuoted(name)
    ensures CanMark(SetName(name), [SET_DONE])
  {
    assert |SetName(name)[0].body| > 20 && |DiscardAll()[0].body| == 12 && |Rollback()[0].body| == 9;
    forall other | StaysQuoted(other) ensures SetName(other) != SetName(name) {
      if SetName(other) == SetName(name) {
        SetNameInjective(other, name);
      }
    }
  }

  /** The connection that a client with that name leaves. */
  ghost function Renaming(name: Bytes): Conn {
    Opened(MarkedBackend(SetName(name), [SET_DONE]))
  }

  /**
   * The name is put into the text of a SET as it is. For every name that ends its literal early there
   * is a lawful backend whose session the renaming changes, and the flag, put back, does not say so.
   */
  lemma QuotedRenameIsMissed(name: Bytes)
    requires !StaysQuoted(name)
    ensures var c := Renaming(name);
            var p := Renamed(c, name);
            && Pristine(c) && RollbackIsPlain(c.backend) && p.Done? && p.conn.backend == c.backend
            && Cleanup(p.conn) == Done(p.conn, [], Nobody) && !p.conn.bad && c.backend.dirty(p.conn.sent)
  {
    QuotedCanMark(name);
    MarkedIsLawful(SetName(name), [SET_DONE]);
    var c := Renaming(name);
    var d := c.(name := name);
    assert d.sent + [SetName(name)] == [SetName(name)];
    assert Last([SetName(name)]) == SetName(name);
    ShortReply(d, SetName(name), [SET_DONE], IDLE, Nobody);
  }

  /** Putting the flag back never hides a change, on any lawful backend, exactly for names that stay quoted. */
  lemma RenameExact(name: Bytes)
    ensures (forall c :: Tracked(c) && Renamed(c, name).Done? ==> Tracked(Renamed(c, name).conn)) <==> StaysQuoted(name)
  {
    if StaysQuoted(name) {
      forall c | Tracked(c) && Renamed(c, name).Done? ensures Tracked(Renamed(c, name).conn) {
        RenameTracks(c, name);
      }
    } else {
      QuotedRenameIsMissed(name);
      var c := Renaming(name);
      assert Tracked(c) && Renamed(c, name).Done?;
    }
  }

  const FLUSH: Frame := Frame('H' as int, [])

  /** A client with that name that borrows a connection, does nothing, and leaves. */
  ghost function Visit(name: Bytes): seq<Event> {
    [Ask(FLUSH, Granted(Renaming(name))), Event(Disconnect, NoPool)]
  }

  lemma VisitLeavesChange(st: Settings, writes: nat)
    requires !StaysQuoted(st.name)
    ensures PoliteRun(st, Fresh(writes), Visit(st.name))
    ensures var s := Run(st, Fresh(writes), Visit(st.name));
            && s.phase == Gone(Disconnected) && |s.returned| == 1
            && !s.returned[0].bad && s.returned[0].backend.dirty(s.returned[0].sent)
  {
    QuotedRenameIsMissed(st.name);
    var c := Renaming(st.name);
    var p := Renamed(c, st.name);
    var e, f := Ask(FLUSH, Granted(c)), Event(Disconnect, NoPool);
    BorrowAndStay(st, writes, FLUSH, c);
    var s1 := Step(st, Fresh(writes), e);
    HangUp(st, s1, p.conn);
    RunTwo(st, Fresh(writes), e, f);
    assert Polite(st, Fresh(writes), e) && Polite(st, s1, f);
    assert [e, f][1..] == [f] && [f][1..] == [];
    assert PoliteRun(st, s1, [f]);
  }

  lemma HangUp(st: Settings, s: Client, c: Conn)
    requires s.phase == Inner(c) && s.returned == [] && Cleanup(c) == Done(c, [], Nobody)
    ensures var d := Step(st, s, Event(Disconnect, NoPool)); d.phase == Gone(Disconnected) && d.returned == [c]
  {
  }

  /** No polite session leaves anything behind, exactly if its application_name stays quoted. */
  lemma SessionLeavesNothingExactly(st: Settings, writes: nat)
    ensures (forall es :: PoliteRun(st, Fresh(writes), es) ==> LeavesNoResidue(st, writes, es)) <==>
            StaysQuoted(st.name)
  {
    if StaysQuoted(st.name) {
      forall es | PoliteRun(st, Fresh(writes), es) ensures LeavesNoResidue(st, writes, es) {
        SessionLeavesNothing(st, writes, es);
      }
    } else {
      VisitLeavesChange(st, writes);
      assert !LeavesNoResidue(st, writes, Visit(st.name));
    }
  }

  // ---------------------------------------------------------------- a CopyDone outside COPY FROM STDIN

  const EXECUTE: Frame := Frame('E' as int, [0, 0, 0, 0, 0])
  const COPY_DONE: Frame := Frame('c' as int, [])

  /** A backend whose Execute starts a COPY TO STDOUT. */
  function CopyingBackend(): Backend {
    Backend(
      h => Some(if HasSync(Last(h)) then [Ready(IDLE)] else [Deliver(Frame(COPY_OUT, []))]),
      h => IDLE,
      h => false)
  }

  /**
   * Execute followed by CopyDone: the first chunk of the answer ends the turn, and the connection
   * passes cleanup and goes back to the pool with the rest of the answer still to come.
   */
  lemma CopyDoneLeavesMidReply()
    ensures var c := Opened(CopyingBackend());
            var t := Iterate(SETTINGS, c, [EXECUTE], 1, Message(COPY_DONE));
            && Clean(c) && t.next == Leave
            && Cleanup(t.conn) == Done(t.conn, [], Nobody) && !Usable(t.conn)
  {
    CopyingBackendIsLawful();
    CopyDoneTurn();
  }

  lemma CopyDoneTurn()
    ensures var t := Iterate(SETTINGS, Opened(CopyingBackend()), [EXECUTE], 1, Message(COPY_DONE));
            t.next == Leave && Cleanup(t.conn) == Done(t.conn, [], Nobody) && !Usable(t.conn)
  {
    var c := Opened(CopyingBackend());
    var more := [EXECUTE] + [COPY_DONE];
    LastOf(c.sent, more);
    assert !HasSync(more);
    var d := Send(c, more);
    assert d.inbox == [Deliver(Frame(COPY_OUT, []))];
    FirstChunk(d);
    assert Iterate(SETTINGS, c, [EXECUTE], 1, Message(COPY_DONE)) ==
           AfterReply(SETTINGS, OneChunk(d, false, 1), [], more);
  }

  lemma CopyingBackendIsLawful()
    ensures Clean(Opened(CopyingBackend()))
  {
    var b := CopyingBackend();
    forall h: seq<Request>, m: Request ensures Last(h + [m]) == m {
    }
    assert PostgreSQL(b);
  }

  lemma FirstChunk(d: Conn)
    requires d.inbox == [Deliver(Frame(COPY_OUT, []))] && d.buffer == []
    requires !d.inTransaction && !d.needsCleanup && !d.bad
    ensures var p := OneChunk(d, false, 1);
            && p.Done? && p.conn == d.(inbox := [], dataAvailable := true)
            && Cleanup(p.conn) == Done(p.conn, [], Nobody) && !Usable(p.conn)
  {
    assert d.inbox[1..] == [];
  }
}
