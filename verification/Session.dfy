/**
 * A client's session: the outer loop that waits for work and borrows a connection, and the inner
 * loop that holds the connection until the transaction is over.
 */
module Session {
  import opened Text
  import opened Wire
  import opened Connection

  const COPY_LIMIT: nat := 8196

  datatype Settings = Settings(transactionMode: bool, timed: bool, name: Bytes)

  /** What the client does next; silence only matters while it holds a connection. */
  datatype Input = Message(frame: Frame) | IdleTimeout | Disconnect

  /** What the pool would say to the client at that point. */
  datatype Offer =
    | NoPool                // no pool of that name any more
    | Command               // a command for the pooler itself, answered by it
    | Refused               // no connection could be had
    | Granted(conn: Conn)

  datatype Event = Event(input: Input, offer: Offer)

  datatype Exit =
    | Terminated
    | Disconnected
    | Failed
    | IdleNoticeFailed      // the idle timeout could not be reported to the client

  predicate IsCode(f: Frame, c: char) {
    f.code == c as int
  }

  /** Parse, Bind, Describe and Execute wait in the buffer for a Sync. */
  predicate Extended(f: Frame) {
    IsCode(f, 'P') || IsCode(f, 'B') || IsCode(f, 'D') || IsCode(f, 'E')
  }

  /** CopyData, CopyDone and CopyFail. */
  predicate Copying(f: Frame) {
    IsCode(f, 'd') || IsCode(f, 'c') || IsCode(f, 'f')
  }

  /** The test made before a batch is sent: it starts with a Parse whose sixth byte is not NUL. */
  predicate StartsNamed(batch: seq<Frame>) {
    && batch != [] && IsCode(batch[0], 'P')
    && if |batch[0].body| > 0 then batch[0].body[0] != 0 else |batch| > 1 && batch[1].code != 0
  }

  // ---------------------------------------------------------------- one turn of the inner loop

  datatype Next = Stay | Leave | Quit(how: Exit)

  datatype Turn = Turn(
    conn: Conn,
    held: seq<Frame>,            // the client's message buffer
    writes: nat,                 // how many more writes to the client will succeed
    next: Next,
    sends: seq<Request>,         // what was given to the connection to send
    chunks: seq<seq<Frame>>)     // what was written to the client

  function Writes(sink: Sink): nat {
    if sink.Client? then sink.writes else 0
  }

  /** After a reply: on failure give up, at the end of a transaction leave, otherwise stay. */
  function AfterReply(st: Settings, p: Pumped, held: seq<Frame>, request: Request): Turn {
    Turn(p.conn, held, Writes(p.sink),
         if p.Broken? then Quit(Failed)
         else if !p.conn.inTransaction && st.transactionMode then Leave
         else Stay,
         [request], p.chunks)
  }

  /** One `recv` and one write, as CopyDone and CopyFail do. */
  function OneChunk(c: Conn, timed: bool, writes: nat): Pumped {
    var r := Recv(c, timed);
    if !r.Chunk? then Broken(r.conn.(bad := true), [], Sink.Client(writes))
    else if writes == 0 then Broken(r.conn.(bad := true), [], Sink.Client(writes))
    else Done(r.conn, [r.frames], Sink.Client(writes - 1))
  }

  function Iterate(st: Settings, c: Conn, held: seq<Frame>, writes: nat, input: Input): Turn {
    match input
    case Disconnect => Turn(Cleanup(c).conn, held, writes, Quit(Disconnected), [], [])
    case IdleTimeout =>
      if writes < 2 then Turn(c, held, 0, Quit(IdleNoticeFailed), [], [])
      else Turn(c, held, writes - 2, Leave, [], [])
    case Message(f) =>
      if IsCode(f, 'Q') then
        AfterReply(st, Exchange(c, [f], st.timed, Sink.Client(writes)), held, [f])
      else if IsCode(f, 'X') then
        Turn(Cleanup(c).conn, held, writes, Quit(Terminated), [], [])
      else if Extended(f) then
        Turn(c, held + [f], writes, Stay, [], [])
      else if IsCode(f, 'S') then
        var batch := held + [f];
        var flagged := if StartsNamed(batch) then c.(needsCleanup := true) else c;
        var p := Exchange(flagged, batch, st.timed, Sink.Client(writes));
        AfterReply(st, p, if p.Broken? then batch else [], batch)
      else if IsCode(f, 'd') then
        var more := held + [f];
        if Size(more) <= COPY_LIMIT then Turn(c, more, writes, Stay, [], [])
        else if SendFails(c, more) then Turn(Send(c, more), more, writes, Quit(Failed), [more], [])
        else Turn(Send(c, more), [], writes, Stay, [more], [])
      else if IsCode(f, 'c') || IsCode(f, 'f') then
        var more := held + [f];
        if SendFails(c, more) then Turn(Send(c, more), more, writes, Quit(Failed), [more], [])
        else AfterReply(st, OneChunk(Send(c, more), st.timed, writes), [], more)
      else
        Turn(c, held, writes, Stay, [], [])
  }

  // ---------------------------------------------------------------- the whole session

  datatype Phase = Outer | Inner(conn: Conn) | Gone(how: Exit)

  datatype Client = Client(
    held: seq<Frame>,
    writes: nat,
    phase: Phase,
    sends: seq<Request>,
    returned: seq<Conn>)    // connections handed back to the pool, in order

  function CheckIn(s: Client, c: Conn): Client {
    var p := Cleanup(c);
    s.(phase := if p.Done? then Outer else Gone(Failed), returned := s.returned + [p.conn])
  }

  function Inside(st: Settings, s: Client, c: Conn, input: Input): Client {
    var t := Iterate(st, c, s.held, s.writes, input);
    var s1 := s.(held := t.held, writes := t.writes, sends := s.sends + t.sends);
    match t.next
    case Stay => s1.(phase := Inner(t.conn))
    case Leave => CheckIn(s1, t.conn)
    case Quit(how) => s1.(phase := Gone(how), returned := s1.returned + [t.conn])
  }

  /** An answer by the pooler itself takes two writes. */
  function Answered(s: Client): Client {
    if s.writes < 2 then s.(phase := Gone(Failed), writes := 0) else s.(writes := s.writes - 2)
  }

  function Borrow(st: Settings, s: Client, f: Frame, offer: Offer): Client {
    match offer
    case NoPool => s.(phase := Gone(Failed))
    case Command => Answered(s)
    case Refused => Answered(if IsCode(f, 'S') then s.(held := []) else s)
    case Granted(c) =>
      var p := Renamed(c, st.name);
      if p.Broken? then s.(phase := Gone(Failed), returned := s.returned + [p.conn])
      else Inside(st, s, p.conn, Message(f))
  }

  function Step(st: Settings, s: Client, e: Event): Client {
    match s.phase
    case Gone(_) => s
    case Inner(c) => Inside(st, s, c, e.input)
    case Outer =>
      match e.input
      case IdleTimeout => s
      case Disconnect => s.(phase := Gone(Disconnected))
      case Message(f) =>
        if Extended(f) then s.(held := s.held + [f])
        else if IsCode(f, 'X') then s.(phase := Gone(Terminated))
        else Borrow(st, s, f, e.offer)
  }

  function Run(st: Settings, s: Client, es: seq<Event>): Client
    decreases |es|
  {
    if es == [] then s else Run(st, Step(st, s, es[0]), es[1..])
  }

  /** `Client` as it enters `handle`. */
  function Fresh(writes: nat): Client {
    Client.Client([], writes, Outer, [], [])
  }

  lemma {:induction false} GoneStays(st: Settings, s: Client, es: seq<Event>)
    requires s.phase.Gone?
    ensures Run(st, s, es) == s
    decreases |es|
  {
    if es != [] {
      GoneStays(st, s, es[1..]);
    }
  }

  // ---------------------------------------------------------------- connection hygiene

  /** The backend neither answers the request nor is moved by it. */
  ghost predicate Ignores(c: Conn, request: Request) {
    && c.backend.respond(c.sent + [request]) == Some([])
    && c.backend.status(c.sent + [request]) == c.backend.status(c.sent)
  }

  /**
   * A copy message outside COPY FROM STDIN that does no harm. CopyData does none while it only fills
   * the buffer, or if the backend ignores what it flushes. CopyDone and CopyFail read one chunk of
   * an answer that is not over; they do no harm only if the connection breaks in the attempt.
   */
  ghost predicate CopyIsHarmless(st: Settings, c: Conn, held: seq<Frame>, writes: nat, f: Frame) {
    var more := held + [f];
    || SendFails(c, more)
    || if IsCode(f, 'd') then Size(more) <= COPY_LIMIT || Ignores(c, more)
       else writes == 0 || BreaksOff([], Reply(c, more), st.timed)
  }

  ghost predicate OrderlyTurn(st: Settings, c: Conn, held: seq<Frame>, writes: nat, input: Input) {
    input.Message? && Copying(input.frame) ==> CopyIsHarmless(st, c, held, writes, input.frame)
  }

  /** The pool only hands out connections fit for use, and the client sends no harmful copy message. */
  ghost predicate Orderly(st: Settings, s: Client, e: Event) {
    && (e.offer.Granted? ==> Clean(e.offer.conn))
    && (s.phase.Inner? ==> OrderlyTurn(st, s.phase.conn, s.held, s.writes, e.input))
    && (s.phase.Outer? && e.offer.Granted? && Renamed(e.offer.conn, st.name).Done? ==>
          OrderlyTurn(st, Renamed(e.offer.conn, st.name).conn, s.held, s.writes, e.input))
  }

  ghost predicate OrderlyRun(st: Settings, s: Client, es: seq<Event>)
    decreases |es|
  {
    es == [] || (Orderly(st, s, es[0]) && OrderlyRun(st, Step(st, s, es[0]), es[1..]))
  }

  ghost predicate Usable(c: Conn) {
    c.bad || Clean(c)
  }

  /** What a turn of the inner loop leaves, for each way it can end. */
  ghost predicate TurnIsHygienic(t: Turn) {
    match t.next
    case Stay => InSync(t.conn)
    case Leave => InSync(t.conn)
    case Quit(how) =>
      if how == IdleNoticeFailed then InSync(t.conn)
      else Usable(t.conn)
  }

  lemma CopyHygiene(st: Settings, c: Conn, held: seq<Frame>, writes: nat, f: Frame)
    requires InSync(c) && Copying(f) && CopyIsHarmless(st, c, held, writes, f)
    ensures TurnIsHygienic(Iterate(st, c, held, writes, Message(f)))
  {
    var more := held + [f];
    if !SendFails(c, more) {
      var d := Send(c, more);
      assert d.inbox == Reply(c, more);
      RecvBreaksOff(d, st.timed);
      if !IsCode(f, 'd') && Recv(d, st.timed).Chunk? {
        RecvConserves(d, st.timed);
      }
    }
  }

  lemma TurnHygiene(st: Settings, c: Conn, held: seq<Frame>, writes: nat, input: Input)
    requires InSync(c) && OrderlyTurn(st, c, held, writes, input)
    ensures TurnIsHygienic(Iterate(st, c, held, writes, input))
  {
    match input
    case Disconnect => CleanupCleans(c);
    case IdleTimeout =>
    case Message(f) =>
      if IsCode(f, 'Q') {
        ExchangeKeepsSync(c, [f], st.timed, Sink.Client(writes));
      } else if IsCode(f, 'X') {
        CleanupCleans(c);
      } else if IsCode(f, 'S') && !Extended(f) {
        var batch := held + [f];
        var flagged := if StartsNamed(batch) then c.(needsCleanup := true) else c;
        ExchangeKeepsSync(flagged, batch, st.timed, Sink.Client(writes));
      } else if Copying(f) {
        CopyHygiene(st, c, held, writes, f);
      }
  }

  /** Everything handed back is usable; only an unreported idle timeout skips the cleanup. */
  ghost predicate Hygienic(s: Client) {
    && (s.phase.Inner? ==> InSync(s.phase.conn))
    && (forall i :: 0 <= i < |s.returned| ==>
          || Usable(s.returned[i])
          || (s.phase == Gone(IdleNoticeFailed) && i == |s.returned| - 1 && InSync(s.returned[i])))
  }

  lemma InsideHygiene(st: Settings, s: Client, c: Conn, input: Input)
    requires InSync(c) && Hygienic(s) && !s.phase.Gone?
    requires OrderlyTurn(st, c, s.held, s.writes, input)
    ensures Hygienic(Inside(st, s, c, input))
  {
    var t := Iterate(st, c, s.held, s.writes, input);
    TurnHygiene(st, c, s.held, s.writes, input);
    if t.next == Leave {
      CleanupCleans(t.conn);
    }
  }

  lemma StepHygiene(st: Settings, s: Client, e: Event)
    requires Hygienic(s) && Orderly(st, s, e)
    ensures Hygienic(Step(st, s, e))
  {
    match s.phase
    case Gone(_) =>
    case Inner(c) => InsideHygiene(st, s, c, e.input);
    case Outer =>
      if e.input.Message? && e.offer.Granted? {
        var c := e.offer.conn;
        RenameKeepsSync(c, st.name);
        var p := Renamed(c, st.name);
        if p.Done? {
          InsideHygiene(st, s, p.conn, e.input);
        }
      }
  }

  lemma {:induction false} RunHygiene(st: Settings, s: Client, es: seq<Event>)
    requires Hygienic(s) && OrderlyRun(st, s, es)
    ensures Hygienic(Run(st, s, es))
    decreases |es|
  {
    if es != [] {
      StepHygiene(st, s, es[0]);
      RunHygiene(st, Step(st, s, es[0]), es[1..]);
    }
  }

  /**
   * Connection hygiene over whole sessions: whatever the client sends and wherever its session is
   * cut off, each connection that goes back to the pool is bad, and so discarded, or read up to
   * ReadyForQuery, outside a transaction and with nothing to clean up. The one exception is the
   * exit taken when an idle timeout cannot be reported: there cleanup is skipped, and the
   * connection is fit for use exactly if it happened to need none.
   */
  lemma SessionHygiene(st: Settings, writes: nat, es: seq<Event>)
    requires OrderlyRun(st, Fresh(writes), es)
    ensures var s := Run(st, Fresh(writes), es);
            forall i :: 0 <= i < |s.returned| ==>
              var c := s.returned[i];
              if s.phase == Gone(IdleNoticeFailed) && i == |s.returned| - 1 then
                Usable(c) <==> c.bad || (!c.inTransaction && !c.needsCleanup)
              else Usable(c)
  {
    RunHygiene(st, Fresh(writes), es);
  }

  // ---------------------------------------------------------------- which copy messages do harm

  predicate HasSync(request: Request) {
    exists i :: 0 <= i < |request| && (IsCode(request[i], 'Q') || IsCode(request[i], 'S'))
  }

  /** A backend says ReadyForQuery only in answer to a Query or a Sync; what it ignores changes nothing. */
  ghost predicate ReadyOnlyWhenAsked(b: Backend) {
    && (forall h, m :: b.respond(h + [m]).Some? && !HasSync(m) ==> !Finished(b.respond(h + [m]).value))
    && (forall h, m :: b.respond(h + [m]) == Some([]) ==> b.status(h + [m]) == b.status(h))
  }

  /** One chunk of a reply that has no ReadyForQuery leaves the connection out of step. */
  lemma ChunkIsShort(c: Conn, request: Request, timed: bool)
    requires InSync(c) && !SendFails(c, request) && !Finished(Reply(c, request))
    requires Recv(Send(c, request), timed).Chunk?
    ensures var d := Recv(Send(c, request), timed).conn; !InSync(d) && !d.bad
  {
    var d := Send(c, request);
    assert d.inbox == Reply(c, request);
    assert MidReply(d, false);
    var still := RecvMid(d, timed, false);
    RecvConserves(d, timed);
  }

  /** A copy message outside COPY FROM STDIN leaves the connection fit exactly when it is harmless. */
  lemma CopyTurnExact(st: Settings, c: Conn, held: seq<Frame>, writes: nat, f: Frame)
    requires InSync(c) && ReadyOnlyWhenAsked(c.backend)
    requires Copying(f) && !HasSync(held + [f])
    ensures TurnIsHygienic(Iterate(st, c, held, writes, Message(f))) <==> CopyIsHarmless(st, c, held, writes, f)
  {
    if CopyIsHarmless(st, c, held, writes, f) {
      CopyHygiene(st, c, held, writes, f);
    } else if IsCode(f, 'd') {
      CopyDataHarms(st, c, held, writes, f);
    } else {
      CopyEndHarms(st, c, held, writes, f);
    }
  }

  lemma CopyDataHarms(st: Settings, c: Conn, held: seq<Frame>, writes: nat, f: Frame)
    requires InSync(c) && ReadyOnlyWhenAsked(c.backend)
    requires IsCode(f, 'd') && !CopyIsHarmless(st, c, held, writes, f)
    ensures !TurnIsHygienic(Iterate(st, c, held, writes, Message(f)))
  {
    assert Send(c, held + [f]).inbox == Reply(c, held + [f]);
  }

  lemma CopyEndHarms(st: Settings, c: Conn, held: seq<Frame>, writes: nat, f: Frame)
    requires InSync(c) && ReadyOnlyWhenAsked(c.backend) && !HasSync(held + [f])
    requires (IsCode(f, 'c') || IsCode(f, 'f')) && !CopyIsHarmless(st, c, held, writes, f)
    ensures !TurnIsHygienic(Iterate(st, c, held, writes, Message(f)))
  {
    var more := held + [f];
    NotFinished(c, more);
    OneChunkIsShort(c, more, st.timed, writes);
    OutOfStep(st, OneChunk(Send(c, more), st.timed, writes), more);
  }

  lemma NotFinished(c: Conn, request: Request)
    requires ReadyOnlyWhenAsked(c.backend) && !SendFails(c, request) && !HasSync(request)
    ensures !Finished(Reply(c, request))
  {
  }

  lemma OneChunkIsShort(c: Conn, request: Request, timed: bool, writes: nat)
    requires InSync(c) && !SendFails(c, request) && !Finished(Reply(c, request))
    requires writes > 0 && !BreaksOff([], Reply(c, request), timed)
    ensures var p := OneChunk(Send(c, request), timed, writes); p.Done? && !InSync(p.conn)
  {
    var d := Send(c, request);
    assert d.inbox == Reply(c, request);
    RecvBreaksOff(d, timed);
    ChunkIsShort(c, request, timed);
  }

  lemma OutOfStep(st: Settings, p: Pumped, request: Request)
    requires p.Done? && !InSync(p.conn)
    ensures !TurnIsHygienic(AfterReply(st, p, [], request))
  {
  }

  // ---------------------------------------------------------------- no residual session state

  /** The turn sends nothing whose effect on the session would go unseen. */
  ghost predicate PoliteTurn(st: Settings, c: Conn, held: seq<Frame>, writes: nat, input: Input) {
    input.Message? ==>
      var f := input.frame;
      var request := if IsCode(f, 'Q') then [f] else held + [f];
      && (Copying(f) ==> CopyIsHarmless(st, c, held, writes, f) && (HasNamedParse(request) ==> c.needsCleanup))
      && (IsCode(f, 'S') && HasNamedParse(request) ==> StartsNamed(request))
      && ((IsCode(f, 'Q') || IsCode(f, 'S')) && c.inTransaction && !SendFails(c, request) ==>
            !Sets(Reply(c, request)))
  }

  ghost predicate Followed(c: Conn) {
    Tracked(c) && RollbackIsPlain(c.backend)
  }

  ghost predicate Spotless(c: Conn) {
    Pristine(c) && RollbackIsPlain(c.backend)
  }

  ghost predicate Polite(st: Settings, s: Client, e: Event) {
    && (e.offer.Granted? ==> Spotless(e.offer.conn))
    && (s.phase.Inner? ==> PoliteTurn(st, s.phase.conn, s.held, s.writes, e.input))
    && (s.phase.Outer? && e.offer.Granted? && Renamed(e.offer.conn, st.name).Done? ==>
          PoliteTurn(st, Renamed(e.offer.conn, st.name).conn, s.held, s.writes, e.input))
  }

  ghost predicate PoliteRun(st: Settings, s: Client, es: seq<Event>)
    decreases |es|
  {
    es == [] || (Polite(st, s, es[0]) && PoliteRun(st, Step(st, s, es[0]), es[1..]))
  }

  ghost predicate TurnLeavesNothing(t: Turn) {
    match t.next
    case Stay => Followed(t.conn)
    case Leave => Followed(t.conn)
    case Quit(how) => if how == IdleNoticeFailed then Followed(t.conn) else t.conn.bad || Spotless(t.conn)
  }

  lemma ExchangeLeavesNothing(st: Settings, c: Conn, request: Request, writes: nat, held: seq<Frame>)
    requires Followed(c) && (HasNamedParse(request) ==> c.needsCleanup)
    requires c.inTransaction && !SendFails(c, request) ==> !Sets(Reply(c, request))
    ensures TurnLeavesNothing(AfterReply(st, Exchange(c, request, st.timed, Sink.Client(writes)), held, request))
  {
    ExchangeTracks(c, request, st.timed, Sink.Client(writes));
    ExchangeKeepsSync(c, request, st.timed, Sink.Client(writes));
  }

  lemma SyncTracks(st: Settings, c: Conn, held: seq<Frame>, writes: nat, f: Frame)
    requires Followed(c) && PoliteTurn(st, c, held, writes, Message(f)) && IsCode(f, 'S')
    ensures TurnLeavesNothing(Iterate(st, c, held, writes, Message(f)))
  {
    var batch := held + [f];
    var flagged := if StartsNamed(batch) then c.(needsCleanup := true) else c;
    assert Followed(flagged);
    var p := Exchange(flagged, batch, st.timed, Sink.Client(writes));
    ExchangeLeavesNothing(st, flagged, batch, writes, if p.Broken? then batch else []);
  }

  /** Exactly when a batch that prepares a named statement sets the cleanup flag. */
  lemma NamedParseFlaggedExactly(st: Settings, c: Conn, held: seq<Frame>, writes: nat, f: Frame)
    requires InSync(c) && IsCode(f, 'S') && HasNamedParse(held + [f])
    requires !Iterate(st, c, held, writes, Message(f)).next.Quit?
    ensures !SendFails(c, held + [f])
    ensures Iterate(st, c, held, writes, Message(f)).conn.needsCleanup <==>
            c.needsCleanup || StartsNamed(held + [f]) || Marks(Reply(c, held + [f]), c.inTransaction)
  {
    var batch := held + [f];
    var flagged := if StartsNamed(batch) then c.(needsCleanup := true) else c;
    ExchangeKeepsSync(flagged, batch, st.timed, Sink.Client(writes));
  }

  lemma CopyTracks(st: Settings, c: Conn, held: seq<Frame>, writes: nat, f: Frame)
    requires Followed(c) && Copying(f) && CopyIsHarmless(st, c, held, writes, f)
    requires HasNamedParse(held + [f]) ==> c.needsCleanup
    ensures TurnLeavesNothing(Iterate(st, c, held, writes, Message(f)))
  {
    var more := held + [f];
    CopyHygiene(st, c, held, writes, f);
    if !SendFails(c, more) && !IsCode(f, 'd') {
      assert Send(c, more).inbox == Reply(c, more);
      RecvBreaksOff(Send(c, more), st.timed);
    }
  }

  lemma TurnTracks(st: Settings, c: Conn, held: seq<Frame>, writes: nat, input: Input)
    requires Followed(c) && PoliteTurn(st, c, held, writes, input)
    ensures TurnLeavesNothing(Iterate(st, c, held, writes, input))
  {
    match input
    case Disconnect => CleanupErases(c);
    case IdleTimeout =>
    case Message(f) =>
      if IsCode(f, 'Q') {
        assert !HasNamedParse([f]);
        ExchangeLeavesNothing(st, c, [f], writes, held);
      } else if IsCode(f, 'X') {
        CleanupErases(c);
      } else if IsCode(f, 'S') && !Extended(f) {
        SyncTracks(st, c, held, writes, f);
      } else if Copying(f) {
        CopyTracks(st, c, held, writes, f);
      }
  }

  ghost predicate LeavesNothing(s: Client) {
    && (s.phase.Inner? ==> Followed(s.phase.conn))
    && (forall i :: 0 <= i < |s.returned| ==>
          || s.returned[i].bad
          || Pristine(s.returned[i])
          || (s.phase == Gone(IdleNoticeFailed) && i == |s.returned| - 1))
  }

  lemma InsideTracks(st: Settings, s: Client, c: Conn, input: Input)
    requires Followed(c) && LeavesNothing(s) && !s.phase.Gone?
    requires PoliteTurn(st, c, s.held, s.writes, input)
    ensures LeavesNothing(Inside(st, s, c, input))
  {
    var t := Iterate(st, c, s.held, s.writes, input);
    TurnTracks(st, c, s.held, s.writes, input);
    if t.next == Leave {
      CleanupErases(t.conn);
    }
  }

  lemma StepTracks(st: Settings, s: Client, e: Event)
    requires LeavesNothing(s) && Polite(st, s, e) && StaysQuoted(st.name)
    ensures LeavesNothing(Step(st, s, e))
  {
    match s.phase
    case Gone(_) =>
    case Inner(c) => InsideTracks(st, s, c, e.input);
    case Outer =>
      if e.input.Message? && e.offer.Granted? {
        var c := e.offer.conn;
        RenameTracks(c, st.name);
        RenameKeepsBackend(c, st.name);
        var p := Renamed(c, st.name);
        if p.Done? {
          InsideTracks(st, s, p.conn, e.input);
        }
      }
  }

  lemma RenameKeepsBackend(c: Conn, name: Bytes)
    requires InSync(c)
    ensures var p := Renamed(c, name); p.Done? ==> p.conn.backend == c.backend
  {
    if c.name != name {
      ExchangeKeepsSync(c.(name := name), SetName(name), false, Nobody);
    }
  }

  lemma {:induction false} RunTracks(st: Settings, s: Client, es: seq<Event>)
    requires LeavesNothing(s) && PoliteRun(st, s, es) && StaysQuoted(st.name)
    ensures LeavesNothing(Run(st, s, es))
    decreases |es|
  {
    if es != [] {
      StepTracks(st, s, es[0]);
      RunTracks(st, Step(st, s, es[0]), es[1..]);
    }
  }

  /** What a session gives back in good order holds nothing of the client. */
  ghost predicate LeavesNoResidue(st: Settings, writes: nat, es: seq<Event>) {
    var s := Run(st, Fresh(writes), es);
    forall i :: 0 <= i < |s.returned| && (s.phase == Gone(IdleNoticeFailed) ==> i < |s.returned| - 1) ==>
      s.returned[i].bad || Pristine(s.returned[i])
  }

  /**
   * No residual session state: if no SET completes inside a transaction and every batch with a
   * named Parse starts with one, a connection that goes back unspoilt holds nothing of the client.
   */
  lemma SessionLeavesNothing(st: Settings, writes: nat, es: seq<Event>)
    requires StaysQuoted(st.name) && PoliteRun(st, Fresh(writes), es)
    ensures LeavesNoResidue(st, writes, es)
  {
    RunTracks(st, Fresh(writes), es);
  }
}
