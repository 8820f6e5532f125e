/**
 * A pooled server connection: the flags that `Server` keeps about the PostgreSQL backend at the
 * other end of its socket, and what is true of that backend when the flags are trusted.
 *
 * Byte buffers only ever grow by whole messages and are only ever emptied, so a buffer is kept as
 * the sequence of its messages; `Wire.ConcatInjective` says that this loses nothing.
 */
module Connection {
  import opened Text
  import opened Wire

  const FLUSH_LIMIT: nat := 8196

  const READY: byte := 'Z' as int
  const COMPLETE: byte := 'C' as int
  const ROW: byte := 'D' as int
  const COPY_IN: byte := 'G' as int
  const COPY_OUT: byte := 'H' as int
  const COPY_DATA: byte := 'd' as int

  const IDLE: byte := 'I' as int
  const IN_BLOCK: byte := 'T' as int
  const FAILED_BLOCK: byte := 'E' as int

  const SET_TAG: Bytes := ['S' as int, 'E' as int, 'T' as int, 0]
  const PREPARE_TAG: Bytes :=
    ['P' as int, 'R' as int, 'E' as int, 'P' as int, 'A' as int, 'R' as int, 'E' as int, 0]

  type Request = seq<Frame>

  function Ascii(s: string): Bytes {
    seq(|s|, i requires 0 <= i < |s| => s[i] as int % 256)
  }

  /** `simple_query`. */
  function Query(sql: Bytes): Request {
    [Frame('Q' as int, sql + [0])]
  }

  function Rollback(): Request {
    Query(Ascii("ROLLBACK"))
  }

  function DiscardAll(): Request {
    Query(Ascii("DISCARD ALL"))
  }

  function SetName(name: Bytes): Request {
    Query(Ascii("SET application_name = '") + name + Ascii("'"))
  }

  // ---------------------------------------------------------------- the backend

  /** What the socket delivers: a message, or silence for longer than the statement timeout. */
  datatype Inbound = Deliver(frame: Frame) | Stall

  /**
   * A backend, as a function of everything sent to it so far: what it answers to the last request
   * (`None` when the write fails), its transaction status afterwards, and whether its session has
   * been altered. An answer that stops short of ReadyForQuery is a connection that dies.
   */
  datatype Backend = Backend(
    respond: seq<Request> -> Option<seq<Inbound>>,
    status: seq<Request> -> byte,
    dirty: seq<Request> -> bool)

  predicate Is(m: Inbound, code: byte) {
    m.Deliver? && m.frame.code == code
  }

  /** The status byte of a ReadyForQuery. */
  function Status(f: Frame): byte {
    if |f.body| > 0 then f.body[0] else 0
  }

  predicate KnownStatus(f: Frame) {
    Status(f) == IDLE || Status(f) == IN_BLOCK || Status(f) == FAILED_BLOCK
  }

  /**
   * The reply grammar, from some point of a reply on: one ReadyForQuery, at the very end; no
   * CopyInResponse; CopyData only once a CopyOutResponse has announced it.
   */
  predicate AnswerFrom(r: seq<Inbound>, copying: bool) {
    r == [] ||
    if Is(r[0], READY) then |r| == 1 && KnownStatus(r[0].frame)
    else
      && !Is(r[0], COPY_IN)
      && (Is(r[0], COPY_DATA) ==> copying)
      && AnswerFrom(r[1..], copying || Is(r[0], COPY_OUT))
  }

  predicate Finished(r: seq<Inbound>) {
    r != [] && Is(r[|r| - 1], READY)
  }

  /** A backend that follows the reply grammar and answers with its true transaction status. */
  ghost predicate PostgreSQL(b: Backend) {
    && (forall h, m :: b.respond(h + [m]).Some? ==>
          var r := b.respond(h + [m]).value;
          && AnswerFrom(r, false)
          && (Finished(r) ==> Status(r[|r| - 1].frame) == b.status(h + [m])))
    && (forall h :: b.status(h + [Rollback()]) == IDLE)
    && (forall h :: b.status(h) == IDLE ==> b.status(h + [DiscardAll()]) == IDLE)
  }

  // ---------------------------------------------------------------- the connection

  datatype Conn = Conn(
    backend: Backend,
    sent: seq<Request>,     // what has been written to the socket
    inbox: seq<Inbound>,    // answered by the backend and not yet read
    buffer: seq<Frame>,     // read and not yet handed on
    inTransaction: bool,
    dataAvailable: bool,
    needsCleanup: bool,
    bad: bool,
    name: Bytes)            // the application_name last set

  /** A completed command that `recv` takes for a change of the session. */
  predicate Alters(f: Frame, inTransaction: bool) {
    && f.code == COMPLETE
    && (f.body == PREPARE_TAG || (f.body == SET_TAG && !inTransaction))
  }

  /** What one message from the backend does to the flags. */
  function Absorb(c: Conn, f: Frame): Conn {
    c.(buffer := c.buffer + [f],
       inTransaction := if f.code == READY then Status(f) != IDLE else c.inTransaction,
       dataAvailable := f.code != READY && (c.dataAvailable || f.code == ROW || f.code == COPY_OUT),
       needsCleanup := c.needsCleanup || Alters(f, c.inTransaction))
  }

  /** Whether `recv` hands its buffer on after `f` rather than reading more. */
  predicate Flushes(buffer: seq<Frame>, f: Frame) {
    || f.code == READY || f.code == COPY_IN || f.code == COPY_OUT
    || ((f.code == ROW || f.code == COPY_DATA) && Size(buffer) >= FLUSH_LIMIT)
  }

  datatype Received =
    | Chunk(conn: Conn, frames: seq<Frame>)
    | ReadFailed(conn: Conn)
    | TimedOut(conn: Conn)

  /** `recv`. Without a statement timeout a silence is waited out. */
  function Recv(c: Conn, timed: bool): (r: Received)
    ensures |r.conn.inbox| <= |c.inbox|
    ensures r.Chunk? ==> |r.conn.inbox| < |c.inbox|
    decreases |c.inbox|
  {
    if c.inbox == [] then ReadFailed(c.(bad := true))
    else
      var rest := c.(inbox := c.inbox[1..]);
      match c.inbox[0]
      case Stall => if timed then TimedOut(rest) else Recv(rest, timed)
      case Deliver(f) =>
        if f.code == READY && !KnownStatus(f) then
          ReadFailed(rest.(buffer := c.buffer + [f], bad := true))
        else
          var c1 := Absorb(rest, f);
          if Flushes(c1.buffer, f) then Chunk(c1.(buffer := []), c1.buffer) else Recv(c1, timed)
  }

  /** Where the chunks of a reply go: nowhere, or to a client socket that fails after `writes` more. */
  datatype Sink = Nobody | Client(writes: nat)

  datatype Pumped =
    | Done(conn: Conn, chunks: seq<seq<Frame>>, sink: Sink)
    | Broken(conn: Conn, chunks: seq<seq<Frame>>, sink: Sink)

  /** The loop around `recv` in `query` and in `send_and_receive_loop`. */
  function Pump(c: Conn, timed: bool, sink: Sink): Pumped
    decreases |c.inbox|
  {
    var r := Recv(c, timed);
    if !r.Chunk? then Broken(r.conn.(bad := true), [], sink)
    else if sink == Client(0) then Broken(r.conn.(bad := true), [], sink)
    else
      var sink1 := if sink.Nobody? then sink else Client(sink.writes - 1);
      if !r.conn.dataAvailable then Done(r.conn, [r.frames], sink1)
      else
        var p := Pump(r.conn, timed, sink1);
        if p.Done? then Done(p.conn, [r.frames] + p.chunks, p.sink)
        else Broken(p.conn, [r.frames] + p.chunks, p.sink)
  }

  /** `send`: the request reaches the backend and its answer is on its way, or the connection is bad. */
  function Send(c: Conn, request: Request): Conn {
    match c.backend.respond(c.sent + [request])
    case None => c.(bad := true)
    case Some(r) => c.(sent := c.sent + [request], inbox := c.inbox + r)
  }

  predicate SendFails(c: Conn, request: Request) {
    c.backend.respond(c.sent + [request]).None?
  }

  /** `send_and_receive_loop`. */
  function Exchange(c: Conn, request: Request, timed: bool, sink: Sink): Pumped {
    if SendFails(c, request) then Broken(Send(c, request), [], sink) else Pump(Send(c, request), timed, sink)
  }

  /** `query`: send, and read the answer without keeping it. */
  function Ask(c: Conn, request: Request): Pumped {
    Exchange(c, request, false, Nobody)
  }

  /** `checkin_cleanup`; the connection is unusable unless `Done`. */
  function Cleanup(c: Conn): Pumped {
    var rolled := if c.inTransaction then Ask(c, Rollback()) else Done(c, [], Nobody);
    if rolled.Broken? || !rolled.conn.needsCleanup then rolled
    else
      var discarded := Ask(rolled.conn, DiscardAll());
      if discarded.Broken? then discarded
      else Done(discarded.conn.(needsCleanup := false), [], Nobody)
  }

  /** `set_name`. */
  function Renamed(c: Conn, name: Bytes): Pumped {
    if c.name == name then Done(c, [], Nobody)
    else
      var p := Ask(c.(name := name), SetName(name));
      if p.Broken? then p else Done(p.conn.(needsCleanup := c.needsCleanup), [], Nobody)
  }

  // ---------------------------------------------------------------- conservation, whatever the backend sends

  function Delivery(m: Inbound): seq<Frame> {
    if m.Stall? then [] else [m.frame]
  }

  function Delivered(s: seq<Inbound>): seq<Frame> {
    if s == [] then [] else Delivery(s[0]) + Delivered(s[1..])
  }

  /** Whether the last ReadyForQuery in `s` reported a transaction; `before` if there is none. */
  function LastReported(before: bool, s: seq<Inbound>): bool {
    if s == [] then before
    else
      var m := s[|s| - 1];
      if Is(m, READY) then Status(m.frame) != IDLE else LastReported(before, s[..|s| - 1])
  }

  /** Whether a DataRow or CopyOutResponse has come since the last ReadyForQuery in `s`. */
  function DataPending(before: bool, s: seq<Inbound>): bool {
    if s == [] then before
    else
      var m := s[|s| - 1];
      if Is(m, READY) then false
      else if Is(m, ROW) || Is(m, COPY_OUT) then true
      else DataPending(before, s[..|s| - 1])
  }

  lemma {:induction false} FlagsFirst(txn: bool, data: bool, s: seq<Inbound>)
    requires s != []
    ensures LastReported(txn, s) ==
            LastReported(if Is(s[0], READY) then Status(s[0].frame) != IDLE else txn, s[1..])
    ensures DataPending(data, s) ==
            DataPending(if Is(s[0], READY) then false else data || Is(s[0], ROW) || Is(s[0], COPY_OUT), s[1..])
  {
    if |s| > 1 {
      FlagsFirst(txn, data, s[..|s| - 1]);
      assert s[..|s| - 1][1..] == s[1..][..|s| - 2];
      assert s[1..][|s| - 2] == s[|s| - 1];
    }
  }

  /** The messages that were taken from the socket between `before` and `after`. */
  function Taken(before: Conn, after: Conn): seq<Inbound>
    requires |after.inbox| <= |before.inbox|
  {
    before.inbox[..|before.inbox| - |after.inbox|]
  }

  /** `after` has read some messages, handed on `frames`, and believes what the messages said. */
  ghost predicate Conserves(before: Conn, after: Conn, frames: seq<Frame>) {
    && |after.inbox| < |before.inbox|
    && before.inbox == Taken(before, after) + after.inbox
    && frames == before.buffer + Delivered(Taken(before, after))
    && after.buffer == []
    && after.inTransaction == LastReported(before.inTransaction, Taken(before, after))
    && after.dataAvailable == DataPending(before.dataAvailable, Taken(before, after))
    && after == before.(inbox := after.inbox, buffer := [], inTransaction := after.inTransaction,
                        dataAvailable := after.dataAvailable, needsCleanup := after.needsCleanup)
  }

  /** The connection after taking the first message from the socket. */
  function TakeOne(c: Conn): Conn
    requires c.inbox != []
  {
    var rest := c.(inbox := c.inbox[1..]);
    if c.inbox[0].Stall? then rest else Absorb(rest, c.inbox[0].frame)
  }

  /** `d` is `c` after the message `m`, as far as the reply is concerned. */
  ghost predicate HasTaken(c: Conn, m: Inbound, d: Conn) {
    && c.inbox == [m] + d.inbox
    && d.buffer == c.buffer + (if m.Stall? then [] else [m.frame])
    && d.inTransaction == (if Is(m, READY) then Status(m.frame) != IDLE else c.inTransaction)
    && d.dataAvailable == (if Is(m, READY) then false else c.dataAvailable || Is(m, ROW) || Is(m, COPY_OUT))
    && d == c.(inbox := d.inbox, buffer := d.buffer, inTransaction := d.inTransaction,
               dataAvailable := d.dataAvailable, needsCleanup := d.needsCleanup)
  }

  lemma StepTakes(c: Conn)
    requires c.inbox != []
    ensures HasTaken(c, c.inbox[0], TakeOne(c))
  {
  }

  lemma ConservesOne(c: Conn, m: Inbound, d: Conn)
    requires HasTaken(c, m, d) && m.Deliver?
    ensures Conserves(c, d.(buffer := []), d.buffer)
  {
    var t := Taken(c, d);
    assert t == [m];
    FlagsFirst(c.inTransaction, c.dataAvailable, t);
    assert t[1..] == [];
  }

  lemma ConservesMore(c: Conn, m: Inbound, c1: Conn, d: Conn, frames: seq<Frame>)
    requires HasTaken(c, m, c1) && Conserves(c1, d, frames)
    ensures Conserves(c, d, frames)
  {
    var t := Taken(c, d);
    assert t == [m] + Taken(c1, d);
    assert t[1..] == Taken(c1, d);
    FlagsFirst(c.inTransaction, c.dataAvailable, t);
    assert c.inbox == t + d.inbox;
  }

  /**
   * A chunk is exactly the messages read since the last one, whole and in order, and the
   * transaction flag is what the last ReadyForQuery said.
   */
  lemma {:induction false} RecvConserves(c: Conn, timed: bool)
    requires Recv(c, timed).Chunk?
    ensures Conserves(c, Recv(c, timed).conn, Recv(c, timed).frames)
    decreases |c.inbox|
  {
    var m := c.inbox[0];
    StepTakes(c);
    if m.Deliver? && Flushes(TakeOne(c).buffer, m.frame) {
      ConservesOne(c, m, TakeOne(c));
    } else {
      RecvConserves(TakeOne(c), timed);
      ConservesMore(c, m, TakeOne(c), Recv(c, timed).conn, Recv(c, timed).frames);
    }
  }

  lemma {:induction false} FlagsJoin(txn: bool, data: bool, s: seq<Inbound>, t: seq<Inbound>)
    ensures LastReported(LastReported(txn, s), t) == LastReported(txn, s + t)
    ensures DataPending(DataPending(data, s), t) == DataPending(data, s + t)
  {
    if t == [] {
      assert s + t == s;
    } else {
      FlagsJoin(txn, data, s, t[..|t| - 1]);
      assert (s + t)[..|s + t| - 1] == s + t[..|t| - 1];
    }
  }

  lemma Associate(a: seq<Frame>, b: seq<Frame>, c: seq<Frame>)
    ensures (a + b) + c == a + (b + c)
  {
  }

  lemma DeliveredFirst(m: Inbound, s: seq<Inbound>)
    ensures Delivered([m] + s) == Delivery(m) + Delivered(s)
  {
    assert ([m] + s)[1..] == s;
  }

  lemma {:induction false} DeliveredJoin(s: seq<Inbound>, t: seq<Inbound>)
    ensures Delivered(s + t) == Delivered(s) + Delivered(t)
  {
    if s == [] {
      assert s + t == t;
    } else {
      DeliveredJoin(s[1..], t);
      assert s + t == [s[0]] + (s[1..] + t);
      DeliveredFirst(s[0], s[1..] + t);
      Associate(Delivery(s[0]), Delivered(s[1..]), Delivered(t));
    }
  }

  lemma TakenJoin(a: Conn, b: Conn, c: Conn)
    requires |c.inbox| <= |b.inbox| <= |a.inbox|
    requires a.inbox == Taken(a, b) + b.inbox && b.inbox == Taken(b, c) + c.inbox
    ensures Taken(a, c) == Taken(a, b) + Taken(b, c) && a.inbox == Taken(a, c) + c.inbox
  {
    assert a.inbox == (Taken(a, b) + Taken(b, c)) + c.inbox;
  }

  lemma FramesJoin(buffer: seq<Frame>, s: seq<Inbound>, t: seq<Inbound>, f: seq<Frame>, g: seq<Frame>)
    requires f == buffer + Delivered(s) && g == [] + Delivered(t)
    ensures f + g == buffer + Delivered(s + t)
  {
    DeliveredJoin(s, t);
    assert g == Delivered(t);
    Associate(buffer, Delivered(s), Delivered(t));
  }

  lemma ConservesThen(a: Conn, b: Conn, c: Conn, f: seq<Frame>, g: seq<Frame>)
    requires Conserves(a, b, f) && Conserves(b, c, g)
    ensures Conserves(a, c, f + g)
  {
    TakenJoin(a, b, c);
    FramesJoin(a.buffer, Taken(a, b), Taken(b, c), f, g);
    FlagsJoin(a.inTransaction, a.dataAvailable, Taken(a, b), Taken(b, c));
  }

  function Flat(chunks: seq<seq<Frame>>): seq<Frame> {
    if chunks == [] then [] else chunks[0] + Flat(chunks[1..])
  }

  lemma {:induction false} PumpForwards(c: Conn, timed: bool, sink: Sink)
    ensures Flat(Pump(c, timed, sink).chunks) <= c.buffer + Delivered(c.inbox)
    decreases |c.inbox|
  {
    var r := Recv(c, timed);
    if r.Chunk? && sink != Client(0) {
      RecvConserves(c, timed);
      DeliveredJoin(Taken(c, r.conn), r.conn.inbox);
      Associate(c.buffer, Delivered(Taken(c, r.conn)), Delivered(r.conn.inbox));
      var more := Delivered(r.conn.inbox);
      if r.conn.dataAvailable {
        var sink1 := if sink.Nobody? then sink else Client(sink.writes - 1);
        var q := Pump(r.conn, timed, sink1);
        PumpForwards(r.conn, timed, sink1);
        assert Flat(q.chunks) <= more;
        assert ([r.frames] + q.chunks)[1..] == q.chunks;
        assert r.frames + Flat(q.chunks) <= r.frames + more;
      } else {
        assert Flat([r.frames]) == r.frames;
      }
    }
  }

  /**
   * Server to client: over a whole reply the chunks written to the client join up to exactly the
   * messages read, and the flags are what those messages said. A reply that is cut off, by a failed
   * read or write or by a timeout, has been forwarded up to some message.
   */
  lemma PumpConserves(c: Conn, timed: bool, sink: Sink)
    ensures var p := Pump(c, timed, sink);
            p.Done? ==> Conserves(c, p.conn, Flat(p.chunks)) && !p.conn.dataAvailable
    ensures Flat(Pump(c, timed, sink).chunks) <= c.buffer + Delivered(c.inbox)
  {
    PumpForwards(c, timed, sink);
    if Pump(c, timed, sink).Done? {
      PumpDone(c, timed, sink);
    }
  }

  lemma {:induction false} PumpDone(c: Conn, timed: bool, sink: Sink)
    requires Pump(c, timed, sink).Done?
    ensures var p := Pump(c, timed, sink);
            Conserves(c, p.conn, Flat(p.chunks)) && !p.conn.dataAvailable
    decreases |c.inbox|
  {
    var r := Recv(c, timed);
    RecvConserves(c, timed);
    var p := Pump(c, timed, sink);
    if !r.conn.dataAvailable {
      assert Flat([r.frames]) == r.frames;
    } else {
      var sink1 := if sink.Nobody? then sink else Client(sink.writes - 1);
      var q := Pump(r.conn, timed, sink1);
      PumpDone(r.conn, timed, sink1);
      ConservesThen(c, r.conn, q.conn, r.frames, Flat(q.chunks));
      assert p.chunks[1..] == q.chunks;
    }
  }

  /** The last message taken between `before` and `after`. */
  function LastTaken(before: Conn, after: Conn): Inbound
    requires |after.inbox| < |before.inbox|
  {
    before.inbox[|before.inbox| - |after.inbox| - 1]
  }

  predicate HandsOn(m: Inbound) {
    Is(m, READY) || Is(m, COPY_IN) || Is(m, COPY_OUT) || Is(m, ROW) || Is(m, COPY_DATA)
  }

  lemma LastTakenLater(c: Conn, m: Inbound, c1: Conn, d: Conn)
    requires c.inbox == [m] + c1.inbox && |d.inbox| < |c1.inbox|
    ensures LastTaken(c, d) == LastTaken(c1, d)
  {
  }

  /** The message that made `recv` hand its buffer on. */
  lemma {:induction false} RecvStopsAt(c: Conn, timed: bool)
    requires Recv(c, timed).Chunk?
    ensures HandsOn(LastTaken(c, Recv(c, timed).conn))
    decreases |c.inbox|
  {
    var m := c.inbox[0];
    if !(m.Deliver? && Flushes(TakeOne(c).buffer, m.frame)) {
      StepTakes(c);
      assert Recv(c, timed) == Recv(TakeOne(c), timed);
      RecvStopsAt(TakeOne(c), timed);
      LastTakenLater(c, m, TakeOne(c), Recv(c, timed).conn);
    } else {
      assert Recv(c, timed).conn.inbox == c.inbox[1..];
    }
  }

  /** Reading `r`, with `read` in the buffer already, ends before a chunk is complete. */
  predicate BreaksOff(read: seq<Frame>, r: seq<Inbound>, timed: bool)
    decreases |r|
  {
    r == [] ||
    match r[0]
    case Stall => timed || BreaksOff(read, r[1..], timed)
    case Deliver(f) =>
      (f.code == READY && !KnownStatus(f)) || (!Flushes(read + [f], f) && BreaksOff(read + [f], r[1..], timed))
  }

  lemma {:induction false} RecvBreaksOff(c: Conn, timed: bool)
    ensures Recv(c, timed).Chunk? <==> !BreaksOff(c.buffer, c.inbox, timed)
    decreases |c.inbox|
  {
    if c.inbox != [] {
      RecvBreaksOff(TakeOne(c), timed);
    }
  }

  /** The loop stopped at a message that ends a reply, or asks for or continues a copy. */
  ghost predicate StopsWell(c: Conn, d: Conn)
    requires |d.inbox| < |c.inbox|
  {
    var m := LastTaken(c, d);
    Is(m, READY) || ((Is(m, COPY_IN) || Is(m, COPY_DATA)) && !DataPending(c.dataAvailable, Taken(c, d)))
  }

  lemma StopsAtChunk(c: Conn, d: Conn, frames: seq<Frame>)
    requires Conserves(c, d, frames) && HandsOn(LastTaken(c, d)) && !d.dataAvailable
    ensures StopsWell(c, d)
  {
    var t := Taken(c, d);
    assert t[|t| - 1] == LastTaken(c, d);
  }

  lemma StopsLater(c: Conn, b: Conn, d: Conn, f: seq<Frame>, g: seq<Frame>)
    requires Conserves(c, b, f) && |d.inbox| < |b.inbox| && StopsWell(b, d)
    requires Conserves(c, d, g) && !d.dataAvailable
    ensures StopsWell(c, d)
  {
    assert LastTaken(c, d) == LastTaken(b, d);
  }

  /**
   * Whatever the backend sends, the reply loop ends well only after a ReadyForQuery, or after a
   * CopyInResponse or a CopyData with no DataRow or CopyOutResponse since the last ReadyForQuery.
   */
  lemma {:induction false} PumpStopsAt(c: Conn, timed: bool, sink: Sink)
    requires Pump(c, timed, sink).Done?
    ensures |Pump(c, timed, sink).conn.inbox| < |c.inbox| && StopsWell(c, Pump(c, timed, sink).conn)
    decreases |c.inbox|
  {
    var r := Recv(c, timed);
    var p := Pump(c, timed, sink);
    RecvConserves(c, timed);
    if !r.conn.dataAvailable {
      RecvStopsAt(c, timed);
      StopsAtChunk(c, r.conn, r.frames);
    } else {
      PumpConserves(c, timed, sink);
      PumpStopsAt(r.conn, timed, if sink.Nobody? then sink else Client(sink.writes - 1));
      StopsLater(c, r.conn, p.conn, r.frames, Flat(p.chunks));
    }
  }

  // ---------------------------------------------------------------- a backend that keeps to the grammar

  predicate Marking(m: Inbound, inTransaction: bool) {
    m.Deliver? && Alters(m.frame, inTransaction)
  }

  /** Some message of the reply is taken for a change of the session. */
  predicate Marks(r: seq<Inbound>, inTransaction: bool) {
    r != [] && (Marking(r[0], inTransaction) || Marks(r[1..], inTransaction))
  }

  /** `d` is `c` after reading all that the backend sent, up to the ReadyForQuery it ended with. */
  ghost predicate ReadToEnd(c: Conn, d: Conn) {
    && Finished(c.inbox)
    && d == c.(inbox := [], buffer := [], dataAvailable := false,
               inTransaction := Status(c.inbox[|c.inbox| - 1].frame) != IDLE,
               needsCleanup := c.needsCleanup || Marks(c.inbox, c.inTransaction))
  }

  /** The state in the middle of a reply. */
  ghost predicate MidReply(c: Conn, copying: bool) {
    AnswerFrom(c.inbox, copying) && (copying ==> c.dataAvailable)
  }

  /** `d` is `c` after a message of the reply other than its ReadyForQuery. */
  ghost predicate HasRead(c: Conn, m: Inbound, d: Conn) {
    && c.inbox == [m] + d.inbox
    && d.dataAvailable == (c.dataAvailable || Is(m, ROW) || Is(m, COPY_OUT))
    && d == c.(inbox := d.inbox, buffer := d.buffer, dataAvailable := d.dataAvailable,
               needsCleanup := c.needsCleanup || Marking(m, c.inTransaction))
  }

  lemma StepReads(c: Conn)
    requires c.inbox != [] && !Is(c.inbox[0], READY)
    ensures HasRead(c, c.inbox[0], TakeOne(c))
  {
  }

  lemma MidReplyStep(c: Conn, m: Inbound, d: Conn, copying: bool)
    requires HasRead(c, m, d) && !Is(m, READY) && MidReply(c, copying)
    ensures MidReply(d, copying || Is(m, COPY_OUT))
  {
    assert c.inbox[1..] == d.inbox;
  }

  lemma ReadToEndMore(c: Conn, m: Inbound, d: Conn, e: Conn)
    requires HasRead(c, m, d) && !Is(m, READY) && ReadToEnd(d, e)
    ensures ReadToEnd(c, e)
  {
    assert c.inbox[1..] == d.inbox;
    assert c.inbox[|c.inbox| - 1] == d.inbox[|d.inbox| - 1];
  }

  lemma ReadLast(c: Conn)
    requires c.inbox != [] && Is(c.inbox[0], READY) && |c.inbox| == 1
    ensures ReadToEnd(c, TakeOne(c).(buffer := []))
  {
    assert c.inbox[1..] == [];
  }

  /** A chunk taken in the middle of a reply either ends it or leaves `dataAvailable` set. */
  lemma {:induction false} RecvMid(c: Conn, timed: bool, copying: bool) returns (still: bool)
    requires MidReply(c, copying) && Recv(c, timed).Chunk?
    ensures var d := Recv(c, timed).conn;
            && (!d.dataAvailable ==> ReadToEnd(c, d))
            && (d.dataAvailable ==> MidReply(d, still) && forall e :: ReadToEnd(d, e) ==> ReadToEnd(c, e))
    decreases |c.inbox|
  {
    var m := c.inbox[0];
    var d := Recv(c, timed).conn;
    still := copying;
    if Is(m, READY) {
      ReadLast(c);
    } else {
      StepReads(c);
      var c1 := TakeOne(c);
      MidReplyStep(c, m, c1, copying);
      if m.Deliver? && Flushes(c1.buffer, m.frame) {
        still := copying || Is(m, COPY_OUT);
        HasReadFlushed(c, m, c1);
        forall e | ReadToEnd(d, e) ensures ReadToEnd(c, e) {
          ReadToEndMore(c, m, d, e);
        }
      } else {
        still := RecvMid(c1, timed, copying || Is(m, COPY_OUT));
        forall e | ReadToEnd(c1, e) ensures ReadToEnd(c, e) {
          ReadToEndMore(c, m, c1, e);
        }
      }
    }
  }

  lemma HasReadFlushed(c: Conn, m: Inbound, d: Conn)
    requires HasRead(c, m, d)
    ensures HasRead(c, m, d.(buffer := []))
  {
  }

  /** With a backend that keeps to the grammar, a reply is read to its end or the connection is bad. */
  lemma {:induction false} PumpMid(c: Conn, timed: bool, sink: Sink, copying: bool)
    requires MidReply(c, copying)
    ensures var p := Pump(c, timed, sink);
            if p.Done? then ReadToEnd(c, p.conn) else p.conn.bad
    decreases |c.inbox|
  {
    var r := Recv(c, timed);
    if r.Chunk? {
      var still := RecvMid(c, timed, copying);
      if r.conn.dataAvailable && sink != Client(0) {
        PumpMid(r.conn, timed, if sink.Nobody? then sink else Client(sink.writes - 1), still);
      }
    }
  }

  // ---------------------------------------------------------------- hygiene of single operations

  /** Nothing is owed in either direction, and the transaction flag is true of the backend. */
  ghost predicate InSync(c: Conn) {
    && PostgreSQL(c.backend)
    && !c.bad && c.inbox == [] && c.buffer == [] && !c.dataAvailable
    && c.inTransaction == (c.backend.status(c.sent) != IDLE)
  }

  /** Fit for the next client. */
  ghost predicate Clean(c: Conn) {
    InSync(c) && !c.inTransaction && !c.needsCleanup
  }

  /** What the backend answers to `request`. */
  function Reply(c: Conn, request: Request): seq<Inbound>
    requires !SendFails(c, request)
  {
    c.backend.respond(c.sent + [request]).value
  }

  /** A request to a connection in sync leaves it in sync, or bad. */
  lemma ExchangeKeepsSync(c: Conn, request: Request, timed: bool, sink: Sink)
    requires InSync(c)
    ensures var p := Exchange(c, request, timed, sink);
            if p.Broken? then p.conn.bad
            else
              && InSync(p.conn)
              && p.conn.sent == c.sent + [request] && p.conn.backend == c.backend && p.conn.name == c.name
              && !SendFails(c, request) && Finished(Reply(c, request))
              && p.conn.needsCleanup == (c.needsCleanup || Marks(Reply(c, request), c.inTransaction))
  {
    if !SendFails(c, request) {
      var d := Send(c, request);
      assert d.inbox == Reply(c, request);
      PumpMid(d, timed, sink, false);
    }
  }

  /** The client is sent exactly what the backend answered to its request. */
  lemma ExchangeDeliversReply(c: Conn, request: Request, timed: bool, sink: Sink)
    requires InSync(c) && Exchange(c, request, timed, sink).Done?
    ensures Flat(Exchange(c, request, timed, sink).chunks) == Delivered(Reply(c, request))
  {
    var d := Send(c, request);
    var p := Pump(d, timed, sink);
    ExchangeKeepsSync(c, request, timed, sink);
    PumpConserves(d, timed, sink);
    assert Taken(d, p.conn) == d.inbox;
    assert [] + Reply(c, request) == Reply(c, request);
    assert [] + Delivered(d.inbox) == Delivered(d.inbox);
  }

  /** `checkin_cleanup` makes a connection in sync fit for the next client, or bad. */
  lemma CleanupCleans(c: Conn)
    requires InSync(c)
    ensures var p := Cleanup(c);
            if p.Done? then Clean(p.conn) else p.conn.bad
  {
    var d := c;
    if c.inTransaction {
      ExchangeKeepsSync(c, Rollback(), false, Nobody);
      d := Ask(c, Rollback()).conn;
    }
    if !d.bad && d.needsCleanup {
      ExchangeKeepsSync(d, DiscardAll(), false, Nobody);
    }
  }

  /** `set_name` keeps a connection in sync and its cleanup flag as it was, or makes it bad. */
  lemma RenameKeepsSync(c: Conn, name: Bytes)
    requires InSync(c)
    ensures var p := Renamed(c, name);
            if p.Broken? then p.conn.bad
            else InSync(p.conn) && p.conn.needsCleanup == c.needsCleanup
  {
    if c.name != name {
      ExchangeKeepsSync(c.(name := name), SetName(name), false, Nobody);
    }
  }

  // ---------------------------------------------------------------- session state left behind

  /** A Parse that names its statement. */
  predicate NamesStatement(f: Frame) {
    f.code == 'P' as int && |f.body| > 0 && f.body[0] != 0
  }

  predicate HasNamedParse(request: Request) {
    exists i :: 0 <= i < |request| && NamesStatement(request[i])
  }

  const QUOTE: byte := '\'' as int

  /**
   * Put between quotes, the name does not end the literal early: its quotes come in pairs, which
   * stand for one each. A single one at the very end leaves the literal open, and the SET fails.
   */
  predicate StaysQuoted(name: Bytes) {
    name == [] ||
    if name[0] != QUOTE then StaysQuoted(name[1..])
    else |name| == 1 || (name[1] == QUOTE && StaysQuoted(name[2..]))
  }

  lemma {:induction false} UnquotedStaysQuoted(name: Bytes)
    requires QUOTE !in name
    ensures StaysQuoted(name)
  {
    if name != [] {
      assert name[0] in name;
      UnquotedStaysQuoted(name[1..]);
    }
  }

  /** Some SET completes in the reply. */
  predicate Sets(r: seq<Inbound>) {
    r != [] && ((Is(r[0], COMPLETE) && r[0].frame.body == SET_TAG) || Sets(r[1..]))
  }

  /**
   * How a session comes to hold variables and prepared statements of a client: by a SET or PREPARE
   * that completes or by a named Parse, and not by setting application_name, which is not counted.
   */
  ghost predicate SessionLaws(b: Backend) {
    && (forall h, m :: b.dirty(h + [m]) && !b.dirty(h) ==>
          HasNamedParse(m) || (b.respond(h + [m]).Some? && Marks(b.respond(h + [m]).value, false)))
    && (forall h, name :: StaysQuoted(name) && b.dirty(h + [SetName(name)]) ==> b.dirty(h))
  }

  /** DISCARD ALL outside a transaction does what it says. */
  ghost predicate DiscardWorks(b: Backend) {
    forall h :: b.status(h) == IDLE && b.respond(h + [DiscardAll()]).Some? ==> !b.dirty(h + [DiscardAll()])
  }

  /** The cleanup flag is set whenever the session has been altered. */
  ghost predicate Tracked(c: Conn) {
    && InSync(c)
    && SessionLaws(c.backend) && DiscardWorks(c.backend)
    && (c.backend.dirty(c.sent) ==> c.needsCleanup)
  }

  /** Fit for the next client, with nothing of an earlier one left in its session. */
  ghost predicate Pristine(c: Conn) {
    Tracked(c) && Clean(c) && !c.backend.dirty(c.sent)
  }

  lemma {:induction false} OnlySetHides(r: seq<Inbound>)
    requires Marks(r, false) && !Sets(r)
    ensures Marks(r, true)
  {
    if !Marking(r[0], false) {
      OnlySetHides(r[1..]);
    }
  }

  lemma {:induction false} SettingMarks(r: seq<Inbound>)
    requires Sets(r)
    ensures Marks(r, false)
  {
    if !(Is(r[0], COMPLETE) && r[0].frame.body == SET_TAG) {
      SettingMarks(r[1..]);
    }
  }

  /** Exactly when a change that completes in a reply is flagged: not if it is a SET inside a transaction. */
  lemma ChangeFlaggedExactly(c: Conn, request: Request, timed: bool, sink: Sink)
    requires InSync(c) && Exchange(c, request, timed, sink).Done?
    ensures var r := Reply(c, request);
            var d := Exchange(c, request, timed, sink).conn;
            (Marks(r, false) ==> d.needsCleanup) <==>
            c.needsCleanup || !c.inTransaction || !Sets(r) || Marks(r, true)
  {
    ExchangeKeepsSync(c, request, timed, sink);
    var r := Reply(c, request);
    if Sets(r) {
      SettingMarks(r);
    } else if Marks(r, false) {
      OnlySetHides(r);
    }
  }

  /**
   * One request: the flag goes on covering every change of the session, provided that a named Parse
   * was flagged before it was sent and that no SET completes inside a transaction.
   */
  lemma ExchangeTracks(c: Conn, request: Request, timed: bool, sink: Sink)
    requires Tracked(c)
    requires HasNamedParse(request) ==> c.needsCleanup
    requires c.inTransaction && !SendFails(c, request) ==> !Sets(Reply(c, request))
    ensures var p := Exchange(c, request, timed, sink);
            if p.Done? then Tracked(p.conn) else p.conn.bad
  {
    ExchangeKeepsSync(c, request, timed, sink);
    var p := Exchange(c, request, timed, sink);
    if p.Done? && c.backend.dirty(p.conn.sent) && !c.backend.dirty(c.sent) && !HasNamedParse(request) {
      assert Marks(Reply(c, request), false);
      if c.inTransaction {
        OnlySetHides(Reply(c, request));
      }
    }
  }

  lemma OwnQueriesNameNothing(sql: Bytes)
    ensures !HasNamedParse(Query(sql))
  {
  }

  /** ROLLBACK completes as itself, never as a SET. */
  ghost predicate RollbackIsPlain(b: Backend) {
    forall h :: b.respond(h + [Rollback()]).Some? ==> !Sets(b.respond(h + [Rollback()]).value)
  }

  /** `checkin_cleanup` leaves nothing behind. */
  lemma CleanupErases(c: Conn)
    requires Tracked(c) && RollbackIsPlain(c.backend)
    ensures var p := Cleanup(c);
            if p.Done? then Pristine(p.conn) && p.conn.backend == c.backend else p.conn.bad
  {
    CleanupCleans(c);
    var d := c;
    if c.inTransaction {
      OwnQueriesNameNothing(Ascii("ROLLBACK"));
      ExchangeTracks(c, Rollback(), false, Nobody);
      ExchangeKeepsSync(c, Rollback(), false, Nobody);
      d := Ask(c, Rollback()).conn;
    }
    if !d.bad && d.needsCleanup {
      ExchangeKeepsSync(d, DiscardAll(), false, Nobody);
    }
  }

  /** `set_name` puts the flag back as it was, and that never hides a change made by a client. */
  lemma RenameTracks(c: Conn, name: Bytes)
    requires Tracked(c) && StaysQuoted(name)
    ensures var p := Renamed(c, name);
            if p.Done? then Tracked(p.conn) && p.conn.needsCleanup == c.needsCleanup else p.conn.bad
  {
    RenameKeepsSync(c, name);
    if c.name != name {
      ExchangeKeepsSync(c.(name := name), SetName(name), false, Nobody);
    }
  }
}
