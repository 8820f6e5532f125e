/**
 * Any number of clients over one pool of connections, in every interleaving of their steps: what
 * the idle connections are fit for, and what the shared map used for query cancellation says.
 */
module Pooler {
  import opened Wire
  import opened Connection
  import opened Session

  /** The process id and secret that the pooler gave a client. */
  type Key = (int, int)

  /** What a cancel request needs to name a backend. */
  datatype Ident = Ident(processId: int, secret: int, host: string, port: nat)

  /** Where a client's task stands. */
  datatype Stage =
    | Waiting                            // at the top of the outer loop
    | Holding(id: Ident)                 // got a connection from the pool
    | Naming(id: Ident)                  // claimed it
    | Working(id: Ident)                 // inside the inner loop
    | Finishing(id: Ident, again: bool)  // cleaned it up, to go on or to stop for good
    | Released(id: Ident, again: bool)   // taken itself off the map
    | Failing(id: Ident)                 // leaving with an error
    | Dying                              // has let go of its connection, not yet dropped

  datatype Member = Member(stage: Stage, held: seq<Frame>, writes: nat)

  datatype State = State(
    clients: map<Key, Member>,
    idle: map<Ident, Conn>,
    out: map<Ident, Conn>,
    cancel: map<Key, Ident>)

  datatype Action =
    | Arrive(key: Key, writes: nat)
    | Connect(id: Ident, conn: Conn)                  // the pool opens a connection
    | Buffer(key: Key, frame: Frame)                  // a message kept for the Sync to come
    | Answer(key: Key, forget: bool)                  // the pooler answers, and after a refused Sync forgets the batch
    | Checkout(key: Key, id: Ident, probe: bool)      // with or without a health check
    | Claim(key: Key)
    | Name(key: Key, name: Bytes)
    | Serve(key: Key, st: Settings, input: Input)     // one turn of the inner loop
    | Release(key: Key)
    | GiveBack(key: Key)
    | Depart(key: Key)                                // leaving from the outer loop
    | Drop(key: Key)

  function HealthCheck(): Request {
    Query(Ascii(";"))
  }

  function SetStage(s: State, k: Key, stage: Stage): State
    requires k in s.clients
  {
    s.(clients := s.clients[k := s.clients[k].(stage := stage)])
  }

  /** A client changes in its outer loop. */
  function Outside(s: State, k: Key, m: Member): State {
    s.(clients := s.clients[k := m])
  }

  /** An answer takes two writes; a client that cannot be written to is on its way out. */
  function Answered(m: Member, forget: bool): Member {
    var held := if forget then [] else m.held;
    if m.writes < 2 then Member(Dying, held, 0) else Member(Waiting, held, m.writes - 2)
  }

  predicate HasConnection(stage: Stage) {
    !stage.Waiting? && !stage.Dying?
  }

  /** The client's task is between its claim and its release. */
  predicate OnTheMap(stage: Stage) {
    stage.Naming? || stage.Working? || stage.Finishing? || stage.Failing?
  }

  function CheckedOut(s: State, k: Key, id: Ident, probe: bool): State
    requires k in s.clients && id in s.idle
  {
    if !probe then SetStage(s, k, Holding(id)).(idle := s.idle - {id}, out := s.out[id := s.idle[id]])
    else
      var p := Ask(s.idle[id], HealthCheck());
      if p.Broken? then s.(idle := s.idle - {id})
      else SetStage(s, k, Holding(id)).(idle := s.idle - {id}, out := s.out[id := p.conn])
  }

  function Served(s: State, k: Key, id: Ident, st: Settings, input: Input): State
    requires k in s.clients && id in s.out
  {
    var m := s.clients[k];
    var t := Iterate(st, s.out[id], m.held, m.writes, input);
    var done := if t.next == Leave then Cleanup(t.conn).conn else t.conn;
    var stage :=
      if t.next == Stay then Working(id)
      else if done.bad then Failing(id)
      else if t.next == Leave then Finishing(id, true)
      else if t.next == Quit(Terminated) then Finishing(id, false)
      else Failing(id);
    s.(clients := s.clients[k := Member(stage, t.held, t.writes)], out := s.out[id := done])
  }

  function GivenBack(s: State, k: Key, id: Ident, stage: Stage): State
    requires k in s.clients && id in s.out
  {
    var c := s.out[id];
    var s1 := SetStage(s, k, stage).(out := s.out - {id});
    if c.bad then s1 else s1.(idle := s1.idle[id := c])
  }

  /** One step of one task; a step that is not due changes nothing. */
  function Apply(s: State, a: Action): State {
    match a
    case Arrive(k, writes) =>
      if k in s.clients then s else s.(clients := s.clients[k := Member(Waiting, [], writes)])
    case Connect(id, c) =>
      if id in s.idle || id in s.out then s else s.(idle := s.idle[id := c])
    case Buffer(k, f) =>
      if k in s.clients && s.clients[k].stage.Waiting? && Extended(f) then
        Outside(s, k, s.clients[k].(held := s.clients[k].held + [f]))
      else s
    case Answer(k, forget) =>
      if k in s.clients && s.clients[k].stage.Waiting? then Outside(s, k, Answered(s.clients[k], forget)) else s
    case Checkout(k, id, probe) =>
      if k in s.clients && s.clients[k].stage.Waiting? && id in s.idle then CheckedOut(s, k, id, probe) else s
    case Claim(k) =>
      if k in s.clients && s.clients[k].stage.Holding? then
        var id := s.clients[k].stage.id;
        SetStage(s, k, Naming(id)).(cancel := s.cancel[k := id])
      else s
    case Name(k, name) =>
      if k in s.clients && s.clients[k].stage.Naming? && s.clients[k].stage.id in s.out then
        var id := s.clients[k].stage.id;
        var p := Renamed(s.out[id], name);
        SetStage(s, k, if p.Done? then Working(id) else Failing(id)).(out := s.out[id := p.conn])
      else s
    case Serve(k, st, input) =>
      if k in s.clients && s.clients[k].stage.Working? && s.clients[k].stage.id in s.out then
        Served(s, k, s.clients[k].stage.id, st, input)
      else s
    case Release(k) =>
      if k in s.clients && s.clients[k].stage.Finishing? then
        SetStage(s, k, Released(s.clients[k].stage.id, s.clients[k].stage.again)).(cancel := s.cancel - {k})
      else s
    case GiveBack(k) =>
      if && k in s.clients && (s.clients[k].stage.Released? || s.clients[k].stage.Failing?)
         && s.clients[k].stage.id in s.out then
        var stage := s.clients[k].stage;
        GivenBack(s, k, stage.id, if stage.Released? && stage.again then Waiting else Dying)
      else s
    case Depart(k) =>
      if k in s.clients && s.clients[k].stage.Waiting? then SetStage(s, k, Dying) else s
    case Drop(k) =>
      if k in s.clients && s.clients[k].stage.Dying? then
        s.(clients := s.clients - {k}, cancel := s.cancel - {k})
      else s
  }

  function Run(s: State, actions: seq<Action>): State
    decreases |actions|
  {
    if actions == [] then s else Run(Apply(s, actions[0]), actions[1..])
  }

  const EMPTY: State := State(map[], map[], map[], map[])

  // ---------------------------------------------------------------- who holds what

  /** A connection is idle or lent, never both, and is never lent twice. */
  ghost predicate Exclusive(s: State) {
    && (forall id :: id in s.idle ==> id !in s.out)
    && (forall k :: k in s.clients && HasConnection(s.clients[k].stage) ==> s.clients[k].stage.id in s.out)
    && (forall k, l | k in s.clients && l in s.clients && k != l ::
          HasConnection(s.clients[k].stage) && HasConnection(s.clients[l].stage) ==>
            s.clients[k].stage.id != s.clients[l].stage.id)
  }

  /** Between claim and release a client's entry names its connection; otherwise only the dying have one. */
  ghost predicate MapIsRight(s: State) {
    && (forall k :: k in s.cancel ==> k in s.clients)
    && (forall k :: k in s.clients && OnTheMap(s.clients[k].stage) ==>
          k in s.cancel && s.cancel[k] == s.clients[k].stage.id)
    && (forall k :: k in s.clients && !OnTheMap(s.clients[k].stage) && !s.clients[k].stage.Dying? ==> k !in s.cancel)
  }

  ghost predicate Ledger(s: State) {
    Exclusive(s) && MapIsRight(s)
  }

  /** A client goes on with the connection it has. */
  lemma GoOnExclusively(s: State, k: Key, m: Member, out: map<Ident, Conn>)
    requires Exclusive(s) && k in s.clients && HasConnection(s.clients[k].stage)
    requires HasConnection(m.stage) && m.stage.id == s.clients[k].stage.id && out.Keys == s.out.Keys
    ensures Exclusive(s.(clients := s.clients[k := m], out := out))
  {
  }

  lemma LendExclusively(s: State, k: Key, id: Ident, c: Conn)
    requires Exclusive(s) && k in s.clients && s.clients[k].stage.Waiting? && id in s.idle
    ensures Exclusive(SetStage(s, k, Holding(id)).(idle := s.idle - {id}, out := s.out[id := c]))
  {
  }

  lemma RetireExclusively(s: State, k: Key, stage: Stage)
    requires Exclusive(s) && k in s.clients && HasConnection(s.clients[k].stage) && !HasConnection(stage)
    ensures Exclusive(SetStage(s, k, stage).(out := s.out - {s.clients[k].stage.id}))
  {
  }

  /** A client changes, and its entry with it. */
  lemma ChangeKeepsMap(s: State, k: Key, m: Member, cancel: map<Key, Ident>)
    requires MapIsRight(s) && k in s.clients
    requires cancel - {k} == s.cancel - {k}
    requires OnTheMap(m.stage) ==> k in cancel && cancel[k] == m.stage.id
    requires !OnTheMap(m.stage) && !m.stage.Dying? ==> k !in cancel
    ensures MapIsRight(s.(clients := s.clients[k := m], cancel := cancel))
  {
    forall l ensures l != k ==> (l in cancel <==> l in s.cancel) && (l in cancel ==> cancel[l] == s.cancel[l]) {
      assert l in cancel - {k} <==> l in s.cancel - {k};
      if l != k && l in cancel {
        assert (cancel - {k})[l] == (s.cancel - {k})[l];
      }
    }
  }

  /** A client moves on, with or without a new state of its connection. */
  lemma GoOnKeepsLedger(s: State, k: Key, m: Member, out: map<Ident, Conn>, cancel: map<Key, Ident>)
    requires Ledger(s) && k in s.clients && HasConnection(s.clients[k].stage)
    requires HasConnection(m.stage) && m.stage.id == s.clients[k].stage.id && out.Keys == s.out.Keys
    requires cancel - {k} == s.cancel - {k}
    requires if OnTheMap(m.stage) then k in cancel && cancel[k] == m.stage.id else k !in cancel
    ensures Ledger(s.(clients := s.clients[k := m], out := out, cancel := cancel))
  {
    GoOnExclusively(s, k, m, out);
    ChangeKeepsMap(s, k, m, cancel);
  }

  lemma CheckoutKeepsLedger(s: State, k: Key, id: Ident, probe: bool)
    requires Ledger(s) && k in s.clients && s.clients[k].stage.Waiting? && id in s.idle
    ensures Ledger(CheckedOut(s, k, id, probe))
  {
    var p := Ask(s.idle[id], HealthCheck());
    if !probe || p.Done? {
      LendExclusively(s, k, id, if probe then p.conn else s.idle[id]);
      ChangeKeepsMap(s, k, s.clients[k].(stage := Holding(id)), s.cancel);
    }
  }

  lemma GiveBackKeepsLedger(s: State, k: Key, id: Ident, stage: Stage)
    requires Ledger(s) && k in s.clients && id in s.out
    requires s.clients[k].stage.Released? || s.clients[k].stage.Failing?
    requires s.clients[k].stage.id == id
    requires stage == Dying || (stage == Waiting && s.clients[k].stage.Released?)
    ensures Ledger(GivenBack(s, k, id, stage))
  {
    RetireExclusively(s, k, stage);
    ChangeKeepsMap(s, k, s.clients[k].(stage := stage), s.cancel);
    ConnectKeepsLedger(SetStage(s, k, stage).(out := s.out - {id}), id, s.out[id]);
  }

  lemma ServeKeepsLedger(s: State, k: Key, st: Settings, input: Input)
    requires Ledger(s) && k in s.clients && s.clients[k].stage.Working?
    ensures s.clients[k].stage.id in s.out && Ledger(Served(s, k, s.clients[k].stage.id, st, input))
  {
    var id := s.clients[k].stage.id;
    var d := Served(s, k, id, st, input);
    GoOnKeepsLedger(s, k, d.clients[k], d.out, s.cancel);
  }

  lemma ArriveKeepsLedger(s: State, k: Key, writes: nat)
    requires Ledger(s) && k !in s.clients
    ensures Ledger(s.(clients := s.clients[k := Member(Waiting, [], writes)]))
  {
  }

  lemma DropKeepsLedger(s: State, k: Key)
    requires Ledger(s) && k in s.clients && s.clients[k].stage.Dying?
    ensures Ledger(s.(clients := s.clients - {k}, cancel := s.cancel - {k}))
  {
  }

  lemma ClaimKeepsLedger(s: State, k: Key)
    requires Ledger(s) && k in s.clients && s.clients[k].stage.Holding?
    ensures Ledger(Apply(s, Claim(k)))
  {
    var id := s.clients[k].stage.id;
    assert s.cancel[k := id] - {k} == s.cancel - {k};
    GoOnKeepsLedger(s, k, s.clients[k].(stage := Naming(id)), s.out, s.cancel[k := id]);
  }

  lemma NameKeepsLedger(s: State, k: Key, name: Bytes)
    requires Ledger(s) && k in s.clients && s.clients[k].stage.Naming?
    ensures Ledger(Apply(s, Name(k, name)))
  {
    var d := Apply(s, Name(k, name));
    GoOnKeepsLedger(s, k, d.clients[k], d.out, s.cancel);
  }

  lemma ReleaseKeepsLedger(s: State, k: Key)
    requires Ledger(s) && k in s.clients && s.clients[k].stage.Finishing?
    ensures Ledger(Apply(s, Release(k)))
  {
    assert (s.cancel - {k}) - {k} == s.cancel - {k};
    GoOnKeepsLedger(s, k, Apply(s, Release(k)).clients[k], s.out, s.cancel - {k});
  }

  lemma OutsideKeepsLedger(s: State, k: Key, m: Member)
    requires Ledger(s) && k in s.clients && s.clients[k].stage.Waiting? && (m.stage.Waiting? || m.stage.Dying?)
    ensures Ledger(Outside(s, k, m))
  {
    ChangeKeepsMap(s, k, m, s.cancel);
  }

  lemma ConnectKeepsLedger(s: State, id: Ident, c: Conn)
    requires Ledger(s)
    ensures Ledger(Apply(s, Connect(id, c)))
  {
  }

  /** Every step of every task keeps the books, whatever clients and servers do. */
  lemma ApplyKeepsLedger(s: State, a: Action)
    requires Ledger(s)
    ensures Ledger(Apply(s, a))
  {
    match a
    case Arrive(k, writes) =>
      if k !in s.clients {
        ArriveKeepsLedger(s, k, writes);
      }
    case Connect(id, c) => ConnectKeepsLedger(s, id, c);
    case Buffer(k, f) =>
      if k in s.clients && s.clients[k].stage.Waiting? {
        OutsideKeepsLedger(s, k, s.clients[k].(held := s.clients[k].held + [f]));
      }
    case Answer(k, forget) =>
      if k in s.clients && s.clients[k].stage.Waiting? {
        OutsideKeepsLedger(s, k, Answered(s.clients[k], forget));
      }
    case Checkout(k, id, probe) =>
      if k in s.clients && s.clients[k].stage.Waiting? && id in s.idle {
        CheckoutKeepsLedger(s, k, id, probe);
      }
    case Claim(k) =>
      if k in s.clients && s.clients[k].stage.Holding? {
        ClaimKeepsLedger(s, k);
      }
    case Name(k, name) =>
      if k in s.clients && s.clients[k].stage.Naming? {
        NameKeepsLedger(s, k, name);
      }
    case Serve(k, st, input) =>
      if k in s.clients && s.clients[k].stage.Working? {
        ServeKeepsLedger(s, k, st, input);
      }
    case Release(k) =>
      if k in s.clients && s.clients[k].stage.Finishing? {
        ReleaseKeepsLedger(s, k);
      }
    case GiveBack(k) =>
      if k in s.clients && (s.clients[k].stage.Released? || s.clients[k].stage.Failing?) {
        var stage := s.clients[k].stage;
        GiveBackKeepsLedger(s, k, stage.id, if stage.Released? && stage.again then Waiting else Dying);
      }
    case Depart(k) =>
      if k in s.clients && s.clients[k].stage.Waiting? {
        OutsideKeepsLedger(s, k, s.clients[k].(stage := Dying));
      }
    case Drop(k) =>
      if k in s.clients && s.clients[k].stage.Dying? {
        DropKeepsLedger(s, k);
      }
  }

  lemma {:induction false} RunKeepsLedger(s: State, actions: seq<Action>)
    requires Ledger(s)
    ensures Ledger(Run(s, actions))
    decreases |actions|
  {
    if actions != [] {
      ApplyKeepsLedger(s, actions[0]);
      RunKeepsLedger(Apply(s, actions[0]), actions[1..]);
    }
  }

  /**
   * In every interleaving, a client at the top of its outer loop has no entry in the cancel map; a
   * client in its inner loop has one, and it names the connection it holds; and two such clients
   * never name the same connection.
   */
  lemma CancelMapInvariant(actions: seq<Action>, k: Key, l: Key)
    ensures var s := Run(EMPTY, actions);
            && (k in s.clients && s.clients[k].stage.Waiting? ==> k !in s.cancel)
            && (k in s.clients && s.clients[k].stage.Working? ==>
                  k in s.cancel && s.cancel[k] == s.clients[k].stage.id && s.cancel[k] in s.out)
            && (k in s.clients && l in s.clients && k != l
                  && s.clients[k].stage.Working? && s.clients[l].stage.Working? ==>
                  l in s.cancel && s.cancel[k] != s.cancel[l])
  {
    RunKeepsLedger(EMPTY, actions);
  }

  /**
   * Exactly when an entry of the map can mislead: it names a connection that its client does not
   * hold exactly when the client has left its session and has not been dropped yet.
   */
  lemma StaleExactlyWhileDying(actions: seq<Action>, k: Key)
    requires k in Run(EMPTY, actions).cancel
    ensures var s := Run(EMPTY, actions);
            && k in s.clients
            && (s.clients[k].stage.Dying? <==>
                  !(HasConnection(s.clients[k].stage) && s.cancel[k] == s.clients[k].stage.id))
  {
    RunKeepsLedger(EMPTY, actions);
  }

  // ---------------------------------------------------------------- an entry that names another's connection

  /** A client with a connection of its own in good order hangs up; its connection goes back to the pool. */
  function HangUp(k: Key, id: Ident, c: Conn, st: Settings, writes: nat): seq<Action> {
    [Connect(id, c), Arrive(k, writes), Checkout(k, id, false), Claim(k), Name(k, c.name),
     Serve(k, st, Disconnect), GiveBack(k)]
  }

  lemma {:induction false} RunJoin(s: State, a: seq<Action>, b: seq<Action>)
    ensures Run(s, a + b) == Run(Run(s, a), b)
    decreases |a|
  {
    if a == [] {
      assert a + b == b;
    } else {
      RunJoin(Apply(s, a[0]), a[1..], b);
      assert (a + b)[1..] == a[1..] + b;
    }
  }

  lemma RunOne(s: State, a: Action)
    ensures Run(s, [a]) == Apply(s, a)
  {
    assert [a][1..] == [];
  }

  lemma RunThree(s: State, a: Action, b: Action, c: Action)
    ensures Run(s, [a, b, c]) == Apply(Apply(Apply(s, a), b), c)
  {
    assert [a, b, c][1..] == [b, c] && [b, c][1..] == [c] && [c][1..] == [];
    assert Run(s, [a, b, c]) == Run(Apply(s, a), [b, c]);
    assert Run(Apply(s, a), [b, c]) == Run(Apply(Apply(s, a), b), [c]);
  }

  /** One client, alone, inside its inner loop. */
  function Alone(k: Key, id: Ident, c: Conn, writes: nat): State {
    State(map[k := Member(Working(id), [], writes)], map[], map[id := c], map[k := id])
  }

  lemma GetsToWork(k: Key, id: Ident, c: Conn, writes: nat)
    ensures Run(EMPTY, [Connect(id, c), Arrive(k, writes), Checkout(k, id, false), Claim(k), Name(k, c.name)]) ==
            Alone(k, id, c, writes)
  {
    var first, next := [Connect(id, c), Arrive(k, writes), Checkout(k, id, false)], [Claim(k), Name(k, c.name)];
    RunThree(EMPTY, first[0], first[1], first[2]);
    var s := Run(EMPTY, first);
    assert s == State(map[k := Member(Holding(id), [], writes)], map[], map[id := c], map[]);
    RunJoin(EMPTY, first, next);
    assert first + next == [Connect(id, c), Arrive(k, writes), Checkout(k, id, false), Claim(k), Name(k, c.name)];
    var t := Apply(s, Claim(k));
    assert t == State(map[k := Member(Naming(id), [], writes)], map[], map[id := c], map[k := id]);
    assert Renamed(c, c.name) == Done(c, [], Nobody);
    assert Apply(t, Name(k, c.name)) == Alone(k, id, c, writes);
    RunJoin(s, [Claim(k)], [Name(k, c.name)]);
    assert [Claim(k)] + [Name(k, c.name)] == next;
    RunOne(s, Claim(k));
    RunOne(t, Name(k, c.name));
  }

  /** It has hung up, and is not dropped yet. */
  function Lingering(k: Key, id: Ident, c: Conn, writes: nat): State {
    State(map[k := Member(Dying, [], writes)], map[id := c], map[], map[k := id])
  }

  lemma HangsUp(k: Key, id: Ident, c: Conn, st: Settings, writes: nat)
    requires Clean(c)
    ensures Run(EMPTY, HangUp(k, id, c, st, writes)) == Lingering(k, id, c, writes)
  {
    var working := [Connect(id, c), Arrive(k, writes), Checkout(k, id, false), Claim(k), Name(k, c.name)];
    var s := Alone(k, id, c, writes);
    GetsToWork(k, id, c, writes);
    RunJoin(EMPTY, working, [Serve(k, st, Disconnect), GiveBack(k)]);
    assert working + [Serve(k, st, Disconnect), GiveBack(k)] == HangUp(k, id, c, st, writes);
    assert Cleanup(c) == Done(c, [], Nobody);
    var t := Apply(s, Serve(k, st, Disconnect));
    assert t == State(map[k := Member(Failing(id), [], writes)], map[], map[id := c], map[k := id]);
    assert Apply(t, GiveBack(k)) == Lingering(k, id, c, writes);
    RunJoin(s, [Serve(k, st, Disconnect)], [GiveBack(k)]);
    assert [Serve(k, st, Disconnect)] + [GiveBack(k)] == [Serve(k, st, Disconnect), GiveBack(k)];
    RunOne(s, Serve(k, st, Disconnect));
    RunOne(t, GiveBack(k));
  }

  /**
   * In that window another client can be given the same connection, and both entries name it: after
   * the first client hangs up, a second one arrives, checks the connection out and claims it.
   */
  lemma StaleEntryNamesAnother(dying: Key, other: Key, id: Ident, c: Conn, st: Settings, writes: nat)
    requires dying != other && Clean(c)
    ensures var actions := HangUp(dying, id, c, st, writes) +
                           [Arrive(other, 0), Checkout(other, id, false), Claim(other)];
            var s := Run(EMPTY, actions);
            && dying in s.cancel && other in s.cancel && s.cancel[dying] == s.cancel[other] == id
            && dying in s.clients && s.clients[dying].stage.Dying?
            && other in s.clients && s.clients[other].stage == Naming(id)
  {
    var s := Lingering(dying, id, c, writes);
    HangsUp(dying, id, c, st, writes);
    RunJoin(EMPTY, HangUp(dying, id, c, st, writes), [Arrive(other, 0), Checkout(other, id, false), Claim(other)]);
    RunThree(s, Arrive(other, 0), Checkout(other, id, false), Claim(other));
  }

  // ---------------------------------------------------------------- what the connections are fit for

  /** Two grades of fitness: by the flags of the connection alone, or with nothing left in its session. */
  datatype Grade = ByFlags | BySession

  /** Fit to be worked with. */
  ghost predicate Sound(g: Grade, c: Conn) {
    match g case ByFlags => InSync(c) case BySession => Followed(c)
  }

  /** Fit for the next client. */
  ghost predicate Ready(g: Grade, c: Conn) {
    match g case ByFlags => Clean(c) case BySession => Spotless(c)
  }

  /** What the connection of a client is known to be, stage by stage. */
  ghost predicate FitFor(g: Grade, stage: Stage, c: Conn) {
    match stage
    case Holding(_) => Sound(g, c)
    case Naming(_) => Sound(g, c)
    case Working(_) => Sound(g, c)
    case Finishing(_, _) => Ready(g, c)
    case Released(_, _) => Ready(g, c)
    case Failing(_) => c.bad || Ready(g, c)
    case _ => true
  }

  ghost predicate IdleAreReady(g: Grade, s: State) {
    forall id :: id in s.idle ==> Ready(g, s.idle[id])
  }

  ghost predicate LentAreFit(g: Grade, s: State) {
    forall k :: k in s.clients && HasConnection(s.clients[k].stage) && s.clients[k].stage.id in s.out ==>
      FitFor(g, s.clients[k].stage, s.out[s.clients[k].stage.id])
  }

  ghost predicate Inv(g: Grade, s: State) {
    Ledger(s) && IdleAreReady(g, s) && LentAreFit(g, s)
  }

  ghost predicate Due(s: State, k: Key) {
    k in s.clients && s.clients[k].stage.Working? && s.clients[k].stage.id in s.out
  }

  /** The turn does no harm; an idle timeout that cannot be reported does none if there is nothing to clean up. */
  ghost predicate AllowedTurn(g: Grade, st: Settings, c: Conn, m: Member, input: Input) {
    && (match g
        case ByFlags => OrderlyTurn(st, c, m.held, m.writes, input)
        case BySession => PoliteTurn(st, c, m.held, m.writes, input))
    && (input.IdleTimeout? && m.writes < 2 ==> !c.inTransaction && !c.needsCleanup)
  }

  ghost predicate Allowed(g: Grade, s: State, a: Action) {
    match a
    case Connect(_, c) => Ready(g, c)
    case Name(_, name) => g.BySession? ==> StaysQuoted(name)
    case Serve(k, st, input) =>
      Due(s, k) ==> AllowedTurn(g, st, s.out[s.clients[k].stage.id], s.clients[k], input)
    case _ => true
  }

  ghost predicate AllowedRun(g: Grade, s: State, actions: seq<Action>)
    decreases |actions|
  {
    actions == [] || (Allowed(g, s, actions[0]) && AllowedRun(g, Apply(s, actions[0]), actions[1..]))
  }

  /** The client's connection, and no other, may have changed. */
  lemma GoOnFit(g: Grade, s: State, k: Key, m: Member, c: Conn)
    requires Exclusive(s) && LentAreFit(g, s) && k in s.clients && HasConnection(s.clients[k].stage)
    requires HasConnection(m.stage) && m.stage.id == s.clients[k].stage.id && FitFor(g, m.stage, c)
    ensures LentAreFit(g, s.(clients := s.clients[k := m], out := s.out[m.stage.id := c]))
  {
  }

  lemma LendFit(g: Grade, s: State, k: Key, id: Ident, c: Conn)
    requires Exclusive(s) && LentAreFit(g, s) && k in s.clients && id in s.idle && Sound(g, c)
    ensures LentAreFit(g, SetStage(s, k, Holding(id)).(idle := s.idle - {id}, out := s.out[id := c]))
  {
  }

  lemma RetireFit(g: Grade, s: State, k: Key, stage: Stage)
    requires Exclusive(s) && LentAreFit(g, s) && k in s.clients && HasConnection(s.clients[k].stage)
    requires !HasConnection(stage)
    ensures LentAreFit(g, SetStage(s, k, stage).(out := s.out - {s.clients[k].stage.id}))
  {
  }

  /** The health check reads all of its own answer, or the connection is bad. */
  lemma HealthCheckKeepsSync(c: Conn)
    requires Clean(c)
    ensures var p := Ask(c, HealthCheck());
            if p.Broken? then p.conn.bad else InSync(p.conn)
  {
    ExchangeKeepsSync(c, HealthCheck(), false, Nobody);
  }

  lemma HealthCheckKeepsSound(g: Grade, c: Conn)
    requires Ready(g, c)
    ensures var p := Ask(c, HealthCheck()); p.Done? ==> Sound(g, p.conn)
  {
    HealthCheckKeepsSync(c);
    if g.BySession? {
      OwnQueriesNameNothing(Ascii(";"));
      ExchangeTracks(c, HealthCheck(), false, Nobody);
      ExchangeKeepsSync(c, HealthCheck(), false, Nobody);
    }
  }

  lemma CheckoutKeeps(g: Grade, s: State, k: Key, id: Ident, probe: bool)
    requires Inv(g, s) && k in s.clients && s.clients[k].stage.Waiting? && id in s.idle
    ensures Inv(g, CheckedOut(s, k, id, probe))
  {
    var c := s.idle[id];
    CheckoutKeepsLedger(s, k, id, probe);
    HealthCheckKeepsSound(g, c);
    var p := Ask(c, HealthCheck());
    if !probe || p.Done? {
      LendFit(g, s, k, id, if probe then p.conn else c);
    }
  }

  lemma NameKeeps(g: Grade, s: State, k: Key, name: Bytes)
    requires Inv(g, s) && k in s.clients && s.clients[k].stage.Naming? && Allowed(g, s, Name(k, name))
    ensures LentAreFit(g, Apply(s, Name(k, name)))
  {
    var id := s.clients[k].stage.id;
    var c := s.out[id];
    var p := Renamed(c, name);
    assert Sound(g, c);
    RenameKeepsSync(c, name);
    if g.BySession? {
      RenameTracks(c, name);
      RenameKeepsBackend(c, name);
    }
    GoOnFit(g, s, k, s.clients[k].(stage := if p.Done? then Working(id) else Failing(id)), p.conn);
  }

  /** What a turn and the cleanup after it leave. */
  function Left(t: Turn): Conn {
    if t.next == Leave then Cleanup(t.conn).conn else t.conn
  }

  lemma TurnLeavesFit(g: Grade, st: Settings, c: Conn, m: Member, input: Input)
    requires Sound(g, c) && AllowedTurn(g, st, c, m, input)
    ensures var t := Iterate(st, c, m.held, m.writes, input);
            if t.next == Stay then Sound(g, t.conn) else Left(t).bad || Ready(g, Left(t))
  {
    var t := Iterate(st, c, m.held, m.writes, input);
    match g
    case ByFlags =>
      TurnHygiene(st, c, m.held, m.writes, input);
      if t.next == Leave {
        CleanupCleans(t.conn);
      }
      OnlyIdleTimeoutGoesUnreported(st, c, m.held, m.writes, input);
    case BySession =>
      TurnTracks(st, c, m.held, m.writes, input);
      if t.next == Leave {
        CleanupErases(t.conn);
      }
      OnlyIdleTimeoutGoesUnreported(st, c, m.held, m.writes, input);
  }

  lemma OnlyIdleTimeoutGoesUnreported(st: Settings, c: Conn, held: seq<Frame>, writes: nat, input: Input)
    ensures var t := Iterate(st, c, held, writes, input);
            && (t.next == Quit(IdleNoticeFailed) <==> input.IdleTimeout? && writes < 2)
            && (t.next == Quit(IdleNoticeFailed) ==> t.conn == c)
  {
  }

  lemma ServeKeeps(g: Grade, s: State, k: Key, st: Settings, input: Input)
    requires Inv(g, s) && Due(s, k) && Allowed(g, s, Serve(k, st, input))
    ensures LentAreFit(g, Served(s, k, s.clients[k].stage.id, st, input))
  {
    var id, m := s.clients[k].stage.id, s.clients[k];
    assert Sound(g, s.out[id]);
    TurnLeavesFit(g, st, s.out[id], m, input);
    var d := Served(s, k, id, st, input);
    GoOnFit(g, s, k, d.clients[k], d.out[id]);
  }

  lemma GiveBackKeeps(g: Grade, s: State, k: Key, id: Ident, stage: Stage)
    requires Inv(g, s) && k in s.clients && id in s.out
    requires s.clients[k].stage.Released? || s.clients[k].stage.Failing?
    requires s.clients[k].stage.id == id && !HasConnection(stage)
    ensures IdleAreReady(g, GivenBack(s, k, id, stage)) && LentAreFit(g, GivenBack(s, k, id, stage))
  {
    assert FitFor(g, s.clients[k].stage, s.out[id]);
    RetireFit(g, s, k, stage);
  }

  /** Every step of every task keeps the connections as fit as their users' stages say. */
  lemma ApplyKeeps(g: Grade, s: State, a: Action)
    requires Inv(g, s) && Allowed(g, s, a)
    ensures Inv(g, Apply(s, a))
  {
    ApplyKeepsLedger(s, a);
    match a
    case Checkout(k, id, probe) =>
      if k in s.clients && s.clients[k].stage.Waiting? && id in s.idle {
        CheckoutKeeps(g, s, k, id, probe);
      }
    case Name(k, name) =>
      if k in s.clients && s.clients[k].stage.Naming? {
        NameKeeps(g, s, k, name);
      }
    case Serve(k, st, input) =>
      if Due(s, k) {
        ServeKeeps(g, s, k, st, input);
      }
    case GiveBack(k) =>
      if k in s.clients && (s.clients[k].stage.Released? || s.clients[k].stage.Failing?) {
        var stage := s.clients[k].stage;
        GiveBackKeeps(g, s, k, stage.id, if stage.Released? && stage.again then Waiting else Dying);
      }
    case _ => QuietKeeps(g, s, a);
  }

  /** The steps that touch no connection, and the arrival of a new one. */
  lemma QuietKeeps(g: Grade, s: State, a: Action)
    requires Inv(g, s) && Allowed(g, s, a)
    requires a.Arrive? || a.Connect? || a.Buffer? || a.Answer? || a.Claim? || a.Release? || a.Depart? || a.Drop?
    ensures IdleAreReady(g, Apply(s, a)) && LentAreFit(g, Apply(s, a))
  {
  }

  lemma {:induction false} RunKeeps(g: Grade, s: State, actions: seq<Action>)
    requires Inv(g, s) && AllowedRun(g, s, actions)
    ensures Inv(g, Run(s, actions))
    decreases |actions|
  {
    if actions != [] {
      ApplyKeeps(g, s, actions[0]);
      RunKeeps(g, Apply(s, actions[0]), actions[1..]);
    }
  }

  /**
   * In every interleaving of any number of clients, all idle connections are fit for the next
   * client: nothing unread, no transaction open, nothing to clean up.
   */
  lemma IdleConnectionsAreClean(actions: seq<Action>, id: Ident)
    requires AllowedRun(ByFlags, EMPTY, actions) && id in Run(EMPTY, actions).idle
    ensures Clean(Run(EMPTY, actions).idle[id])
  {
    RunKeeps(ByFlags, EMPTY, actions);
  }

  /** And where no change of a session goes unseen, nothing of any client is left in any of them. */
  lemma IdleConnectionsArePristine(actions: seq<Action>, id: Ident)
    requires AllowedRun(BySession, EMPTY, actions) && id in Run(EMPTY, actions).idle
    ensures Pristine(Run(EMPTY, actions).idle[id])
  {
    RunKeeps(BySession, EMPTY, actions);
  }
}
