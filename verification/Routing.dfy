/** Routing over whole runs: what every checkout of a client asks the pool for. */
module Routing {
  import opened Text
  import opened Wire
  import opened Router
  import Bind
  import Failover
  import Pruning
  import Sharding

  /** A message, the settings of the pool when it arrives, and the random number it may use. */
  datatype Event = Event(message: Message, settings: PoolSettings, draw: nat)

  /** A call of `pool.get`. */
  datatype Visit = Visit(message: Message, shard: nat, role: Option<Role>)

  datatype Next = On(state: State, visits: seq<Visit>) | Stopped

  // ---------------------------------------------------------------- one turn of the outer loop

  /** The parser looks at a message only while it is enabled, and before the settings are refreshed. */
  ghost function Peek(s: State, w: World, m: Message): Inference {
    if !ParserEnabled(s) then Inferred(s, false)
    else if m[0] == B then AfterBind(s, m)
    else AfterMessage(s, w, m)
  }

  predicate SetsShard(c: Command) {
    c.SetShard? || c.SetShardToAny?
  }

  /** From the refresh of the settings to the checkout. */
  ghost function Dispatched(s: State, w: World, e: Event): Next {
    var ready := s.(settings := e.settings);
    match TryExecute(ready, w, e.message, e.draw)
    case Panics => Stopped
    case Regular(s2) => On(s2, [Visit(e.message, ShardOf(s2), s2.role)])
    case Done(s2, c, _) =>
      if SetsShard(c) && ShardOf(s2) >= e.settings.shards then On(s2.(shard := Some(ShardOf(s))), [])
      else On(s2, [])
  }

  ghost function Step(s: State, w: World, e: Event): Next {
    var m := e.message;
    if m[0] == D || m[0] == E then On(s, [])
    else if m[0] == X then Stopped
    else if m[0] == P || m[0] == B then
      match Peek(s, w, m) case InferPanics => Stopped case Inferred(s1, _) => On(s1, [])
    else if m[0] == Q then
      match Peek(s, w, m) case InferPanics => Stopped case Inferred(s1, _) => Dispatched(s1, w, e)
    else Dispatched(s, w, e)
  }

  /** Every checkout of a run. */
  ghost function Visits(s: State, w: World, es: seq<Event>): seq<Visit>
    decreases |es|
  {
    if es == [] then []
    else match Step(s, w, es[0])
      case Stopped => []
      case On(s1, vs) => vs + Visits(s1, w, es[1..])
  }

  /** The body of the client's loop, on the router object. */
  method Turn(router: QueryRouter, w: World, e: Event) returns (stopped: bool, visits: seq<Visit>)
    modifies router
    ensures match Step(old(router.View()), w, e)
            case Stopped => stopped && visits == []
            case On(s, vs) => !stopped && router.View() == s && visits == vs
  {
    var m := e.message;
    if m[0] == D || m[0] == E {
      return false, [];
    } else if m[0] == X {
      return true, [];
    } else if m[0] == P || m[0] == B || m[0] == Q {
      if ParserEnabled(router.View()) {
        var r;
        if m[0] == B {
          r := router.InferShardFromBind(m);
        } else {
          r := router.Infer(w, m);
        }
        if r.None? {
          return true, [];
        }
      }
      if m[0] != Q {
        return false, [];
      }
    }
    stopped, visits := CheckOut(router, w, e);
  }

  method CheckOut(router: QueryRouter, w: World, e: Event) returns (stopped: bool, visits: seq<Visit>)
    modifies router
    ensures match Dispatched(old(router.View()), w, e)
            case Stopped => stopped && visits == []
            case On(s, vs) => !stopped && router.View() == s && visits == vs
  {
    router.UpdatePoolSettings(e.settings);
    var current := ShardOf(router.View());
    var r := router.TryExecuteCommand(w, e.message, e.draw);
    if r.None? {
      return true, [];
    }
    match r.value {
      case Some(done) =>
        if SetsShard(done.0) && ShardOf(router.View()) >= e.settings.shards {
          router.SetShard(current);
        }
        return false, [];
      case None =>
        return false, [Visit(e.message, ShardOf(router.View()), router.activeRole)];
    }
  }

  // ---------------------------------------------------------------- the role sticks

  /** The message is not a SET SERVER ROLE. */
  predicate NoRoleCommand(w: World, e: Event) {
    e.message[0] == Q ==>
      match CommandText(e.settings, e.message)
      case None => true
      case Some(text) => match w.command(text) case Some(c) => !c.SetServerRole? case None => true
  }

  ghost predicate AllHaveRole(vs: seq<Visit>, role: Option<Role>) {
    forall i :: 0 <= i < |vs| ==> vs[i].role == role
  }

  ghost predicate KeepsRole(s: State, n: Next) {
    n.On? ==> n.state.role == s.role && n.state.parser == s.parser && AllHaveRole(n.visits, s.role)
  }

  lemma DispatchedKeepsRole(s: State, w: World, e: Event)
    requires NoRoleCommand(w, e)
    ensures KeepsRole(s, Dispatched(s, w, e))
  {
  }

  lemma FixedStep(s: State, w: World, e: Event)
    requires s.parser == Some(false) && NoRoleCommand(w, e)
    ensures KeepsRole(s, Step(s, w, e))
  {
    DispatchedKeepsRole(s, w, e);
  }

  lemma {:induction false} RoleSticks(s: State, w: World, es: seq<Event>)
    requires s.parser == Some(false)
    requires forall i :: 0 <= i < |es| ==> NoRoleCommand(w, es[i])
    ensures AllHaveRole(Visits(s, w, es), s.role)
    decreases |es|
  {
    if es != [] {
      FixedStep(s, w, es[0]);
      match Step(s, w, es[0])
      case Stopped =>
      case On(s1, vs) => RoleSticks(s1, w, es[1..]);
    }
  }

  /** What SET SERVER ROLE asks for; auto and default leave the choice open. */
  function Requested(name: RoleName): Option<Role> {
    match name
    case ToPrimary => Some(Failover.Primary)
    case ToReplica => Some(Failover.Replica)
    case _ => None
  }

  /** The message is the command SET SERVER ROLE TO `name`. */
  predicate IsRoleCommand(w: World, e: Event, name: RoleName) {
    && e.message[0] == Q && CommentOf(e.settings, e.message).NoComment?
    && var text := CommandText(e.settings, e.message);
    text.Some? && w.command(text.value) == Some(SetServerRole(name))
  }

  lemma RoleCommandSets(s: State, w: World, e: Event, name: RoleName)
    requires IsRoleCommand(w, e, name) && !name.ToDefault?
    ensures var next := Step(s, w, e);
            next.On? ==>
              next.visits == [] && next.state.role == Requested(name) && next.state.parser == Some(name.ToAuto?)
  {
  }

  /**
   * After SET SERVER ROLE TO primary, replica or any, every checkout until the next such command
   * asks for that role, across transactions, other commands and changes of settings.
   */
  lemma RoleCommandHolds(s: State, w: World, e: Event, name: RoleName, es: seq<Event>)
    requires IsRoleCommand(w, e, name) && (name.ToPrimary? || name.ToReplica? || name.ToAny?)
    requires forall i :: 0 <= i < |es| ==> NoRoleCommand(w, es[i])
    ensures AllHaveRole(Visits(s, w, [e] + es), Requested(name))
  {
    assert ([e] + es)[1..] == es;
    RoleCommandSets(s, w, e, name);
    match Step(s, w, e)
    case Stopped =>
    case On(s1, vs) => RoleSticks(s1, w, es);
  }

  // ---------------------------------------------------------------- auto mode

  ghost predicate HasWrite(ss: seq<Statement>) {
    exists i :: 0 <= i < |ss| && !ss[i].Query?
  }

  /** The message does not parse, is empty, or holds a statement that is not a plain query. */
  ghost predicate NeedsPrimary(w: World, m: Message) {
    match QueryText(m)
    case None => false
    case Some(text) => match w.parse(text) case None => true case Some(ss) => ss == [] || HasWrite(ss)
  }

  lemma {:induction false} StatementsRole(s: State, ss: seq<Statement>)
    ensures var t := AfterStatements(s, ss);
            && t.parser == s.parser && t.reading == s.reading && t.settings == s.settings
            && t.role == if HasWrite(ss) then Some(Failover.Primary) else if ss == [] then s.role else ReadRole(s)
    decreases |ss|
  {
    if ss != [] {
      match ss[0] {
        case Query(b) =>
          StatementsRole(AfterQuery(s, b), ss[1..]);
          if HasWrite(ss) {
            var i :| 0 <= i < |ss| && !ss[i].Query?;
            assert !ss[1..][i - 1].Query?;
          }
        case _ =>
          assert !ss[0].Query?;
      }
    }
  }

  /** In auto mode the role inferred from a message is primary exactly when it needs the primary. */
  lemma InferredRole(s: State, w: World, m: Message)
    requires m[0] == Q || m[0] == P
    ensures var r := AfterMessage(s, w, m);
            r.Inferred? ==>
              && r.state.parser == s.parser && r.state.reading == s.reading && r.state.settings == s.settings
              && r.state.role == if NeedsPrimary(w, m) then Some(Failover.Primary) else ReadRole(s)
  {
    var text := QueryText(m);
    if text.Some? && w.parse(text.value).Some? {
      StatementsRole(s, w.parse(text.value).value);
    }
  }

  /** The last message the parser saw. */
  function Latest(last: Option<Message>, m: Message): Option<Message> {
    if m[0] == P || m[0] == Q then Some(m) else last
  }

  ghost predicate RoleFits(w: World, last: Option<Message>, role: Option<Role>) {
    role == Some(Failover.Primary) <==> last.Some? && NeedsPrimary(w, last.value)
  }

  ghost predicate AllFit(w: World, last: Option<Message>, vs: seq<Visit>) {
    forall i :: 0 <= i < |vs| ==> RoleFits(w, last, vs[i].role)
  }

  /** Every checkout of the run asks for the primary exactly when the last message parsed needs it. */
  ghost predicate RolesFollow(s: State, w: World, last: Option<Message>, es: seq<Event>)
    decreases |es|
  {
    es != [] && Step(s, w, es[0]).On? ==>
      && AllFit(w, Latest(last, es[0].message), Step(s, w, es[0]).visits)
      && RolesFollow(Step(s, w, es[0]).state, w, Latest(last, es[0].message), es[1..])
  }

  lemma BindKeepsRole(s: State, m: Message)
    ensures AfterBind(s, m).Inferred? ==>
              && AfterBind(s, m).state.role == s.role && AfterBind(s, m).state.parser == s.parser
              && AfterBind(s, m).state.settings == s.settings
  {
  }

  /** The parser is on, by command or by the settings. */
  predicate IsAuto(s: State) {
    s.parser == Some(true) || (s.parser == None && s.settings.queryParserEnabled)
  }

  /** The event does not switch the parser off. */
  predicate StaysOn(s: State, w: World, e: Event) {
    NoRoleCommand(w, e) && (s.parser == None ==> e.settings.queryParserEnabled)
  }

  ghost predicate StaysAuto(s: State, w: World, last: Option<Message>, n: Next) {
    n.On? ==>
      && n.state.parser == s.parser && IsAuto(n.state)
      && RoleFits(w, last, n.state.role) && AllFit(w, last, n.visits)
  }

  lemma DispatchedStaysAuto(s: State, w: World, e: Event, last: Option<Message>)
    requires (s.parser == None || s.parser == Some(true)) && RoleFits(w, last, s.role) && StaysOn(s, w, e)
    ensures StaysAuto(s, w, last, Dispatched(s, w, e))
  {
    DispatchedKeepsRole(s, w, e);
    DispatchedLoads(s, w, e);
  }

  lemma DispatchedLoads(s: State, w: World, e: Event)
    ensures Dispatched(s, w, e).On? ==> Dispatched(s, w, e).state.settings == e.settings
  {
  }

  lemma AutoStep(s: State, w: World, e: Event, last: Option<Message>)
    requires IsAuto(s) && RoleFits(w, last, s.role) && StaysOn(s, w, e)
    ensures StaysAuto(s, w, Latest(last, e.message), Step(s, w, e))
  {
    var m := e.message;
    if m[0] == Q || m[0] == P {
      InferredRole(s, w, m);
      match Peek(s, w, m)
      case InferPanics =>
      case Inferred(s1, _) => DispatchedStaysAuto(s1, w, e, Some(m));
    } else if m[0] == B {
      BindKeepsRole(s, m);
    } else {
      DispatchedStaysAuto(s, w, e, last);
    }
  }

  /** Every checkout of a run in auto mode, a Sync's as much as a Query's. */
  lemma {:induction false} AutoFollows(s: State, w: World, es: seq<Event>, last: Option<Message>)
    requires IsAuto(s) && RoleFits(w, last, s.role)
    requires forall i :: 0 <= i < |es| ==> StaysOn(s, w, es[i])
    ensures RolesFollow(s, w, last, es)
    decreases |es|
  {
    if es != [] {
      AutoStep(s, w, es[0], last);
      match Step(s, w, es[0])
      case Stopped =>
      case On(s1, vs) => AutoFollows(s1, w, es[1..], Latest(last, es[0].message));
    }
  }

  /** After SET SERVER ROLE TO 'auto' the role of every checkout follows the messages of the run. */
  lemma AutoCommandFollows(s: State, w: World, e: Event, es: seq<Event>)
    requires IsRoleCommand(w, e, ToAuto)
    requires forall i :: 0 <= i < |es| ==> NoRoleCommand(w, es[i])
    ensures Step(s, w, e).On? ==> Step(s, w, e).visits == [] && RolesFollow(Step(s, w, e).state, w, None, es)
  {
    RoleCommandSets(s, w, e, ToAuto);
    if Step(s, w, e).On? {
      AutoFollows(Step(s, w, e).state, w, es, None);
    }
  }

  /** The first query of a client is routed before the settings are known: a write too may go anywhere. */
  lemma FirstVisitIsUninferred(w: World, e: Event)
    requires NoRoleCommand(w, e)
    ensures Step(NEW, w, e).On? ==> AllHaveRole(Step(NEW, w, e).visits, None)
  {
    DispatchedKeepsRole(NEW, w, e);
  }

  /** A message that asks for a connection, or may be a command. */
  predicate Reaches(m: Message) {
    m[0] != P && m[0] != B && m[0] != D && m[0] != E && m[0] != X
  }

  /**
   * With the parser switched on in the settings of the pool: once the first message that asks for a
   * connection has loaded them, the role of every checkout follows the messages of the run.
   */
  lemma SettingsFollow(w: World, e: Event, es: seq<Event>)
    requires Reaches(e.message) && e.settings.queryParserEnabled && NoRoleCommand(w, e)
    requires forall i :: 0 <= i < |es| ==> es[i].settings.queryParserEnabled && NoRoleCommand(w, es[i])
    ensures Step(NEW, w, e).On? ==> RolesFollow(Step(NEW, w, e).state, w, None, es)
  {
    FirstStep(w, e);
    if Step(NEW, w, e).On? {
      AutoFollows(Step(NEW, w, e).state, w, es, None);
    }
  }

  /** The parser is off, whatever the settings to come say. */
  lemma FirstStep(w: World, e: Event)
    requires Reaches(e.message) && NoRoleCommand(w, e)
    ensures var next := Step(NEW, w, e);
            next.On? ==>
              && next.state.role == None && next.state.parser == None && next.state.settings == e.settings
              && AllHaveRole(next.visits, None)
  {
    DispatchedKeepsRole(NEW, w, e);
    DispatchedLoads(NEW, w, e);
  }

  function LastOf(last: Option<Message>, es: seq<Event>): Option<Message>
    decreases |es|
  {
    if es == [] then last else LastOf(Latest(last, es[0].message), es[1..])
  }

  /** Parse and Bind messages before that are not looked at. */
  lemma {:induction false} FirstBatchIsUnread(w: World, last: Option<Message>, before: seq<Event>, es: seq<Event>)
    requires forall i :: 0 <= i < |before| ==> !Reaches(before[i].message) && before[i].message[0] != X
    ensures RolesFollow(NEW, w, last, before + es) <==> RolesFollow(NEW, w, LastOf(last, before), es)
    decreases |before|
  {
    if before == [] {
      assert before + es == es;
    } else {
      assert (before + es)[1..] == before[1..] + es;
      assert Step(NEW, w, before[0]) == On(NEW, []);
      FirstBatchIsUnread(w, Latest(last, before[0].message), before[1..], es);
    }
  }

  /**
   * From connection on, with the parser switched on in the settings: every checkout of the run asks
   * for the primary exactly when the last message before it needs it, if and only if the message that
   * decides on the first checkout does not need it.
   */
  lemma RoutedRightExactly(w: World, before: seq<Event>, e: Event, es: seq<Event>)
    requires forall i :: 0 <= i < |before| ==> !Reaches(before[i].message) && before[i].message[0] != X
    requires Reaches(e.message) && e.settings.queryParserEnabled && NoRoleCommand(w, e)
    requires Step(NEW, w, e).On? && Step(NEW, w, e).visits != []
    requires forall i :: 0 <= i < |es| ==> es[i].settings.queryParserEnabled && NoRoleCommand(w, es[i])
    ensures var first := Latest(LastOf(None, before), e.message);
            RolesFollow(NEW, w, None, before + ([e] + es)) <==> !(first.Some? && NeedsPrimary(w, first.value))
  {
    FirstBatchIsUnread(w, None, before, [e] + es);
    FirstStep(w, e);
    var next, first := Step(NEW, w, e), Latest(LastOf(None, before), e.message);
    assert ([e] + es)[1..] == es;
    assert next.visits[0].role == None;
    if RoleFits(w, first, None) {
      AutoFollows(next.state, w, es, first);
    } else {
      assert !AllFit(w, first, next.visits);
    }
  }

  /** With the parser switched on in the settings, the second query is routed by its statements. */
  lemma SettingsInfer(s: State, w: World, e: Event)
    requires s.parser == None && s.settings.queryParserEnabled && NoRoleCommand(w, e) && e.message[0] == Q
    ensures var role := if NeedsPrimary(w, e.message) then Some(Failover.Primary) else ReadRole(s);
            Step(s, w, e).On? ==> AllHaveRole(Step(s, w, e).visits, role)
  {
    InferredRole(s, w, e.message);
    match Peek(s, w, e.message)
    case InferPanics =>
    case Inferred(s1, _) => DispatchedKeepsRole(s1, w, e);
  }

  // ---------------------------------------------------------------- the shard stays in range

  /** The settings are those of a pool of `n` shards, or not loaded yet with the parser off. */
  ghost predicate Ready(s: State, n: nat) {
    ShardOf(s) < n && (s.settings.shards == n || (!s.settings.queryParserEnabled && s.parser == None))
  }

  /** A shard number found in a comment exists. */
  predicate IdInRange(e: Event, n: nat) {
    e.message[0] == Q && e.settings.shardIdIn.Some? && Segment(e.settings, e.message).Some? ==>
      match e.settings.shardIdIn.value(Segment(e.settings, e.message).value)
      case Some(id) => id < n
      case None => true
  }

  ghost predicate AllInRange(vs: seq<Visit>, n: nat) {
    forall i :: 0 <= i < |vs| ==> vs[i].shard < n
  }

  lemma SingleInRange(p: PoolSettings, shards: set<nat>)
    requires forall x :: x in shards ==> x < p.shards
    ensures Pruning.Single(shards).Some? ==> Pruning.Single(shards).value < p.shards
  {
    var found := Pruning.Single(shards);
    if found.Some? {
      assert shards == {found.value};
      assert found.value in shards;
    }
  }

  lemma {:induction false} StatementsInRange(s: State, ss: seq<Statement>)
    requires ShardOf(s) < s.settings.shards
    ensures var t := AfterStatements(s, ss);
            ShardOf(t) < s.settings.shards && t.settings == s.settings
    decreases |ss|
  {
    if ss != [] && ss[0].Query? {
      var c := s.settings.automaticShardingKey;
      if c.Some? {
        SingleInRange(s.settings, Pruning.ShardsOf(SharderOf(s.settings), Pruning.BodyKeys(c.value, ss[0].body)));
      }
      StatementsInRange(AfterQuery(s, ss[0].body), ss[1..]);
    }
  }

  lemma PeekInRange(s: State, w: World, m: Message, n: nat)
    requires Ready(s, n)
    ensures Peek(s, w, m).Inferred? ==> Ready(Peek(s, w, m).state, n)
  {
    if ParserEnabled(s) {
      if m[0] == B {
        if WholeBind(m) {
          var vs := Bind.Arguments(m[5..], s.placeholders);
          if vs.Some? {
            SingleInRange(s.settings, Bind.ShardsOfValues(SharderOf(s.settings), vs.value));
          }
        }
      } else if m[0] == P || m[0] == Q {
        InferredRole(s, w, m);
        var text := QueryText(m);
        if text.Some? && w.parse(text.value).Some? {
          StatementsInRange(s, w.parse(text.value).value);
        }
      }
    }
  }

  ghost predicate StaysInRange(next: Next, n: nat)
    requires next.On?
  {
    Ready(next.state, n) && AllInRange(next.visits, n)
  }

  /** A checkout is in range exactly when the shard number of a comment, if there is one, is. */
  lemma DispatchedInRange(s: State, w: World, e: Event, n: nat)
    requires Ready(s, n) && e.settings.shards == n && e.message[0] != P
    ensures Dispatched(s, w, e).On? ==> (StaysInRange(Dispatched(s, w, e), n) <==> IdInRange(e, n))
  {
    var next := Dispatched(s, w, e);
    if next.On? && |next.visits| > 0 {
      assert next.visits[0].shard == ShardOf(next.state);
    }
  }

  lemma StepInRange(s: State, w: World, e: Event, n: nat)
    requires Ready(s, n) && e.settings.shards == n
    ensures Step(s, w, e).On? ==> (StaysInRange(Step(s, w, e), n) <==> IdInRange(e, n))
  {
    PeekInRange(s, w, e.message, n);
    if e.message[0] == Q {
      match Peek(s, w, e.message)
      case InferPanics =>
      case Inferred(s1, _) => DispatchedInRange(s1, w, e, n);
    } else if e.message[0] != P {
      DispatchedInRange(s, w, e, n);
    }
  }

  lemma {:induction false} RunInRange(s: State, w: World, es: seq<Event>, n: nat)
    requires Ready(s, n)
    requires forall i :: 0 <= i < |es| ==> es[i].settings.shards == n && IdInRange(es[i], n)
    ensures AllInRange(Visits(s, w, es), n)
    decreases |es|
  {
    if es != [] {
      StepInRange(s, w, es[0], n);
      match Step(s, w, es[0])
      case Stopped =>
      case On(s1, vs) => RunInRange(s1, w, es[1..], n);
    }
  }

  /** From connection on, every checkout names a shard the pool has. */
  lemma ShardAlwaysInRange(w: World, es: seq<Event>, n: nat)
    requires n > 0 && forall i :: 0 <= i < |es| ==> es[i].settings.shards == n && IdInRange(es[i], n)
    ensures AllInRange(Visits(NEW, w, es), n)
  {
    RunInRange(NEW, w, es, n);
  }

  /** A query that starts with the number `n`, and is long enough for the search to reach past it. */
  function Numbered(n: nat): Message {
    Encode(Frame(Q, Bind.Ascii(Decimal(n) + "     ") + [0]))
  }

  /** A pattern that reads a shard number at the start of the query. */
  function LeadingNumber(segment: Bytes): Option<nat> {
    if |segment| < 5 then None else ParseUsize(Bind.Chars(segment[5..]))
  }

  lemma DigitsAreBytes(s: string)
    requires forall i :: 0 <= i < |s| ==> IsDigit(s[i])
    ensures Bind.Chars(Bind.Ascii(s)) == s
  {
  }

  lemma NumberIsSearched(p: PoolSettings, n: nat)
    requires |Decimal(n)| <= 20 && p.searchLimit >= |Decimal(n)| + 5
    ensures Segment(p, Numbered(n)) == Some(Numbered(n)[..|Decimal(n)| + 5])
    ensures Numbered(n)[..|Decimal(n)| + 5][5..] == Bind.Ascii(Decimal(n))
  {
    var digits, text := Decimal(n), Decimal(n) + "     ";
    var m := Numbered(n);
    I32RoundTrip(|digits| + 10, []);
    assert m[1..5] == I32(|digits| + 10) + [];
    assert m[..|digits| + 5][5..] == m[5..][..|digits|];
    assert Bind.Ascii(text)[..|digits|] == Bind.Ascii(digits);
  }

  lemma NumberIsFound(p: PoolSettings, n: nat)
    requires n < Sharding.LONG && p.searchLimit >= |Decimal(n)| + 5
    ensures Segment(p, Numbered(n)).Some? && LeadingNumber(Segment(p, Numbered(n)).value) == Some(n)
  {
    LongIsShort(n);
    NumberIsSearched(p, n);
    DigitsAreBytes(Decimal(n));
    DecimalRoundTrip(n);
  }

  /** With such a pattern, that query is sent outside a pool of `n` shards. */
  lemma CommentLeavesRange(w: World, n: Count, draw: nat)
    requires n < Sharding.LONG
    ensures var settings := DEFAULT.(shards := n, shardIdIn := Some(LeadingNumber));
            Visits(NEW, w, [Event(Numbered(n), settings, draw)]) == [Visit(Numbered(n), n, None)]
  {
    var settings := DEFAULT.(shards := n, shardIdIn := Some(LeadingNumber));
    var m := Numbered(n);
    var e := Event(m, settings, draw);
    LongIsShort(n);
    NumberIsFound(settings, n);
    assert m[0] == Q;
    assert CommentOf(settings, m) == AsksFor(n);
    CommentedVisit(w, e, n);
    assert [e][1..] == [];
  }

  lemma CommentedVisit(w: World, e: Event, n: nat)
    requires e.message[0] == Q && CommentOf(e.settings, e.message) == AsksFor(n)
    ensures Step(NEW, w, e).On? && Step(NEW, w, e).visits == [Visit(e.message, n, None)]
  {
    assert Peek(NEW, w, e.message) == Inferred(NEW, false);
  }

  // ---------------------------------------------------------------- Bind, end to end

  lemma EncodedBind(body: Bytes)
    requires |body| + 4 < I32_LIMIT
    ensures var m := Encode(Frame(B, body)); WholeBind(m) && m[5..] == body
  {
    var m := Encode(Frame(B, body));
    I32RoundTrip(|body| + 4, []);
    assert m[1..5] == I32(|body| + 4) + [];
  }

  /** The values all hash to this shard. */
  ghost predicate AllHashTo(p: PoolSettings, vs: seq<int>, shard: nat) {
    vs != [] && forall i :: 0 <= i < |vs| ==> Sharding.Shard(SharderOf(p), vs[i]) == shard
  }

  lemma HashSet(p: PoolSettings, vs: seq<int>, shard: nat)
    ensures Bind.ShardsOfValues(SharderOf(p), vs) == {shard} <==> AllHashTo(p, vs, shard)
  {
    var shards := Bind.ShardsOfValues(SharderOf(p), vs);
    if shards == {shard} {
      assert shard in shards;
      forall i | 0 <= i < |vs| ensures Sharding.Shard(SharderOf(p), vs[i]) == shard {
        assert vs[i] in vs && Sharding.Shard(SharderOf(p), vs[i]) in shards;
      }
    }
    if AllHashTo(p, vs, shard) {
      assert vs[0] in vs;
      assert shards == {shard};
    }
  }

  /**
   * A Bind message all of whose arguments are recorded moves the client to a shard exactly when
   * they all hash to it, and leaves no placeholder behind.
   */
  lemma BindMovesExactly(s: State, b: Bind.Message, shard: nat)
    requires Bind.WellFormed(b) && Bind.AllRecorded(s.placeholders, 0, |b.params|) && s.placeholders != []
    ensures var r := AfterBind(s, Encode(Frame(B, Bind.EncodeBody(b))));
            && r.Inferred? && r.state.placeholders == []
            && ((r.known && r.state.shard == Some(shard)) <==> AllHashTo(s.settings, Bind.ValuesOf(b.params), shard))
            && (!r.known ==> r.state.shard == s.shard)
  {
    EncodedBind(Bind.EncodeBody(b));
    Bind.AllRecordedRoundTrip(b, s.placeholders);
    var vs := Bind.ValuesOf(b.params);
    HashSet(s.settings, vs, shard);
    var shards := Bind.ShardsOfValues(SharderOf(s.settings), vs);
    if shards == {shard} {
      Pruning.SingleIs(shards, shard);
    }
  }
}
