/** Choosing a server: load balancing, the ban list, and failing over from one candidate to the next. */
module Failover {
  import opened Text

  datatype Role = Primary | Replica | Mirror

  /** A server of the pool; `id` is what makes it distinct. */
  datatype Address = Address(id: nat, host: string, port: nat, role: Role,
                             shard: nat, index: nat, replicaNumber: nat, mirrors: seq<Address>)

  datatype BanReason =
    | FailedHealthCheck
    | MessageSendFailed
    | MessageReceiveFailed
    | FailedCheckout
    | StatementTimeout
    | AdminBan(seconds: int)

  datatype BanEntry = BanEntry(reason: BanReason, at: int)

  type Bans = map<Address, BanEntry>

  /** A wanted role; `None` is any. */
  predicate Matches(a: Address, role: Option<Role>) {
    role.None? || a.role == role.value
  }

  function Matching(servers: seq<Address>, role: Option<Role>): (r: seq<Address>)
    ensures forall a :: a in r <==> a in servers && Matches(a, role)
  {
    if servers == [] then []
    else
      var rest := Matching(servers[1..], role);
      if Matches(servers[0], role) then [servers[0]] + rest else rest
  }

  function ReplicaCount(servers: seq<Address>): nat {
    if servers == [] then 0
    else (if servers[0].role == Replica then 1 else 0) + ReplicaCount(servers[1..])
  }

  predicate Distinct(s: seq<Address>) {
    forall i, j :: 0 <= i < j < |s| ==> s[i] != s[j]
  }

  // ---------------------------------------------------------------- the ban list of one shard

  function Banned(bans: Bans, a: Address, reason: BanReason, now: int): Bans {
    if a.role == Primary then bans else bans[a := BanEntry(reason, now)]
  }

  predicate Expired(b: BanEntry, now: int, banTime: int) {
    now - b.at > if b.reason.AdminBan? then b.reason.seconds else banTime
  }

  /** `try_unban`: the bans afterwards, and whether the address may be tried. */
  function Unbanned(bans: Bans, replicas: nat, a: Address, now: int, banTime: int): (Bans, bool) {
    if a.role == Primary then (bans, true)
    else if |bans| == replicas then (map[], true)
    else if a !in bans then (bans, true)
    else if Expired(bans[a], now, banTime) then (bans - {a}, true)
    else (bans, false)
  }

  function Replicas(servers: seq<Address>): set<Address> {
    set a | a in servers && a.role == Replica
  }

  function NonPrimary(servers: seq<Address>): set<Address> {
    set a | a in servers && a.role != Primary
  }

  lemma {:induction false} ReplicaCountIsSize(servers: seq<Address>)
    requires Distinct(servers)
    ensures ReplicaCount(servers) == |Replicas(servers)|
  {
    if servers != [] {
      var a, rest := servers[0], servers[1..];
      ReplicaCountIsSize(rest);
      assert a !in rest;
      if a.role == Replica {
        assert Replicas(servers) == Replicas(rest) + {a};
      } else {
        assert Replicas(servers) == Replicas(rest);
      }
    }
  }

  lemma SubsetOfSameSize<T>(a: set<T>, b: set<T>)
    requires a <= b
    ensures |a| <= |b|
    ensures |a| == |b| <==> a == b
  {
    assert b == a + (b - a);
    if |b - a| == 0 {
      assert b - a == {};
    }
  }

  /** The length test says "all replicas are banned" exactly when they are, if only replicas are banned. */
  lemma LengthTestExact(servers: seq<Address>, bans: Bans)
    requires Distinct(servers) && bans.Keys <= Replicas(servers)
    ensures |bans| == ReplicaCount(servers) <==> Replicas(servers) <= bans.Keys
  {
    ReplicaCountIsSize(servers);
    SubsetOfSameSize(bans.Keys, Replicas(servers));
    assert |bans| == |bans.Keys|;
  }

  /** The length test is right about this set of banned servers. */
  ghost predicate TestIsRight(servers: seq<Address>, banned: set<Address>) {
    |banned| == ReplicaCount(servers) <==> Replicas(servers) <= banned
  }

  lemma MirrorDefeatsTest(servers: seq<Address>, a: Address) returns (banned: set<Address>)
    requires Distinct(servers) && a in servers && a.role == Mirror
    ensures banned <= NonPrimary(servers) && !TestIsRight(servers, banned)
  {
    ReplicaCountIsSize(servers);
    var replicas := Replicas(servers);
    if replicas == {} {
      banned := {a};
    } else {
      var r :| r in replicas;
      banned := replicas - {r} + {a};
      assert |banned| == |replicas|;
      assert r !in banned;
    }
  }

  lemma TestIsRightOnReplicas(servers: seq<Address>, banned: set<Address>)
    requires Distinct(servers) && banned <= Replicas(servers)
    ensures TestIsRight(servers, banned)
  {
    ReplicaCountIsSize(servers);
    SubsetOfSameSize(banned, Replicas(servers));
  }

  /** It is exact for every set of bans that can arise, exactly in a shard without Mirror-role servers. */
  lemma LengthTestExactExactly(servers: seq<Address>)
    requires Distinct(servers)
    ensures (forall banned :: banned <= NonPrimary(servers) ==> TestIsRight(servers, banned)) <==>
            (forall a :: a in servers ==> a.role != Mirror)
  {
    if a :| a in servers && a.role == Mirror {
      var banned := MirrorDefeatsTest(servers, a);
    } else {
      assert NonPrimary(servers) == Replicas(servers);
      forall banned | banned <= NonPrimary(servers) ensures TestIsRight(servers, banned) {
        TestIsRightOnReplicas(servers, banned);
      }
    }
  }

  // ---------------------------------------------------------------- one call of `get`

  /** What the servers would do, and the clock, at the moment each of them is visited. */
  datatype World = World(
    connects: Address -> bool,     // the connection pool has or makes a connection in time
    recent: Address -> bool,       // the connection was used recently enough to skip the health check
    healthy: Address -> bool,      // the health check would pass
    clock: Address -> int,
    banTime: int)

  /** The server can be used; a server just taken off the ban list is always checked. */
  predicate Passes(w: World, a: Address, forced: bool) {
    w.connects(a) && ((w.recent(a) && !forced) || w.healthy(a))
  }

  datatype Verdict = Skipped | Down | Up

  datatype Visit = Visit(address: Address, before: Bans, verdict: Verdict)

  /** The bans under which an address is tried, and whether it is tried at all. */
  function Entry(w: World, replicas: nat, bans: Bans, a: Address): (Bans, bool) {
    if a in bans then Unbanned(bans, replicas, a, w.clock(a), w.banTime) else (bans, true)
  }

  function Judge(w: World, replicas: nat, bans: Bans, a: Address): Verdict {
    if !Entry(w, replicas, bans, a).1 then Skipped
    else if Passes(w, a, a in bans) then Up
    else Down
  }

  function BansAfter(w: World, replicas: nat, bans: Bans, a: Address): Bans {
    var (entered, tried) := Entry(w, replicas, bans, a);
    if !tried || Passes(w, a, a in bans) then entered
    else Banned(entered, a, if w.connects(a) then FailedHealthCheck else FailedCheckout, w.clock(a))
  }

  datatype Outcome = Outcome(server: Option<Address>, bans: Bans, visits: seq<Visit>)

  /** The candidate loop: pop the last candidate, try it, go on until one is up or none is left. */
  function Drain(w: World, replicas: nat, bans: Bans, candidates: seq<Address>): (r: Outcome)
    ensures |r.visits| <= |candidates|
    ensures r.server.None? ==> |r.visits| == |candidates|
    ensures r.server.Some? ==> |r.visits| > 0
    decreases |candidates|
  {
    if candidates == [] then Outcome(None, bans, [])
    else
      var a := candidates[|candidates| - 1];
      var verdict := Judge(w, replicas, bans, a);
      var here := Visit(a, bans, verdict);
      var after := BansAfter(w, replicas, bans, a);
      if verdict.Up? then Outcome(Some(a), after, [here])
      else
        var rest := Drain(w, replicas, after, candidates[..|candidates| - 1]);
        Outcome(rest.server, rest.bans, [here] + rest.visits)
  }

  /** `order` is a shuffle of the matching servers and, in that mode, sorted by busy connections, most first. */
  ghost predicate IsOrder(order: seq<Address>, servers: seq<Address>, role: Option<Role>, least: bool,
                          busy: Address -> nat)
  {
    && multiset(order) == multiset(Matching(servers, role))
    && (least ==> forall i, j :: 0 <= i < j < |order| ==> busy(order[i]) >= busy(order[j]))
  }

  // ---------------------------------------------------------------- what the visits are

  lemma DrainNext(w: World, replicas: nat, bans: Bans, candidates: seq<Address>)
    requires candidates != [] && !Judge(w, replicas, bans, candidates[|candidates| - 1]).Up?
    ensures var a, d := candidates[|candidates| - 1], Drain(w, replicas, bans, candidates);
            var rest := Drain(w, replicas, BansAfter(w, replicas, bans, a), candidates[..|candidates| - 1]);
            d.server == rest.server && d.visits == [Visit(a, bans, Judge(w, replicas, bans, a))] + rest.visits
  {
  }

  lemma DrainUnfolds(w: World, replicas: nat, bans: Bans, candidates: seq<Address>)
    requires candidates != []
    ensures var a, d := candidates[|candidates| - 1], Drain(w, replicas, bans, candidates);
            var after := BansAfter(w, replicas, bans, a);
            var rest := Drain(w, replicas, after, candidates[..|candidates| - 1]);
            if Judge(w, replicas, bans, a).Up? then d.server == Some(a) && d.bans == after
            else d.server == rest.server && d.bans == rest.bans
  {
  }

  /** Visit `i` is the candidate from the end of that number, judged under the bans of the moment. */
  ghost predicate VisitFits(w: World, replicas: nat, candidates: seq<Address>, d: Outcome, i: nat)
    requires i < |d.visits| <= |candidates|
  {
    var v := d.visits[i];
    && v.address == candidates[|candidates| - 1 - i]
    && v.verdict == Judge(w, replicas, v.before, v.address)
    && (v.verdict.Up? <==> d.server.Some? && i == |d.visits| - 1)
  }

  lemma VisitFitsLater(w: World, replicas: nat, candidates: seq<Address>, d: Outcome, rest: Outcome, here: Visit,
                       i: nat)
    requires 0 < i < |d.visits| <= |candidates|
    requires d.server == rest.server && d.visits == [here] + rest.visits
    requires VisitFits(w, replicas, candidates[..|candidates| - 1], rest, i - 1)
    ensures VisitFits(w, replicas, candidates, d, i)
  {
    assert d.visits[i] == rest.visits[i - 1];
  }

  /** Candidates are visited from the last to the first, and only the last visit finds a server up. */
  lemma {:induction false} VisitsInOrder(w: World, replicas: nat, bans: Bans, candidates: seq<Address>, i: nat)
    requires i < |Drain(w, replicas, bans, candidates).visits|
    ensures VisitFits(w, replicas, candidates, Drain(w, replicas, bans, candidates), i)
    decreases |candidates|
  {
    var a := candidates[|candidates| - 1];
    if !Judge(w, replicas, bans, a).Up? {
      DrainNext(w, replicas, bans, candidates);
      var after := BansAfter(w, replicas, bans, a);
      var shorter := candidates[..|candidates| - 1];
      if i > 0 {
        VisitsInOrder(w, replicas, after, shorter, i - 1);
        VisitFitsLater(w, replicas, candidates, Drain(w, replicas, bans, candidates),
                       Drain(w, replicas, after, shorter), Visit(a, bans, Judge(w, replicas, bans, a)), i);
      }
    }
  }

  /** The server returned is the one visited last. */
  lemma {:induction false} ServerIsLast(w: World, replicas: nat, bans: Bans, candidates: seq<Address>)
    requires Drain(w, replicas, bans, candidates).server.Some?
    ensures var d := Drain(w, replicas, bans, candidates);
            d.server.value == d.visits[|d.visits| - 1].address
    decreases |candidates|
  {
    var a := candidates[|candidates| - 1];
    if !Judge(w, replicas, bans, a).Up? {
      DrainNext(w, replicas, bans, candidates);
      ServerIsLast(w, replicas, BansAfter(w, replicas, bans, a), candidates[..|candidates| - 1]);
    }
  }

  lemma ServerIsCandidate(w: World, replicas: nat, bans: Bans, candidates: seq<Address>)
    requires Drain(w, replicas, bans, candidates).server.Some?
    ensures Drain(w, replicas, bans, candidates).server.value in candidates
  {
    var last := |Drain(w, replicas, bans, candidates).visits| - 1;
    VisitsInOrder(w, replicas, bans, candidates, last);
    ServerIsLast(w, replicas, bans, candidates);
  }

  ghost predicate Threaded(w: World, replicas: nat, bans: Bans, visits: seq<Visit>, i: nat)
    requires i < |visits|
  {
    visits[i].before == if i == 0 then bans else BansAfter(w, replicas, visits[i - 1].before, visits[i - 1].address)
  }

  lemma ThreadedLater(w: World, replicas: nat, bans: Bans, here: Visit, rest: seq<Visit>, i: nat)
    requires 0 < i <= |rest| && here.before == bans
    requires Threaded(w, replicas, BansAfter(w, replicas, bans, here.address), rest, i - 1)
    ensures Threaded(w, replicas, bans, [here] + rest, i)
  {
  }

  /** The bans of the moment are those of the call as the earlier visits changed them. */
  lemma {:induction false} BansAreThreaded(w: World, replicas: nat, bans: Bans, candidates: seq<Address>, i: nat)
    requires i < |Drain(w, replicas, bans, candidates).visits|
    ensures Threaded(w, replicas, bans, Drain(w, replicas, bans, candidates).visits, i)
    decreases |candidates|
  {
    var a := candidates[|candidates| - 1];
    if !Judge(w, replicas, bans, a).Up? {
      DrainNext(w, replicas, bans, candidates);
      if i > 0 {
        var after, shorter := BansAfter(w, replicas, bans, a), candidates[..|candidates| - 1];
        BansAreThreaded(w, replicas, after, shorter, i - 1);
        ThreadedLater(w, replicas, bans, Visit(a, bans, Judge(w, replicas, bans, a)),
                      Drain(w, replicas, after, shorter).visits, i);
      }
    }
  }

  /** A candidate is passed over only under a ban that has not run out, while some replica is not banned. */
  lemma SkippedUnderBan(w: World, replicas: nat, bans: Bans, a: Address)
    requires Judge(w, replicas, bans, a).Skipped?
    ensures a.role != Primary && a in bans && !Expired(bans[a], w.clock(a), w.banTime) && |bans| != replicas
  {
  }

  /** While the loop runs a server that has not been visited is never newly banned. */
  lemma {:induction false} StaysUnbanned(w: World, replicas: nat, bans: Bans, candidates: seq<Address>, a: Address)
    requires Distinct(candidates) && a in candidates && a !in bans && Passes(w, a, false)
    ensures Drain(w, replicas, bans, candidates).server.Some?
    decreases |candidates|
  {
    var b := candidates[|candidates| - 1];
    var shorter := candidates[..|candidates| - 1];
    if b != a {
      assert a in shorter by {
        var i :| 0 <= i < |candidates| && candidates[i] == a;
        assert shorter[i] == a;
      }
      if !Judge(w, replicas, bans, b).Up? {
        StaysUnbanned(w, replicas, BansAfter(w, replicas, bans, b), shorter, a);
      }
    }
  }

  lemma {:induction false} AllSkippedKeepsBans(w: World, replicas: nat, bans: Bans, candidates: seq<Address>)
    requires forall i :: 0 <= i < |Drain(w, replicas, bans, candidates).visits| ==>
               Drain(w, replicas, bans, candidates).visits[i].verdict.Skipped?
    ensures forall a :: a in candidates ==> a in bans && a.role != Primary && |bans| != replicas
    decreases |candidates|
  {
    if candidates != [] {
      var a := candidates[|candidates| - 1];
      var d := Drain(w, replicas, bans, candidates);
      assert d.visits[0].verdict.Skipped?;
      SkippedUnderBan(w, replicas, bans, a);
      var shorter := candidates[..|candidates| - 1];
      var rest := Drain(w, replicas, bans, shorter);
      forall i | 0 <= i < |rest.visits| ensures rest.visits[i].verdict.Skipped? {
        assert d.visits[i + 1] == rest.visits[i];
      }
      AllSkippedKeepsBans(w, replicas, bans, shorter);
      forall b | b in candidates ensures b in bans && b.role != Primary {
        assert candidates == shorter + [a];
      }
    }
  }

  // ---------------------------------------------------------------- failover is complete

  predicate NoMirrorRole(servers: seq<Address>) {
    forall a :: a in servers ==> a.role != Mirror
  }

  lemma {:induction false} MatchingOccurs(servers: seq<Address>, role: Option<Role>, a: Address)
    ensures multiset(Matching(servers, role))[a] <= multiset(servers)[a]
  {
    if servers != [] {
      MatchingOccurs(servers[1..], role, a);
      assert servers == [servers[0]] + servers[1..];
    }
  }

  lemma OrderIsDistinct(order: seq<Address>, servers: seq<Address>, role: Option<Role>)
    requires Distinct(servers) && multiset(order) == multiset(Matching(servers, role))
    ensures Distinct(order)
    ensures forall a :: a in order <==> a in servers && Matches(a, role)
  {
    forall a ensures a in order <==> a in Matching(servers, role) {
      assert a in order <==> a in multiset(order);
      assert a in Matching(servers, role) <==> a in multiset(Matching(servers, role));
    }
    if i, j :| 0 <= i < j < |order| && order[i] == order[j] {
      var a := order[i];
      MatchingOccurs(servers, role, a);
      TwiceInMultiset(order, i, j);
      OnceInMultiset(servers, a);
      assert false;
    }
  }

  lemma TwiceInMultiset(s: seq<Address>, i: nat, j: nat)
    requires i < j < |s| && s[i] == s[j]
    ensures multiset(s)[s[i]] >= 2
  {
    assert s == s[..i] + [s[i]] + s[i + 1..j] + [s[j]] + s[j + 1..];
  }

  lemma {:induction false} OnceInMultiset(s: seq<Address>, a: Address)
    requires Distinct(s)
    ensures multiset(s)[a] <= 1
  {
    if s != [] {
      OnceInMultiset(s[1..], a);
      assert s == [s[0]] + s[1..];
      if a == s[0] {
        assert a !in s[1..];
      }
    }
  }

  /** Some server is given a chance: not every visit passes over its server. */
  ghost predicate Tries(w: World, servers: seq<Address>, bans: Bans, order: seq<Address>) {
    !AllSkipped(Drain(w, ReplicaCount(servers), bans, order).visits)
  }

  predicate AllSkipped(visits: seq<Visit>) {
    forall i :: 0 <= i < |visits| ==> visits[i].verdict.Skipped?
  }

  predicate AnyPrimary(candidates: seq<Address>) {
    exists i :: 0 <= i < |candidates| && candidates[i].role == Primary
  }

  /**
   * If every matching server were under a ban there would be no primary among them, and without
   * Mirror-role servers all replicas would be banned; but then the list is cleared.
   */
  lemma SomeServerIsTried(w: World, servers: seq<Address>, role: Option<Role>, bans: Bans, order: seq<Address>)
    requires Distinct(servers) && bans.Keys <= NonPrimary(servers)
    requires multiset(order) == multiset(Matching(servers, role)) && order != []
    requires NoMirrorRole(servers) || AnyPrimary(order)
    ensures Tries(w, servers, bans, order)
  {
    OrderIsDistinct(order, servers, role);
    if !Tries(w, servers, bans, order) {
      NoneTried(w, servers, bans, order);
      assert order[0] in order;
      if NoMirrorRole(servers) {
        ReplicasAreBanned(servers, role, bans, order);
      }
    }
  }

  lemma NoneTried(w: World, servers: seq<Address>, bans: Bans, order: seq<Address>)
    requires !Tries(w, servers, bans, order)
    ensures forall a :: a in order ==> a in bans && a.role != Primary && |bans| != ReplicaCount(servers)
  {
    AllSkippedKeepsBans(w, ReplicaCount(servers), bans, order);
  }

  lemma ReplicasAreBanned(servers: seq<Address>, role: Option<Role>, bans: Bans, order: seq<Address>)
    requires Distinct(servers) && NoMirrorRole(servers) && bans.Keys <= NonPrimary(servers) && order != []
    requires forall a :: a in order <==> a in servers && Matches(a, role)
    requires forall a :: a in order ==> a in bans && a.role != Primary
    ensures |bans| == ReplicaCount(servers)
  {
    assert order[0] in order && order[0].role == Replica;
    assert NonPrimary(servers) == Replicas(servers);
    forall r | r in Replicas(servers) ensures r in bans {
      assert r in order;
    }
    LengthTestExact(servers, bans);
  }

  /** All servers but the primaries banned just now, for as long as it takes. */
  ghost function AllBanned(servers: seq<Address>): Bans {
    map a | a in NonPrimary(servers) :: BanEntry(FailedCheckout, 0)
  }

  ghost predicate StandsStill(w: World) {
    w.banTime == 0 && forall a :: w.clock(a) == 0
  }

  lemma {:induction false} BannedAreSkipped(w: World, replicas: nat, bans: Bans, candidates: seq<Address>)
    requires |bans| != replicas && StandsStill(w)
    requires forall a :: a in candidates ==> a in bans && a.role != Primary && bans[a] == BanEntry(FailedCheckout, 0)
    ensures AllSkipped(Drain(w, replicas, bans, candidates).visits)
    decreases |candidates|
  {
    if candidates != [] {
      var a, shorter := candidates[|candidates| - 1], candidates[..|candidates| - 1];
      assert a in candidates;
      assert Judge(w, replicas, bans, a).Skipped? && BansAfter(w, replicas, bans, a) == bans;
      DrainNext(w, replicas, bans, candidates);
      BannedAreSkipped(w, replicas, bans, shorter);
    }
  }

  lemma MirrorsOutnumber(servers: seq<Address>, m: Address)
    requires Distinct(servers) && m in servers && m.role == Mirror
    ensures |AllBanned(servers)| > ReplicaCount(servers)
  {
    ReplicaCountIsSize(servers);
    var bans := AllBanned(servers);
    assert bans.Keys == NonPrimary(servers);
    assert |bans| == |bans.Keys|;
    assert Replicas(servers) <= NonPrimary(servers) && m in NonPrimary(servers) - Replicas(servers);
    SubsetOfSameSize(Replicas(servers), NonPrimary(servers));
  }

  /** Whatever the servers do, and whichever of them are banned. */
  ghost predicate AlwaysTries(servers: seq<Address>, order: seq<Address>) {
    forall w, bans: Bans :: bans.Keys <= NonPrimary(servers) ==> Tries(w, servers, bans, order)
  }

  /**
   * A call with a candidate always tries some server exactly when the shard has no Mirror-role
   * server or some candidate is a primary.
   */
  lemma TriedExactly(servers: seq<Address>, role: Option<Role>, order: seq<Address>)
    requires Distinct(servers) && multiset(order) == multiset(Matching(servers, role)) && order != []
    ensures AlwaysTries(servers, order) <==> NoMirrorRole(servers) || AnyPrimary(order)
  {
    if NoMirrorRole(servers) || AnyPrimary(order) {
      forall w, bans: Bans | bans.Keys <= NonPrimary(servers) ensures Tries(w, servers, bans, order) {
        SomeServerIsTried(w, servers, role, bans, order);
      }
    } else {
      MirrorDefeatsTries(servers, role, order);
    }
  }

  lemma MirrorDefeatsTries(servers: seq<Address>, role: Option<Role>, order: seq<Address>)
    requires Distinct(servers) && multiset(order) == multiset(Matching(servers, role))
    requires !NoMirrorRole(servers) && !AnyPrimary(order)
    ensures !AlwaysTries(servers, order)
  {
    var m :| m in servers && m.role == Mirror;
    var w := World(_ => true, _ => true, _ => true, _ => 0, 0);
    MirrorBlocks(w, servers, role, order, m, AllBanned(servers));
    NotAlways(w, servers, AllBanned(servers), order);
  }

  lemma NotAlways(w: World, servers: seq<Address>, bans: Bans, order: seq<Address>)
    requires bans.Keys <= NonPrimary(servers) && !Tries(w, servers, bans, order)
    ensures !AlwaysTries(servers, order)
  {
  }

  lemma MirrorBlocks(w: World, servers: seq<Address>, role: Option<Role>, order: seq<Address>, m: Address, bans: Bans)
    requires Distinct(servers) && multiset(order) == multiset(Matching(servers, role)) && bans == AllBanned(servers)
    requires StandsStill(w) && m in servers && m.role == Mirror && !AnyPrimary(order)
    ensures bans.Keys <= NonPrimary(servers) && !Tries(w, servers, bans, order)
  {
    MirrorsOutnumber(servers, m);
    OrderIsDistinct(order, servers, role);
    forall a | a in order ensures a.role != Primary && a in bans {
      var i :| 0 <= i < |order| && order[i] == a;
    }
    BannedAreSkipped(w, ReplicaCount(servers), bans, order);
  }

  /** The call succeeds if some matching server that is not banned would pass. */
  lemma UsableServerIsFound(w: World, servers: seq<Address>, role: Option<Role>, bans: Bans, order: seq<Address>,
                            a: Address)
    requires Distinct(servers) && multiset(order) == multiset(Matching(servers, role))
    requires a in servers && Matches(a, role) && a !in bans && Passes(w, a, false)
    ensures var r := Drain(w, ReplicaCount(servers), bans, order).server;
            r.Some? && r.value in servers && Matches(r.value, role)
  {
    OrderIsDistinct(order, servers, role);
    StaysUnbanned(w, ReplicaCount(servers), bans, order, a);
    ServerIsCandidate(w, ReplicaCount(servers), bans, order);
  }

  /** All servers are reported down only after each matching one failed in this call or was under a running ban. */
  lemma DownMeansAllTried(w: World, servers: seq<Address>, role: Option<Role>, bans: Bans, order: seq<Address>,
                          a: Address)
    returns (i: nat)
    requires Distinct(servers) && multiset(order) == multiset(Matching(servers, role))
    requires Drain(w, ReplicaCount(servers), bans, order).server.None?
    requires a in servers && Matches(a, role)
    ensures var visits := Drain(w, ReplicaCount(servers), bans, order).visits;
            && i < |visits| && visits[i].address == a
            && (visits[i].verdict.Down? ||
                (a in visits[i].before && !Expired(visits[i].before[a], w.clock(a), w.banTime)))
  {
    OrderIsDistinct(order, servers, role);
    var k :| 0 <= k < |order| && order[k] == a;
    i := |order| - 1 - k;
    var n := ReplicaCount(servers);
    VisitsInOrder(w, n, bans, order, i);
    var v := Drain(w, n, bans, order).visits[i];
    if v.verdict.Skipped? {
      SkippedUnderBan(w, n, v.before, a);
    }
  }

  /**
   * Least outstanding connections: the server returned has the fewest busy connections among the
   * matching servers, apart from those tried before it and found down or passed over under a ban.
   */
  lemma LeastBusyIsServed(w: World, servers: seq<Address>, role: Option<Role>, bans: Bans, order: seq<Address>,
                          busy: Address -> nat, a: Address)
    requires Distinct(servers) && IsOrder(order, servers, role, true, busy)
    requires Drain(w, ReplicaCount(servers), bans, order).server.Some?
    requires a in servers && Matches(a, role)
    ensures var d := Drain(w, ReplicaCount(servers), bans, order);
            busy(a) < busy(d.server.value) ==>
            exists i :: 0 <= i < |d.visits| && d.visits[i].address == a && !d.visits[i].verdict.Up?
  {
    var n := ReplicaCount(servers);
    OrderIsDistinct(order, servers, role);
    var k :| 0 <= k < |order| && order[k] == a;
    if busy(a) < busy(Drain(w, n, bans, order).server.value) {
      LessBusyWasTried(w, n, bans, order, busy, k);
    }
  }

  lemma LessBusyWasTried(w: World, replicas: nat, bans: Bans, order: seq<Address>, busy: Address -> nat, k: nat)
    requires forall i, j :: 0 <= i < j < |order| ==> busy(order[i]) >= busy(order[j])
    requires Drain(w, replicas, bans, order).server.Some?
    requires k < |order| && busy(order[k]) < busy(Drain(w, replicas, bans, order).server.value)
    ensures var d, i := Drain(w, replicas, bans, order), |order| - 1 - k;
            i < |d.visits| && d.visits[i].address == order[k] && !d.visits[i].verdict.Up?
  {
    var d := Drain(w, replicas, bans, order);
    ServerIsLast(w, replicas, bans, order);
    forall i | 0 <= i < |d.visits| ensures VisitFits(w, replicas, order, d, i) {
      VisitsInOrder(w, replicas, bans, order, i);
    }
    LessBusyVisit(w, replicas, order, d, busy, k);
  }

  lemma LessBusyVisit(w: World, replicas: nat, order: seq<Address>, d: Outcome, busy: Address -> nat, k: nat)
    requires forall i, j :: 0 <= i < j < |order| ==> busy(order[i]) >= busy(order[j])
    requires 0 < |d.visits| <= |order| && forall i :: 0 <= i < |d.visits| ==> VisitFits(w, replicas, order, d, i)
    requires d.server.Some? && d.server.value == d.visits[|d.visits| - 1].address
    requires k < |order| && busy(order[k]) < busy(d.server.value)
    ensures var i := |order| - 1 - k;
            i < |d.visits| && d.visits[i].address == order[k] && !d.visits[i].verdict.Up?
  {
    var last := |d.visits| - 1;
    assert VisitFits(w, replicas, order, d, last);
    LessBusyIsLater(order, busy, k, |order| - 1 - last);
    assert VisitFits(w, replicas, order, d, |order| - 1 - k);
  }

  lemma LessBusyIsLater(order: seq<Address>, busy: Address -> nat, k: nat, l: nat)
    requires forall i, j :: 0 <= i < j < |order| ==> busy(order[i]) >= busy(order[j])
    requires k < |order| && l < |order| && busy(order[k]) < busy(order[l])
    ensures k > l
  {
  }

  /**
   * Why Mirror-role servers are excluded: they can be banned but are not counted, so once one of
   * them and all replicas are banned the list is never cleared and nothing is tried.
   */
  lemma MirrorBanBlocksAll(w: World, r: Address, m: Address, bans: Bans)
    requires r.role == Replica && m.role == Mirror
    requires bans.Keys == {r, m}
    requires !Expired(bans[r], w.clock(r), w.banTime) && !Expired(bans[m], w.clock(m), w.banTime)
    ensures var d := Drain(w, ReplicaCount([r, m]), bans, [r, m]);
            d.server.None? && forall i :: 0 <= i < |d.visits| ==> d.visits[i].verdict.Skipped?
  {
    assert |bans| == |{r, m}| == 2;
    assert [r, m][1..] == [m] && [m][1..] == [];
    var n := ReplicaCount([r, m]);
    assert ReplicaCount([]) == 0 && ReplicaCount([m]) == 0;
    assert n == 1;
    assert [r, m][..1] == [r];
    assert Judge(w, n, bans, m).Skipped? && Judge(w, n, bans, r).Skipped?;
    assert Drain(w, n, bans, [r]).visits == [Visit(r, bans, Skipped)];
  }

  // ---------------------------------------------------------------- the ban lists over every interleaving

  /** Everything any task does to the ban lists, each under the lock. */
  datatype BanAction =
    | BanServer(address: Address, reason: BanReason, now: int)   // `ban`
    | Lift(address: Address)                                // `unban`, or `try_unban` after expiry
    | ClearShard(shard: nat)                                // `try_unban` when all replicas are banned

  function ApplyBan(lists: seq<Bans>, a: BanAction): (r: seq<Bans>)
    ensures |r| == |lists|
  {
    match a
    case BanServer(x, reason, now) =>
      if x.shard < |lists| then lists[x.shard := Banned(lists[x.shard], x, reason, now)] else lists
    case Lift(x) => if x.shard < |lists| then lists[x.shard := lists[x.shard] - {x}] else lists
    case ClearShard(i) => if i < |lists| then lists[i := map[]] else lists
  }

  function RunBans(lists: seq<Bans>, actions: seq<BanAction>): (r: seq<Bans>)
    ensures |r| == |lists|
    decreases |actions|
  {
    if actions == [] then lists else RunBans(ApplyBan(lists, actions[0]), actions[1..])
  }

  predicate OfThePool(addresses: seq<seq<Address>>, a: Address) {
    a.shard < |addresses| && a in addresses[a.shard]
  }

  ghost predicate OnlyReplicasBanned(addresses: seq<seq<Address>>, lists: seq<Bans>) {
    |lists| == |addresses| && forall i :: 0 <= i < |lists| ==> lists[i].Keys <= Replicas(addresses[i])
  }

  /** In every interleaving the list of a shard holds only replicas of that shard; a primary is never banned. */
  lemma {:induction false} BanListsHoldReplicas(addresses: seq<seq<Address>>, lists: seq<Bans>, actions: seq<BanAction>)
    requires forall i :: 0 <= i < |addresses| ==> NoMirrorRole(addresses[i])
    requires forall i :: 0 <= i < |actions| && actions[i].BanServer? ==> OfThePool(addresses, actions[i].address)
    requires OnlyReplicasBanned(addresses, lists)
    ensures OnlyReplicasBanned(addresses, RunBans(lists, actions))
    decreases |actions|
  {
    if actions != [] {
      var next := ApplyBan(lists, actions[0]);
      if actions[0].BanServer? {
        assert OfThePool(addresses, actions[0].address);
      }
      assert OnlyReplicasBanned(addresses, next);
      BanListsHoldReplicas(addresses, next, actions[1..]);
    }
  }

  // ---------------------------------------------------------------- the pool object

  class ConnectionPool {
    const addresses: seq<seq<Address>>
    const banTime: int
    var banlist: seq<Bans>

    /** As many ban lists as shards, and every address carries the number of its shard. */
    ghost predicate Valid()
      reads this
    {
      && |banlist| == |addresses|
      && forall s, a :: 0 <= s < |addresses| && a in addresses[s] ==> a.shard == s
    }

    constructor (addresses: seq<seq<Address>>, banTime: int)
      requires forall s, a :: 0 <= s < |addresses| && a in addresses[s] ==> a.shard == s
      ensures Valid() && this.addresses == addresses && this.banTime == banTime
      ensures forall s :: 0 <= s < |banlist| ==> banlist[s] == map[]
    {
      this.addresses := addresses;
      this.banTime := banTime;
      banlist := seq(|addresses|, _ => map[]);
    }

    method Ban(address: Address, reason: BanReason, now: int)
      requires Valid() && OfThePool(addresses, address)
      modifies this
      ensures Valid() && banlist == ApplyBan(old(banlist), BanServer(address, reason, now))
    {
      if address.role == Primary {
        return;
      }
      banlist := banlist[address.shard := banlist[address.shard][address := BanEntry(reason, now)]];
    }

    method Unban(address: Address)
      requires Valid() && OfThePool(addresses, address)
      modifies this
      ensures Valid() && banlist == ApplyBan(old(banlist), Lift(address))
    {
      banlist := banlist[address.shard := banlist[address.shard] - {address}];
    }

    method TryUnban(address: Address, now: int) returns (ok: bool)
      requires Valid() && OfThePool(addresses, address)
      modifies this
      ensures Valid()
      ensures var n := ReplicaCount(addresses[address.shard]);
              var (bans, tried) := Unbanned(old(banlist)[address.shard], n, address, now, banTime);
              ok == tried && banlist == old(banlist)[address.shard := bans]
    {
      if address.role == Primary {
        return true;
      }
      var replicasAvailable := 0;
      var servers := addresses[address.shard];
      var i := 0;
      while i < |servers|
        invariant 0 <= i <= |servers|
        invariant replicasAvailable + ReplicaCount(servers[i..]) == ReplicaCount(servers)
        invariant banlist == old(banlist)
      {
        assert servers[i..][1..] == servers[i + 1..];
        if servers[i].role == Replica {
          replicasAvailable := replicasAvailable + 1;
        }
        i := i + 1;
      }
      var bans := banlist[address.shard];
      if |bans| == replicasAvailable {
        banlist := banlist[address.shard := map[]];
        return true;
      }
      if address !in bans {
        return true;
      }
      if Expired(bans[address], now, banTime) {
        banlist := banlist[address.shard := bans - {address}];
        return true;
      }
      return false;
    }

    /** The body of the loop in `get`: is this candidate up? */
    method TryServer(address: Address, w: World) returns (up: bool)
      requires Valid() && OfThePool(addresses, address) && w.banTime == banTime
      modifies this
      ensures Valid()
      ensures var n, bans := ReplicaCount(addresses[address.shard]), old(banlist)[address.shard];
              && (up <==> Judge(w, n, bans, address).Up?)
              && banlist == old(banlist)[address.shard := BansAfter(w, n, bans, address)]
    {
      var forceHealthcheck := false;
      if address in banlist[address.shard] {
        forceHealthcheck := true;
        var lifted := TryUnban(address, w.clock(address));
        if !lifted {
          return false;
        }
      }
      if !w.connects(address) {
        Ban(address, FailedCheckout, w.clock(address));
        return false;
      }
      if !forceHealthcheck && w.recent(address) {
        return true;
      }
      if w.healthy(address) {
        return true;
      }
      Ban(address, FailedHealthCheck, w.clock(address));
      up := false;
    }

    /** `get`, from the shuffled and sorted candidates on. */
    method Get(shard: nat, role: Option<Role>, order: seq<Address>, w: World) returns (server: Option<Address>)
      requires Valid() && shard < |addresses| && w.banTime == banTime
      requires multiset(order) == multiset(Matching(addresses[shard], role))
      modifies this
      ensures Valid()
      ensures var d := Drain(w, ReplicaCount(addresses[shard]), old(banlist)[shard], order);
              server == d.server && banlist == old(banlist)[shard := d.bans]
    {
      var candidates := order;
      ghost var n := ReplicaCount(addresses[shard]);
      ghost var whole := Drain(w, n, banlist[shard], order);
      forall a | a in order ensures a in addresses[shard] {
        assert a in multiset(order);
        assert a in Matching(addresses[shard], role);
      }
      while |candidates| > 0
        invariant Valid()
        invariant forall a :: a in candidates ==> a in addresses[shard]
        invariant Drain(w, n, banlist[shard], candidates).server == whole.server
        invariant Drain(w, n, banlist[shard], candidates).bans == whole.bans
        invariant banlist == old(banlist)[shard := banlist[shard]]
        decreases |candidates|
      {
        DrainUnfolds(w, n, banlist[shard], candidates);
        var address := candidates[|candidates| - 1];
        candidates := candidates[..|candidates| - 1];
        var up := TryServer(address, w);
        if up {
          return Some(address);
        }
      }
      server := None;
    }
  }
}
