/**
 * Shard pruning of prepared statements: when the arguments of a Bind message send a query to the
 * only shard that can hold its rows.
 */
module Parameters {
  import opened Text
  import opened Wire
  import opened Pruning
  import Bind
  import Router
  import Routing
  import Sharding

  function PositionOf(text: string): Option<int> {
    ParseI16(Without(text, '$'))
  }

  /** The argument at a position, null if there is none. */
  function Argument(position: Option<int>, vs: seq<int>): Val {
    match position
    case Some(p) => if 1 <= p <= |vs| then Int(vs[p - 1]) else Null
    case None => Null
  }

  /** The placeholders stand for the arguments. */
  ghost predicate Bound(env: Env, vs: seq<int>) {
    forall text :: !Argument(PositionOf(text), vs).Null? ==> env.parameter(text) == Argument(PositionOf(text), vs)
  }

  /** What a key found in a query comes to. */
  function KeyValue(k: ShardingKey, vs: seq<int>): Option<int> {
    match k
    case Value(v) => Some(v)
    case Parameter(p) => if 1 <= p <= |vs| then Some(vs[p - 1]) else None
  }

  ghost predicate AllBoundOn(s: Sharding.Sharder, keys: seq<ShardingKey>, vs: seq<int>, shard: nat)
    requires s.shards > 0
  {
    forall i :: 0 <= i < |keys| ==>
      KeyValue(keys[i], vs).Some? && Sharding.Shard(s, KeyValue(keys[i], vs).value) == shard
  }

  /** `key = $n`. */
  predicate IsParameterTest(c: KeyColumn, tables: seq<TableName>, e: Expr) {
    && e.BinaryOp? && e.op.Eq?
    && NamesKey(c, tables, e.left) && e.right.Placeholder? && PositionOf(e.right.text).Some?
  }

  /** Whatever the other tests say, the condition is true only with one of the keys found in it. */
  predicate BoundPinned(c: KeyColumn, tables: seq<TableName>, e: Expr) {
    && e.BinaryOp?
    && match e.op
       case And => BoundPinned(c, tables, e.left) || BoundPinned(c, tables, e.right)
       case Or => BoundPinned(c, tables, e.left) && BoundPinned(c, tables, e.right)
       case _ => IsKeyTest(c, tables, e) || IsParameterTest(c, tables, e)
  }

  predicate BodyBoundPinned(c: KeyColumn, b: Body) {
    match b
    case Select(from, selection) =>
      var es := Predicates(from, selection);
      exists i :: 0 <= i < |es| && BoundPinned(c, Tables(from), es[i])
    case Nested(inner) => BodyBoundPinned(c, inner)
    case OtherBody => false
  }

  lemma AllBoundOnSplit(s: Sharding.Sharder, a: seq<ShardingKey>, b: seq<ShardingKey>, vs: seq<int>, shard: nat)
    requires s.shards > 0 && AllBoundOn(s, a + b, vs, shard)
    ensures AllBoundOn(s, a, vs, shard) && AllBoundOn(s, b, vs, shard)
  {
    var ab := a + b;
    forall i | 0 <= i < |a|
      ensures KeyValue(a[i], vs).Some? && Sharding.Shard(s, KeyValue(a[i], vs).value) == shard
    {
      assert ab[i] == a[i];
    }
    forall i | 0 <= i < |b|
      ensures KeyValue(b[i], vs).Some? && Sharding.Shard(s, KeyValue(b[i], vs).value) == shard
    {
      assert ab[|a| + i] == b[i];
    }
  }

  lemma {:induction false} BoundPinnedHolds(s: Sharding.Sharder, c: KeyColumn, tables: seq<TableName>, e: Expr,
                                            row: Row, vs: seq<int>, shard: nat)
    requires s.shards > 0 && BoundPinned(c, tables, e) && AllBoundOn(s, SelectionKeys(c, tables, e), vs, shard)
    requires Reads(c, tables, row) && Bound(row.env, vs) && Eval(e, row.env) == Bool(true)
    ensures OnShard(s, row, shard)
    decreases e
  {
    AllBoundOnSplit(s, SelectionKeys(c, tables, e.left), RightKeys(c, tables, e), vs, shard);
    if e.op.Eq? {
      assert |RightKeys(c, tables, e)| == 1;
      assert KeyValue(RightKeys(c, tables, e)[0], vs).Some?;
    } else if BoundPinned(c, tables, e.left) && Eval(e.left, row.env) == Bool(true) {
      BoundPinnedHolds(s, c, tables, e.left, row, vs, shard);
    } else {
      BoundPinnedHolds(s, c, tables, e.right, row, vs, shard);
    }
  }

  lemma {:induction false} BoundKeysOfHas(s: Sharding.Sharder, c: KeyColumn, tables: seq<TableName>, es: seq<Expr>,
                                          i: nat, vs: seq<int>, shard: nat)
    requires s.shards > 0 && i < |es| && AllBoundOn(s, KeysOf(c, tables, es), vs, shard)
    ensures AllBoundOn(s, SelectionKeys(c, tables, es[i]), vs, shard)
  {
    var init := es[..|es| - 1];
    AllBoundOnSplit(s, KeysOf(c, tables, init), SelectionKeys(c, tables, es[|es| - 1]), vs, shard);
    if i < |es| - 1 {
      BoundKeysOfHas(s, c, tables, init, i, vs, shard);
    }
  }

  /** With a pinned condition and all keys on one shard, every row that satisfies the query is on that shard. */
  lemma {:induction false} BoundPruningSound(s: Sharding.Sharder, c: KeyColumn, b: Body, row: Row, vs: seq<int>,
                                             shard: nat)
    requires s.shards > 0 && AllBoundOn(s, BodyKeys(c, b), vs, shard) && BodyBoundPinned(c, b)
    requires Reads(c, TablesOf(b), row) && Bound(row.env, vs) && Satisfied(b, row.env)
    ensures OnShard(s, row, shard)
    decreases b
  {
    match b
    case Select(from, selection) =>
      var es := Predicates(from, selection);
      var i :| 0 <= i < |es| && BoundPinned(c, Tables(from), es[i]);
      BoundKeysOfHas(s, c, Tables(from), es, i, vs, shard);
      BoundPinnedHolds(s, c, Tables(from), es[i], row, vs, shard);
    case Nested(inner) =>
      BoundPruningSound(s, c, inner, row, vs, shard);
  }

  // ---------------------------------------------------------------- only then

  type Values = seq<string> -> Val

  function NamesOf(e: Expr): Option<seq<string>> {
    match e
    case Identifier(name) => Some([name])
    case CompoundIdentifier(names) => Some(names)
    case _ => None
  }

  /** The columns that are taken for the sharding key. */
  predicate IsKeyName(c: KeyColumn, tables: seq<TableName>, names: seq<string>) {
    || (|names| == 1 && NamesKey(c, tables, Identifier(names[0])))
    || NamesKey(c, tables, CompoundIdentifier(names))
  }

  /** A test of another column that the values given to such columns and the arguments meet. */
  ghost predicate IsMet(c: KeyColumn, tables: seq<TableName>, e: Expr, vs: seq<int>, given: Values) {
    && e.BinaryOp? && NamesOf(e.left).Some? && !IsKeyName(c, tables, NamesOf(e.left).value)
    && !given(NamesOf(e.left).value).Null?
    && (|| (&& e.right.Placeholder? && PositionOf(e.right.text).Some?
            && 1 <= PositionOf(e.right.text).value <= |vs|
            && given(NamesOf(e.left).value) == Int(vs[PositionOf(e.right.text).value - 1]))
        || (&& NamesOf(e.right).Some? && !IsKeyName(c, tables, NamesOf(e.right).value)
            && given(NamesOf(e.left).value) == given(NamesOf(e.right).value)))
  }

  /** AND and OR over tests of the key, opaque tests, and tests of other columns that can be met together. */
  ghost predicate Compatible(c: KeyColumn, tables: seq<TableName>, e: Expr, vs: seq<int>, given: Values) {
    || e.OtherExpr?
    || (e.BinaryOp? &&
        match e.op
        case And => Compatible(c, tables, e.left, vs, given) && Compatible(c, tables, e.right, vs, given)
        case Or => Compatible(c, tables, e.left, vs, given) && Compatible(c, tables, e.right, vs, given)
        case Eq => IsKeyTest(c, tables, e) || IsParameterTest(c, tables, e) || IsMet(c, tables, e, vs, given)
        case OtherOperator(_) => false)
  }

  ghost predicate BodyCompatible(c: KeyColumn, b: Body, vs: seq<int>, given: Values) {
    match b
    case Select(from, selection) =>
      var es := Predicates(from, selection);
      forall i :: 0 <= i < |es| ==> Compatible(c, Tables(from), es[i], vs, given)
    case Nested(inner) => BodyCompatible(c, inner, vs, given)
    case OtherBody => true
  }

  /** The row that is missed: its key is `other`, its other columns are as given, and opaque tests are true of it. */
  ghost function Astray(c: KeyColumn, tables: seq<TableName>, vs: seq<int>, given: Values, other: int): Row {
    Row(Some(other),
        Env(names => if IsKeyName(c, tables, names) then Int(other) else given(names),
            text => Argument(PositionOf(text), vs),
            _ => Null, _ => Bool(true), (_, _, _) => Null))
  }

  lemma AstrayReads(c: KeyColumn, tables: seq<TableName>, vs: seq<int>, given: Values, other: int)
    ensures Reads(c, tables, Astray(c, tables, vs, given, other))
  {
    var row := Astray(c, tables, vs, given, other);
    forall e | NamesKey(c, tables, e) ensures Eval(e, row.env) == Int(other) {
      if e.Identifier? {
        assert IsKeyName(c, tables, [e.name]);
      } else {
        assert IsKeyName(c, tables, e.names);
      }
    }
  }

  lemma AstrayIsBound(c: KeyColumn, tables: seq<TableName>, vs: seq<int>, given: Values, other: int)
    ensures Bound(Astray(c, tables, vs, given, other).env, vs)
  {
  }

  /** The other columns of the row are as given, and opaque tests are true of it. */
  ghost predicate IsGiven(c: KeyColumn, tables: seq<TableName>, env: Env, given: Values) {
    && (forall names :: !IsKeyName(c, tables, names) ==> env.column(names) == given(names))
    && (forall text :: env.other(text) == Bool(true))
  }

  lemma AstrayIsGiven(c: KeyColumn, tables: seq<TableName>, vs: seq<int>, given: Values, other: int)
    ensures IsGiven(c, tables, Astray(c, tables, vs, given, other).env, given)
  {
  }

  lemma MetHolds(c: KeyColumn, tables: seq<TableName>, e: Expr, vs: seq<int>, given: Values, env: Env)
    requires IsMet(c, tables, e, vs, given) && e.op.Eq? && IsGiven(c, tables, env, given) && Bound(env, vs)
    ensures Eval(e, env) == Bool(true)
  {
    assert Eval(e.left, env) == given(NamesOf(e.left).value);
    if e.right.Placeholder? {
      assert Eval(e.right, env) == Int(vs[PositionOf(e.right.text).value - 1]);
    } else {
      assert Eval(e.right, env) == given(NamesOf(e.right).value);
    }
  }

  lemma {:induction false} UnpinnedIsMet(c: KeyColumn, tables: seq<TableName>, e: Expr, vs: seq<int>, given: Values,
                                         env: Env)
    requires Compatible(c, tables, e, vs, given) && !BoundPinned(c, tables, e)
    requires IsGiven(c, tables, env, given) && Bound(env, vs)
    ensures Eval(e, env) == Bool(true)
    decreases e
  {
    if e.BinaryOp? {
      if e.op.Eq? {
        MetHolds(c, tables, e, vs, given, env);
      } else {
        if !BoundPinned(c, tables, e.left) {
          UnpinnedIsMet(c, tables, e.left, vs, given, env);
        }
        if !BoundPinned(c, tables, e.right) {
          UnpinnedIsMet(c, tables, e.right, vs, given, env);
        }
      }
    }
  }

  lemma {:induction false} UnpinnedIsSatisfied(c: KeyColumn, b: Body, vs: seq<int>, given: Values, env: Env)
    requires BodyCompatible(c, b, vs, given) && !BodyBoundPinned(c, b)
    requires IsGiven(c, TablesOf(b), env, given) && Bound(env, vs)
    ensures Satisfied(b, env)
    decreases b
  {
    match b
    case Select(from, selection) =>
      var es := Predicates(from, selection);
      forall i | 0 <= i < |es| ensures Eval(es[i], env) == Bool(true) {
        UnpinnedIsMet(c, Tables(from), es[i], vs, given, env);
      }
    case Nested(inner) => UnpinnedIsSatisfied(c, inner, vs, given, env);
    case OtherBody =>
  }

  /** Every row the query selects with these arguments is on the shard. */
  ghost predicate SelectsOnly(s: Sharding.Sharder, c: KeyColumn, b: Body, vs: seq<int>, shard: nat)
    requires s.shards > 0
  {
    forall row :: Reads(c, TablesOf(b), row) && Bound(row.env, vs) && Satisfied(b, row.env) ==> OnShard(s, row, shard)
  }

  /**
   * With all keys of a query, literals and arguments, on one shard: sending it there misses no row
   * exactly when some condition is pinned, as long as the other tests can be met together.
   */
  lemma BoundPruningExact(s: Sharding.Sharder, c: KeyColumn, b: Body, vs: seq<int>, shard: nat, given: Values,
                          other: int)
    requires s.shards > 0 && AllBoundOn(s, BodyKeys(c, b), vs, shard)
    requires Sharding.Shard(s, other) != shard && BodyCompatible(c, b, vs, given)
    ensures SelectsOnly(s, c, b, vs, shard) <==> BodyBoundPinned(c, b)
  {
    if BodyBoundPinned(c, b) {
      forall row | Reads(c, TablesOf(b), row) && Bound(row.env, vs) && Satisfied(b, row.env)
        ensures OnShard(s, row, shard)
      {
        BoundPruningSound(s, c, b, row, vs, shard);
      }
    } else {
      var row := Astray(c, TablesOf(b), vs, given, other);
      AstrayReads(c, TablesOf(b), vs, given, other);
      AstrayIsBound(c, TablesOf(b), vs, given, other);
      AstrayIsGiven(c, TablesOf(b), vs, given, other);
      UnpinnedIsSatisfied(c, b, vs, given, row.env);
      assert !OnShard(s, row, shard);
    }
  }

  // ---------------------------------------------------------------- through the router

  /** Every placeholder has an argument. */
  predicate InRange(recorded: seq<int>, n: nat) {
    forall i :: 0 <= i < |recorded| ==> 1 <= recorded[i] <= n
  }

  lemma {:induction false} PositionsHave(keys: seq<ShardingKey>, i: nat)
    requires i < |keys| && keys[i].Parameter?
    ensures keys[i].position in Positions(keys)
  {
    if i < |keys| - 1 {
      PositionsHave(keys[..|keys| - 1], i);
    }
  }

  lemma ArgumentsAreOn(p: Router.PoolSettings, keys: seq<ShardingKey>, vs: seq<int>, shard: nat)
    requires AllOn(Router.SharderOf(p), keys, shard) && Routing.AllHashTo(p, vs, shard)
    requires InRange(Positions(keys), |vs|)
    ensures AllBoundOn(Router.SharderOf(p), keys, vs, shard)
  {
    forall i | 0 <= i < |keys|
      ensures KeyValue(keys[i], vs).Some? && Sharding.Shard(Router.SharderOf(p), KeyValue(keys[i], vs).value) == shard
    {
      if keys[i].Parameter? {
        PositionsHave(keys, i);
        assert 1 <= keys[i].position <= |vs|;
      }
    }
  }

  lemma {:induction false} AsManyValues(ps: seq<Bind.Param>)
    ensures |Bind.ValuesOf(ps)| == |ps|
  {
    if ps != [] {
      AsManyValues(ps[1..]);
    }
  }

  /**
   * A statement whose placeholders have been recorded, then a Bind that gives each its argument: if
   * the client is moved to a shard, the literals are on it too and some condition is pinned, then
   * every row the query selects with those arguments is on that shard.
   */
  lemma BoundQueryIsRouted(s: Router.State, c: KeyColumn, b: Body, m: Bind.Message, shard: nat)
    requires s.placeholders == Positions(BodyKeys(c, b)) && s.placeholders != []
    requires Bind.WellFormed(m) && Bind.AllRecorded(s.placeholders, 0, |m.params|)
    requires InRange(s.placeholders, |m.params|)
    ensures var r := Router.AfterBind(s, Encode(Frame(Router.B, Bind.EncodeBody(m))));
            var sharder := Router.SharderOf(s.settings);
            r.Inferred? &&
            (r.known && r.state.shard == Some(shard)
             && AllOn(sharder, BodyKeys(c, b), shard) && BodyBoundPinned(c, b) ==>
               SelectsOnly(sharder, c, b, Bind.ValuesOf(m.params), shard))
  {
    var vs, sharder := Bind.ValuesOf(m.params), Router.SharderOf(s.settings);
    Routing.BindMovesExactly(s, m, shard);
    AsManyValues(m.params);
    if Routing.AllHashTo(s.settings, vs, shard) && AllOn(sharder, BodyKeys(c, b), shard) && BodyBoundPinned(c, b) {
      ArgumentsAreOn(s.settings, BodyKeys(c, b), vs, shard);
      forall row | Reads(c, TablesOf(b), row) && Bound(row.env, vs) && Satisfied(b, row.env)
        ensures OnShard(sharder, row, shard)
      {
        BoundPruningSound(sharder, c, b, row, vs, shard);
      }
    }
  }

  // ---------------------------------------------------------------- a placeholder for another column

  /** `SELECT ... FROM t WHERE x = $1`. */
  const BY_X: Body := FromT(BinaryOp(Identifier("x"), Eq, Placeholder("$1")))

  /** One argument, a `bigint` in binary. */
  function OneArgument(v: int): Bind.Message {
    Bind.Message([], [], [Bind.AsBinary], [Bind.Int8(v)], [])
  }

  lemma OneArgumentIsWellFormed(v: int)
    requires I64_MIN <= v <= I64_MAX
    ensures Bind.WellFormed(OneArgument(v)) && Bind.ValuesOf(OneArgument(v).params) == [v]
  {
    var m := OneArgument(v);
    assert m.params[1..] == [];
    assert Bind.EncodeParams(m.params) == Bind.EncodeParam(m.params[0]) + [];
    Bind.BodyLength(m);
  }

  lemma ByXKeys()
    ensures BodyKeys(KEY, BY_X) == [Parameter(1)] && Positions([Parameter(1)]) == [1] && TablesOf(BY_X) == [["t"]]
  {
    var condition := BinaryOp(Identifier("x"), Eq, Placeholder("$1"));
    PlaceholderIsNotChecked(KEY, [["t"]], Identifier("x"));
    FromTKeys(condition);
    assert Positions([Parameter(1)][..0]) == [];
  }

  /** A row with key `k` and `v` in column x. */
  ghost function XRow(k: int, v: int): Row {
    Row(Some(k), Env(names => if names == ["x"] then Int(v) else Int(k), _ => Int(v), _ => Null, _ => Null,
                     (_, _, _) => Null))
  }

  lemma XRowSatisfies(k: int, v: int)
    ensures var row := XRow(k, v); Reads(KEY, TablesOf(BY_X), row) && Bound(row.env, [v]) && Satisfied(BY_X, row.env)
  {
    FromTKeys(BinaryOp(Identifier("x"), Eq, Placeholder("$1")));
  }

  lemma ParseRecords(s: Router.State, w: Router.World, m: Router.Message)
    requires m[0] == Router.P && Router.QueryText(m).Some?
    requires w.parse(Router.QueryText(m).value) == Some([Router.Query(BY_X)])
    requires s.settings.automaticShardingKey == Some(KEY) && s.placeholders == []
    ensures var r := Router.AfterMessage(s, w, m);
            r.Inferred? && r.state.placeholders == [1] && r.state.settings == s.settings
  {
    ByXKeys();
    OneStatement(s, w, m, BY_X);
    QueryRecords(s, KEY, BY_X);
    assert s.placeholders + [1] == [1];
  }

  lemma OneStatement(s: Router.State, w: Router.World, m: Router.Message, b: Body)
    requires m[0] == Router.P && Router.QueryText(m).Some?
    requires w.parse(Router.QueryText(m).value) == Some([Router.Query(b)])
    ensures Router.AfterMessage(s, w, m) == Router.Inferred(Router.AfterQuery(s, b), true)
  {
    var ss := [Router.Query(b)];
    assert ss[1..] == [];
    assert Router.AfterStatements(s, ss) == Router.AfterStatements(Router.AfterQuery(s, b), []);
  }

  lemma QueryRecords(s: Router.State, c: KeyColumn, b: Body)
    requires s.settings.automaticShardingKey == Some(c)
    ensures var t := Router.AfterQuery(s, b);
            t.placeholders == s.placeholders + Positions(BodyKeys(c, b)) && t.settings == s.settings
  {
  }

  /**
   * Parse of `x = $1`, then Bind of v: the client is moved to the shard of v, and rows with any key
   * whatever satisfy the query, since x is not the sharding key.
   */
  lemma PlaceholderGoesAstray(s: Router.State, w: Router.World, m: Router.Message, v: int, k: int)
    requires m[0] == Router.P && Router.QueryText(m).Some? && I64_MIN <= v <= I64_MAX
    requires w.parse(Router.QueryText(m).value) == Some([Router.Query(BY_X)])
    requires s.settings.automaticShardingKey == Some(KEY) && s.placeholders == []
    ensures var parsed := Router.AfterMessage(s, w, m);
            && parsed.Inferred?
            && var bound := Router.AfterBind(parsed.state, Encode(Frame(Router.B, Bind.EncodeBody(OneArgument(v)))));
            bound.Inferred? && bound.state.shard == Some(Sharding.Shard(Router.SharderOf(s.settings), v))
    ensures var row := XRow(k, v); Reads(KEY, TablesOf(BY_X), row) && Bound(row.env, [v]) && Satisfied(BY_X, row.env)
  {
    ParseRecords(s, w, m);
    BindMoves(Router.AfterMessage(s, w, m).state, v);
    XRowSatisfies(k, v);
  }

  lemma BindMoves(s: Router.State, v: int)
    requires s.placeholders == [1] && I64_MIN <= v <= I64_MAX
    ensures var bound := Router.AfterBind(s, Encode(Frame(Router.B, Bind.EncodeBody(OneArgument(v)))));
            bound.Inferred? && bound.state.shard == Some(Sharding.Shard(Router.SharderOf(s.settings), v))
  {
    OneArgumentIsWellFormed(v);
    Routing.BindMovesExactly(s, OneArgument(v), Sharding.Shard(Router.SharderOf(s.settings), v));
  }
}
