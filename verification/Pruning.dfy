/**
 * Choosing a shard from the text of a query: which literals are taken for sharding keys, and when
 * sending the query to their shard alone gives the answer all shards would give.
 */
module Pruning {
  import opened Text
  import Sharding

  // ---------------------------------------------------------------- the parsed query

  datatype Operator = Eq | And | Or | OtherOperator(name: string)

  datatype Expr =
    | BinaryOp(left: Expr, op: Operator, right: Expr)
    | Identifier(name: string)
    | CompoundIdentifier(names: seq<string>)
    | Number(text: string)
    | Placeholder(text: string)
    | OtherExpr(text: string)  // parentheses, functions, strings, IS NULL, ...

  type TableName = seq<string>

  datatype TableFactor = Table(name: TableName) | OtherFactor
  datatype JoinOperator = InnerOn(on: Expr) | OtherJoin
  datatype Join = Join(relation: TableFactor, operator: JoinOperator)
  datatype TableWithJoins = TableWithJoins(relation: TableFactor, joins: seq<Join>)
  datatype Body =
    | Select(from: seq<TableWithJoins>, selection: Option<Expr>)
    | Nested(body: Body)
    | OtherBody

  /** The configured `automatic_sharding_key`, split at its dot. */
  datatype KeyColumn = KeyColumn(table: string, column: string)

  datatype ShardingKey = Value(key: int) | Parameter(position: int)

  // ---------------------------------------------------------------- selection_parser

  predicate TableIs(c: KeyColumn, table: TableName) {
    || (|table| == 1 && c.table == table[0])
    || (|table| == 2 && c.table == table[1])
  }

  /** The expression is taken for a reference to the sharding key. */
  predicate NamesKey(c: KeyColumn, tables: seq<TableName>, e: Expr) {
    match e
    case Identifier(name) => name == c.column && (c.table == "*" || (|tables| == 1 && TableIs(c, tables[0])))
    case CompoundIdentifier(names) => names == [c.table, c.column]
    case _ => false
  }

  function Without(s: string, c: char): string {
    if s == [] then [] else (if s[0] == c then [] else [s[0]]) + Without(s[1..], c)
  }

  function ParseI16(s: string): Option<int> {
    match ParseI64(s)
    case Some(v) => if -0x8000 <= v < 0x8000 then Some(v) else None
    case None => None
  }

  /** `selection_parser`. */
  function SelectionKeys(c: KeyColumn, tables: seq<TableName>, e: Expr): seq<ShardingKey>
    decreases e, 1
  {
    if !e.BinaryOp? || e.op.OtherOperator? then []
    else SelectionKeys(c, tables, e.left) + RightKeys(c, tables, e)
  }

  function RightKeys(c: KeyColumn, tables: seq<TableName>, e: Expr): seq<ShardingKey>
    requires e.BinaryOp?
    decreases e, 0
  {
    match e.right
    case BinaryOp(_, _, _) => SelectionKeys(c, tables, e.right)
    case Number(text) =>
      (match ParseI64(text)
       case Some(v) => if NamesKey(c, tables, e.left) then [Value(v)] else []
       case None => [])
    case Placeholder(text) =>
      (match ParseI16(Without(text, '$'))
       case Some(p) => [Parameter(p)]
       case None => [])
    case _ => []
  }

  // ---------------------------------------------------------------- infer_shard

  function FactorTables(f: TableFactor): seq<TableName> {
    match f case Table(name) => [name] case OtherFactor => []
  }

  function JoinTables(joins: seq<Join>): seq<TableName> {
    if joins == [] then [] else JoinTables(joins[..|joins| - 1]) + FactorTables(joins[|joins| - 1].relation)
  }

  function Tables(from: seq<TableWithJoins>): seq<TableName> {
    if from == [] then []
    else
      var last := from[|from| - 1];
      Tables(from[..|from| - 1]) + (FactorTables(last.relation) + JoinTables(last.joins))
  }

  function JoinConditions(joins: seq<Join>): seq<Expr> {
    if joins == [] then []
    else
      JoinConditions(joins[..|joins| - 1]) +
      (match joins[|joins| - 1].operator case InnerOn(on) => [on] case OtherJoin => [])
  }

  function Conditions(from: seq<TableWithJoins>): seq<Expr> {
    if from == [] then [] else Conditions(from[..|from| - 1]) + JoinConditions(from[|from| - 1].joins)
  }

  /** Every inner join condition, then the WHERE clause. */
  function Predicates(from: seq<TableWithJoins>, selection: Option<Expr>): seq<Expr> {
    Conditions(from) + (match selection case Some(e) => [e] case None => [])
  }

  function KeysOf(c: KeyColumn, tables: seq<TableName>, es: seq<Expr>): seq<ShardingKey> {
    if es == [] then [] else KeysOf(c, tables, es[..|es| - 1]) + SelectionKeys(c, tables, es[|es| - 1])
  }

  lemma KeysOfNext(c: KeyColumn, tables: seq<TableName>, es: seq<Expr>, i: nat)
    requires i < |es|
    ensures KeysOf(c, tables, es[..i + 1]) == KeysOf(c, tables, es[..i]) + SelectionKeys(c, tables, es[i])
  {
    assert es[..i + 1][..i] == es[..i];
  }

  function ShardsOf(s: Sharding.Sharder, keys: seq<ShardingKey>): set<nat>
    requires s.shards > 0
  {
    set k | k in keys && k.Value? :: Sharding.Shard(s, k.key)
  }

  /** The positions of the placeholders among the keys, in order. */
  function Positions(keys: seq<ShardingKey>): seq<int> {
    if keys == [] then []
    else Positions(keys[..|keys| - 1]) + (match keys[|keys| - 1] case Parameter(p) => [p] case Value(_) => [])
  }

  lemma {:induction false} PositionsSplit(a: seq<ShardingKey>, b: seq<ShardingKey>)
    ensures Positions(a + b) == Positions(a) + Positions(b)
  {
    if b == [] {
      assert a + b == a;
    } else {
      PositionsSplit(a, b[..|b| - 1]);
      assert (a + b)[..|a + b| - 1] == a + b[..|b| - 1];
    }
  }

  function BodyKeys(c: KeyColumn, b: Body): seq<ShardingKey> {
    match b
    case Select(from, selection) => KeysOf(c, Tables(from), Predicates(from, selection))
    case Nested(inner) => BodyKeys(c, inner)
    case OtherBody => []
  }

  /** One shard, if there is exactly one. */
  ghost function Single(shards: set<nat>): Option<nat> {
    if exists x :: shards == {x} then
      var x :| shards == {x};
      Some(x)
    else None
  }

  lemma SingleIs(shards: set<nat>, x: nat)
    requires shards == {x}
    ensures Single(shards) == Some(x)
  {
    var y :| shards == {y} && Single(shards) == Some(y);
    assert y in shards;
  }

  lemma SingleByCount(shards: set<nat>, x: nat)
    requires |shards| == 1 && x in shards
    ensures Single(shards) == Some(x)
  {
    assert |shards - {x}| == 0;
    assert shards == {x};
    SingleIs(shards, x);
  }

  lemma SingleCounted(shards: set<nat>)
    requires |shards| != 1
    ensures Single(shards) == None
  {
  }

  /** What `infer_shard` returns. */
  ghost function InferredShard(s: Sharding.Sharder, c: KeyColumn, b: Body): Option<nat>
    requires s.shards > 0
  {
    Single(ShardsOf(s, BodyKeys(c, b)))
  }

  // ---------------------------------------------------------------- SQL values

  datatype Truth = Yes | No | Unknown

  function Conj(a: Truth, b: Truth): Truth {
    if a.No? || b.No? then No else if a.Yes? && b.Yes? then Yes else Unknown
  }

  function Disj(a: Truth, b: Truth): Truth {
    if a.Yes? || b.Yes? then Yes else if a.No? && b.No? then No else Unknown
  }

  datatype Val = Null | Bool(b: bool) | Int(n: int) | Datum(text: string)

  /** A joined row and the parameters of the query; operators and functions are arbitrary. */
  datatype Env = Env(column: seq<string> -> Val, parameter: string -> Val, constant: string -> Val,
                     other: string -> Val, apply: (string, Val, Val) -> Val)

  function TruthOf(v: Val): Truth {
    match v case Bool(b) => (if b then Yes else No) case _ => Unknown
  }

  function ValOf(t: Truth): Val {
    match t case Yes => Bool(true) case No => Bool(false) case Unknown => Null
  }

  function Equal(a: Val, b: Val): Val {
    if a.Null? || b.Null? then Null else Bool(a == b)
  }

  /** The value of an expression in SQL. */
  function Eval(e: Expr, env: Env): Val {
    match e
    case BinaryOp(l, op, r) =>
      (match op
       case Eq => Equal(Eval(l, env), Eval(r, env))
       case And => ValOf(Conj(TruthOf(Eval(l, env)), TruthOf(Eval(r, env))))
       case Or => ValOf(Disj(TruthOf(Eval(l, env)), TruthOf(Eval(r, env))))
       case OtherOperator(name) => env.apply(name, Eval(l, env), Eval(r, env)))
    case Identifier(name) => env.column([name])
    case CompoundIdentifier(names) => env.column(names)
    case Number(text) => (match ParseI64(text) case Some(v) => Int(v) case None => env.constant(text))
    case Placeholder(text) => env.parameter(text)
    case OtherExpr(text) => env.other(text)
  }

  /** A row of the sharded table, joined with what the query joins it with; its key may be null. */
  datatype Row = Row(key: Option<int>, env: Env)

  /** The references taken for the sharding key do read it. */
  ghost predicate Reads(c: KeyColumn, tables: seq<TableName>, row: Row) {
    forall e :: NamesKey(c, tables, e) ==>
      Eval(e, row.env) == (match row.key case Some(k) => Int(k) case None => Null)
  }

  function TablesOf(b: Body): seq<TableName> {
    match b case Select(from, _) => Tables(from) case Nested(inner) => TablesOf(inner) case OtherBody => []
  }

  /** Every condition of the query evaluates to true. */
  ghost predicate Satisfied(b: Body, env: Env) {
    match b
    case Select(from, selection) =>
      var es := Predicates(from, selection);
      forall i :: 0 <= i < |es| ==> Eval(es[i], env) == Bool(true)
    case Nested(inner) => Satisfied(inner, env)
    case OtherBody => true
  }

  // ---------------------------------------------------------------- pinned conditions

  /** `key = literal`. */
  predicate IsKeyTest(c: KeyColumn, tables: seq<TableName>, e: Expr) {
    && e.BinaryOp? && e.op.Eq?
    && NamesKey(c, tables, e.left) && e.right.Number? && ParseI64(e.right.text).Some?
  }

  /** Whatever the other tests say, the condition is true only with one of the keys found in it. */
  predicate Pinned(c: KeyColumn, tables: seq<TableName>, e: Expr) {
    && e.BinaryOp?
    && match e.op
       case And => Pinned(c, tables, e.left) || Pinned(c, tables, e.right)
       case Or => Pinned(c, tables, e.left) && Pinned(c, tables, e.right)
       case _ => IsKeyTest(c, tables, e)
  }

  predicate BodyPinned(c: KeyColumn, b: Body) {
    match b
    case Select(from, selection) =>
      var es := Predicates(from, selection);
      exists i :: 0 <= i < |es| && Pinned(c, Tables(from), es[i])
    case Nested(inner) => BodyPinned(c, inner)
    case OtherBody => false
  }

  ghost predicate OnShard(s: Sharding.Sharder, row: Row, shard: nat)
    requires s.shards > 0
  {
    row.key.Some? && Sharding.Shard(s, row.key.value) == shard
  }

  predicate AllOn(s: Sharding.Sharder, keys: seq<ShardingKey>, shard: nat)
    requires s.shards > 0
  {
    forall i :: 0 <= i < |keys| && keys[i].Value? ==> Sharding.Shard(s, keys[i].key) == shard
  }

  lemma InferredAllOn(s: Sharding.Sharder, c: KeyColumn, b: Body, shard: nat)
    requires s.shards > 0 && InferredShard(s, c, b) == Some(shard)
    ensures AllOn(s, BodyKeys(c, b), shard)
    ensures exists i :: 0 <= i < |BodyKeys(c, b)| && BodyKeys(c, b)[i].Value?
  {
    var keys := BodyKeys(c, b);
    assert ShardsOf(s, keys) == {shard};
    forall i | 0 <= i < |keys| && keys[i].Value? ensures Sharding.Shard(s, keys[i].key) == shard {
      assert keys[i] in keys;
      assert Sharding.Shard(s, keys[i].key) in ShardsOf(s, keys);
    }
    assert shard in ShardsOf(s, keys);
  }

  lemma AllOnSplit(s: Sharding.Sharder, a: seq<ShardingKey>, b: seq<ShardingKey>, shard: nat)
    requires s.shards > 0
    ensures AllOn(s, a + b, shard) <==> AllOn(s, a, shard) && AllOn(s, b, shard)
  {
    var ab := a + b;
    if AllOn(s, ab, shard) {
      forall i | 0 <= i < |a| && a[i].Value? ensures Sharding.Shard(s, a[i].key) == shard {
        assert ab[i] == a[i];
      }
      forall i | 0 <= i < |b| && b[i].Value? ensures Sharding.Shard(s, b[i].key) == shard {
        assert ab[|a| + i] == b[i];
      }
    }
  }

  /** A pinned condition is true only of rows on the shard of its keys. */
  lemma {:induction false} PinnedHolds(s: Sharding.Sharder, c: KeyColumn, tables: seq<TableName>, e: Expr,
                                       row: Row, shard: nat)
    requires s.shards > 0 && Pinned(c, tables, e) && AllOn(s, SelectionKeys(c, tables, e), shard)
    requires Reads(c, tables, row) && Eval(e, row.env) == Bool(true)
    ensures OnShard(s, row, shard)
    decreases e
  {
    AllOnSplit(s, SelectionKeys(c, tables, e.left), RightKeys(c, tables, e), shard);
    if e.op.Eq? {
      assert RightKeys(c, tables, e) == [Value(ParseI64(e.right.text).value)];
      assert RightKeys(c, tables, e)[0].Value?;
    } else if Pinned(c, tables, e.left) && Eval(e.left, row.env) == Bool(true) {
      PinnedHolds(s, c, tables, e.left, row, shard);
    } else {
      PinnedHolds(s, c, tables, e.right, row, shard);
    }
  }

  lemma {:induction false} KeysOfHas(s: Sharding.Sharder, c: KeyColumn, tables: seq<TableName>, es: seq<Expr>,
                                     i: nat, shard: nat)
    requires s.shards > 0 && i < |es| && AllOn(s, KeysOf(c, tables, es), shard)
    ensures AllOn(s, SelectionKeys(c, tables, es[i]), shard)
  {
    var init := es[..|es| - 1];
    AllOnSplit(s, KeysOf(c, tables, init), SelectionKeys(c, tables, es[|es| - 1]), shard);
    if i < |es| - 1 {
      KeysOfHas(s, c, tables, init, i, shard);
    }
  }

  lemma {:induction false} PinnedSelects(s: Sharding.Sharder, c: KeyColumn, b: Body, row: Row, shard: nat)
    requires s.shards > 0 && AllOn(s, BodyKeys(c, b), shard)
    requires BodyPinned(c, b) && Reads(c, TablesOf(b), row) && Satisfied(b, row.env)
    ensures OnShard(s, row, shard)
    decreases b
  {
    match b
    case Select(from, selection) =>
      var es := Predicates(from, selection);
      var i :| 0 <= i < |es| && Pinned(c, Tables(from), es[i]);
      KeysOfHas(s, c, Tables(from), es, i, shard);
      PinnedHolds(s, c, Tables(from), es[i], row, shard);
    case Nested(inner) =>
      PinnedSelects(s, c, inner, row, shard);
  }

  /**
   * Under SQL's own semantics, with a pinned condition: every row that satisfies the query has a
   * key, and it hashes to the shard the query is sent to.
   */
  lemma PruningPreservesMeaning(s: Sharding.Sharder, c: KeyColumn, b: Body, shard: nat, row: Row)
    requires s.shards > 0 && InferredShard(s, c, b) == Some(shard) && BodyPinned(c, b)
    requires Reads(c, TablesOf(b), row) && Satisfied(b, row.env)
    ensures row.key.Some? && Sharding.Shard(s, row.key.value) == shard
  {
    InferredAllOn(s, c, b, shard);
    PinnedSelects(s, c, b, row, shard);
  }

  // ---------------------------------------------------------------- tests that are free of the key

  /** A column or a parameter: nothing in the query fixes its value. */
  predicate IsFree(e: Expr) {
    e.Identifier? || e.CompoundIdentifier? || e.Placeholder?
  }

  /** AND and OR over key tests, opaque tests, and equalities of columns and parameters, as in joins. */
  predicate Independent(c: KeyColumn, tables: seq<TableName>, e: Expr) {
    || e.OtherExpr?
    || (e.BinaryOp? &&
        match e.op
        case And => Independent(c, tables, e.left) && Independent(c, tables, e.right)
        case Or => Independent(c, tables, e.left) && Independent(c, tables, e.right)
        case Eq => IsKeyTest(c, tables, e) || (IsFree(e.left) && IsFree(e.right))
        case OtherOperator(_) => false)
  }

  predicate BodyIndependent(c: KeyColumn, b: Body) {
    match b
    case Select(from, selection) =>
      var es := Predicates(from, selection);
      forall i :: 0 <= i < |es| ==> Independent(c, Tables(from), es[i])
    case Nested(inner) => BodyIndependent(c, inner)
    case OtherBody => true
  }

  /** The row that pruning would miss: its key and all its columns are `other`, and opaque tests are true of it. */
  ghost function Elsewhere(other: int): Row {
    Row(Some(other), Env(_ => Int(other), _ => Int(other), _ => Null, _ => Bool(true), (_, _, _) => Null))
  }

  lemma {:induction false} UnpinnedHolds(s: Sharding.Sharder, c: KeyColumn, tables: seq<TableName>, e: Expr,
                                         other: int, shard: nat)
    requires s.shards > 0 && AllOn(s, SelectionKeys(c, tables, e), shard) && Sharding.Shard(s, other) != shard
    requires Independent(c, tables, e) && !Pinned(c, tables, e)
    ensures Eval(e, Elsewhere(other).env) == Bool(true)
    decreases e
  {
    if e.BinaryOp? && (e.op.And? || e.op.Or?) {
      AllOnSplit(s, SelectionKeys(c, tables, e.left), RightKeys(c, tables, e), shard);
      if !Pinned(c, tables, e.left) {
        UnpinnedHolds(s, c, tables, e.left, other, shard);
      }
      if !Pinned(c, tables, e.right) {
        UnpinnedHolds(s, c, tables, e.right, other, shard);
      }
    }
  }

  lemma {:induction false} PruningMisses(s: Sharding.Sharder, c: KeyColumn, b: Body, other: int, shard: nat)
    requires s.shards > 0 && AllOn(s, BodyKeys(c, b), shard) && Sharding.Shard(s, other) != shard
    requires BodyIndependent(c, b) && !BodyPinned(c, b)
    ensures Satisfied(b, Elsewhere(other).env) && !OnShard(s, Elsewhere(other), shard)
    decreases b
  {
    match b
    case Select(from, selection) =>
      var es := Predicates(from, selection);
      forall i | 0 <= i < |es| ensures Eval(es[i], Elsewhere(other).env) == Bool(true) {
        KeysOfHas(s, c, Tables(from), es, i, shard);
        UnpinnedHolds(s, c, Tables(from), es[i], other, shard);
      }
    case Nested(inner) =>
      PruningMisses(s, c, inner, other, shard);
    case OtherBody =>
  }

  // ---------------------------------------------------------------- the answer of a query

  /** The rows of a table that a query selects. */
  ghost function Answer(b: Body, rows: seq<Row>): seq<Row> {
    if rows == [] then []
    else (if Satisfied(b, rows[0].env) then [rows[0]] else []) + Answer(b, rows[1..])
  }

  /** The part of a table that one shard holds. */
  ghost function Part(s: Sharding.Sharder, rows: seq<Row>, shard: nat): seq<Row>
    requires s.shards > 0
  {
    if rows == [] then []
    else (if OnShard(s, rows[0], shard) then [rows[0]] else []) + Part(s, rows[1..], shard)
  }

  ghost predicate AreRows(c: KeyColumn, b: Body, rows: seq<Row>) {
    forall i :: 0 <= i < |rows| ==> Reads(c, TablesOf(b), rows[i])
  }

  /** One shard gives the answer of the whole table. */
  ghost predicate Agrees(s: Sharding.Sharder, b: Body, rows: seq<Row>, shard: nat)
    requires s.shards > 0
  {
    Answer(b, Part(s, rows, shard)) == Answer(b, rows)
  }

  lemma AnswerCons(b: Body, row: Row, rows: seq<Row>)
    ensures Answer(b, [row] + rows) == (if Satisfied(b, row.env) then [row] else []) + Answer(b, rows)
  {
    assert ([row] + rows)[1..] == rows;
  }

  lemma {:induction false} PinnedAgrees(s: Sharding.Sharder, c: KeyColumn, b: Body, rows: seq<Row>, shard: nat)
    requires s.shards > 0 && AllOn(s, BodyKeys(c, b), shard) && BodyPinned(c, b) && AreRows(c, b, rows)
    ensures Agrees(s, b, rows, shard)
  {
    if rows != [] {
      PinnedAgrees(s, c, b, rows[1..], shard);
      if Satisfied(b, rows[0].env) {
        PinnedSelects(s, c, b, rows[0], shard);
      }
      if OnShard(s, rows[0], shard) {
        AnswerCons(b, rows[0], Part(s, rows[1..], shard));
      } else {
        assert Part(s, rows, shard) == Part(s, rows[1..], shard);
        assert Answer(b, rows) == Answer(b, rows[1..]);
      }
    }
  }

  /**
   * Shard pruning preserves meaning on every table exactly for the queries with a pinned condition,
   * as long as the other tests are independent of the key; the if half needs no such provision.
   * `other` is any key of another shard: with a single shard there is nothing to prune.
   */
  lemma PruningExact(s: Sharding.Sharder, c: KeyColumn, b: Body, shard: nat, other: int)
    requires s.shards > 0 && InferredShard(s, c, b) == Some(shard) && Sharding.Shard(s, other) != shard
    ensures BodyPinned(c, b) ==> forall rows :: AreRows(c, b, rows) ==> Agrees(s, b, rows, shard)
    ensures BodyIndependent(c, b) && (forall rows :: AreRows(c, b, rows) ==> Agrees(s, b, rows, shard)) ==>
              BodyPinned(c, b)
  {
    InferredAllOn(s, c, b, shard);
    if BodyPinned(c, b) {
      forall rows | AreRows(c, b, rows) ensures Agrees(s, b, rows, shard) {
        PinnedAgrees(s, c, b, rows, shard);
      }
    } else if BodyIndependent(c, b) {
      PruningMisses(s, c, b, other, shard);
      var rows := [Elsewhere(other)];
      AnswerCons(b, rows[0], []);
      assert Part(s, rows, shard) == [];
      assert AreRows(c, b, rows) && !Agrees(s, b, rows, shard);
    }
  }

  // ---------------------------------------------------------------- conditions without OR

  /** No OR, no key inside the operands of an equality, and no bare number as an operand of AND. */
  predicate Conjunctive(c: KeyColumn, tables: seq<TableName>, e: Expr) {
    e.BinaryOp? ==>
      match e.op
      case And => Conjunctive(c, tables, e.left) && Conjunctive(c, tables, e.right) && !e.right.Number?
      case Or => false
      case Eq => NoValue(SelectionKeys(c, tables, e.left)) &&
                 (e.right.BinaryOp? ==> NoValue(SelectionKeys(c, tables, e.right)))
      case OtherOperator(_) => true
  }

  predicate NoValue(keys: seq<ShardingKey>) {
    forall i :: 0 <= i < |keys| ==> !keys[i].Value?
  }

  lemma NoValueSplit(a: seq<ShardingKey>, b: seq<ShardingKey>)
    requires NoValue(a) && NoValue(b)
    ensures NoValue(a + b)
  {
  }

  lemma {:induction false} ConjunctivePinned(c: KeyColumn, tables: seq<TableName>, e: Expr)
    requires Conjunctive(c, tables, e) && !Pinned(c, tables, e)
    ensures NoValue(SelectionKeys(c, tables, e))
    decreases e
  {
    if e.BinaryOp? && !e.op.OtherOperator? {
      if e.op.And? {
        ConjunctivePinned(c, tables, e.left);
        if e.right.BinaryOp? {
          ConjunctivePinned(c, tables, e.right);
        }
      }
      NoValueSplit(SelectionKeys(c, tables, e.left), RightKeys(c, tables, e));
    }
  }

  predicate BodyConjunctive(c: KeyColumn, b: Body) {
    match b
    case Select(from, selection) =>
      var es := Predicates(from, selection);
      forall i :: 0 <= i < |es| ==> Conjunctive(c, Tables(from), es[i])
    case Nested(inner) => BodyConjunctive(c, inner)
    case OtherBody => true
  }

  lemma {:induction false} KeysOfNone(c: KeyColumn, tables: seq<TableName>, es: seq<Expr>)
    requires forall i :: 0 <= i < |es| ==> Conjunctive(c, tables, es[i]) && !Pinned(c, tables, es[i])
    ensures NoValue(KeysOf(c, tables, es))
  {
    if es != [] {
      var init, last := es[..|es| - 1], es[|es| - 1];
      KeysOfNone(c, tables, init);
      ConjunctivePinned(c, tables, last);
      NoValueSplit(KeysOf(c, tables, init), SelectionKeys(c, tables, last));
    }
  }

  lemma {:induction false} FoundMeansPinned(c: KeyColumn, b: Body)
    requires BodyConjunctive(c, b)
    ensures BodyPinned(c, b) || NoValue(BodyKeys(c, b))
    decreases b
  {
    match b
    case Select(from, selection) =>
      if !BodyPinned(c, b) {
        KeysOfNone(c, Tables(from), Predicates(from, selection));
      }
    case Nested(inner) => FoundMeansPinned(c, inner);
    case OtherBody =>
  }

  /** A literal found in a query without OR, without keys inside equalities, pins the query. */
  lemma ConjunctiveIsPinned(s: Sharding.Sharder, c: KeyColumn, b: Body, shard: nat)
    requires s.shards > 0 && InferredShard(s, c, b) == Some(shard) && BodyConjunctive(c, b)
    ensures BodyPinned(c, b)
  {
    InferredAllOn(s, c, b, shard);
    FoundMeansPinned(c, b);
  }

  // ---------------------------------------------------------------- queries that are sent astray

  const KEY := KeyColumn("t", "id")

  /** `SELECT ... FROM t WHERE <condition>`. */
  function FromT(condition: Expr): Body {
    Select([TableWithJoins(Table(["t"]), [])], Some(condition))
  }

  function IdIs(v: int): Expr {
    BinaryOp(Identifier("id"), Eq, Number(Signed(v)))
  }

  ghost function RowWith(key: int, flag: bool): Row {
    Row(Some(key), Env(_ => Int(key), _ => Null, _ => Null, _ => Bool(flag), (_, _, _) => Null))
  }

  lemma FromTKeys(condition: Expr)
    ensures BodyKeys(KEY, FromT(condition)) == SelectionKeys(KEY, [["t"]], condition)
    ensures TablesOf(FromT(condition)) == [["t"]]
    ensures Predicates(FromT(condition).from, Some(condition)) == [condition]
  {
    var from := FromT(condition).from;
    assert Tables(from) == [["t"]] && Conditions(from) == [];
    assert KeysOf(KEY, [["t"]], [condition]) == KeysOf(KEY, [["t"]], []) + SelectionKeys(KEY, [["t"]], condition);
  }

  lemma IdIsKeys(v: int)
    requires I64_MIN <= v <= I64_MAX
    ensures SelectionKeys(KEY, [["t"]], IdIs(v)) == [Value(v)]
    ensures ParseI64(Signed(v)) == Some(v)
  {
    SignedRoundTrip(v);
  }

  lemma InferredOne(s: Sharding.Sharder, condition: Expr, v: int)
    requires s.shards > 0 && SelectionKeys(KEY, [["t"]], condition) == [Value(v)]
    ensures InferredShard(s, KEY, FromT(condition)) == Some(Sharding.Shard(s, v))
  {
    FromTKeys(condition);
    var shards := ShardsOf(s, [Value(v)]);
    assert Value(v) in [Value(v)];
    assert shards == {Sharding.Shard(s, v)};
    SingleIs(shards, Sharding.Shard(s, v));
  }

  /** `id = v OR flag` is sent to the shard of v, yet a row with any other key satisfies it. */
  lemma OrGoesAstray(s: Sharding.Sharder, v: int, other: int)
    requires s.shards > 0 && I64_MIN <= v <= I64_MAX
    ensures var q := FromT(BinaryOp(IdIs(v), Or, OtherExpr("flag")));
            && InferredShard(s, KEY, q) == Some(Sharding.Shard(s, v))
            && Reads(KEY, TablesOf(q), RowWith(other, true))
            && Satisfied(q, RowWith(other, true).env)
  {
    var condition := BinaryOp(IdIs(v), Or, OtherExpr("flag"));
    IdIsKeys(v);
    FromTKeys(condition);
    assert SelectionKeys(KEY, [["t"]], condition) == [Value(v)];
    InferredOne(s, condition, v);
    assert Eval(condition, RowWith(other, true).env) == Bool(true);
  }

  /** So is `id = v = flag`, which a row with another key satisfies when its flag is false. */
  lemma EqualityOfEqualityGoesAstray(s: Sharding.Sharder, v: int, other: int)
    requires s.shards > 0 && I64_MIN <= v <= I64_MAX && other != v
    ensures var q := FromT(BinaryOp(IdIs(v), Eq, OtherExpr("flag")));
            && InferredShard(s, KEY, q) == Some(Sharding.Shard(s, v))
            && Reads(KEY, TablesOf(q), RowWith(other, false))
            && Satisfied(q, RowWith(other, false).env)
  {
    var condition := BinaryOp(IdIs(v), Eq, OtherExpr("flag"));
    IdIsKeys(v);
    FromTKeys(condition);
    assert SelectionKeys(KEY, [["t"]], condition) == [Value(v)];
    InferredOne(s, condition, v);
    assert Eval(IdIs(v), RowWith(other, false).env) == Bool(false);
    assert Eval(condition, RowWith(other, false).env) == Bool(true);
  }

  /**
   * Outside the independent tests pruning can be right without a pinned condition: `id = v OR v = id`
   * is true only of rows with key v, although the second test is not recognised.
   */
  lemma ReversedTestIsUnseen(s: Sharding.Sharder, v: int, row: Row)
    requires s.shards > 0 && I64_MIN <= v <= I64_MAX
    ensures var q := FromT(BinaryOp(IdIs(v), Or, BinaryOp(Number(Signed(v)), Eq, Identifier("id"))));
            && InferredShard(s, KEY, q) == Some(Sharding.Shard(s, v)) && !BodyPinned(KEY, q)
            && (Reads(KEY, TablesOf(q), row) && Satisfied(q, row.env) ==> row.key == Some(v))
  {
    var reversed := BinaryOp(Number(Signed(v)), Eq, Identifier("id"));
    var condition := BinaryOp(IdIs(v), Or, reversed);
    IdIsKeys(v);
    FromTKeys(condition);
    assert SelectionKeys(KEY, [["t"]], reversed) == [];
    assert SelectionKeys(KEY, [["t"]], condition) == [Value(v)];
    InferredOne(s, condition, v);
    assert !Pinned(KEY, [["t"]], reversed);
    var q := FromT(condition);
    if Reads(KEY, TablesOf(q), row) && Satisfied(q, row.env) {
      assert NamesKey(KEY, [["t"]], Identifier("id"));
      assert Eval(Predicates(q.from, q.selection)[0], row.env) == Bool(true);
      EitherWay(v, row.env);
    }
  }

  lemma EitherWay(v: int, env: Env)
    requires I64_MIN <= v <= I64_MAX
    requires Eval(BinaryOp(IdIs(v), Or, BinaryOp(Number(Signed(v)), Eq, Identifier("id"))), env) == Bool(true)
    ensures Eval(Identifier("id"), env) == Int(v)
  {
    SignedRoundTrip(v);
    var id := Eval(Identifier("id"), env);
    assert Eval(Number(Signed(v)), env) == Int(v);
    assert Eval(IdIs(v), env) == Equal(id, Int(v));
    assert Eval(BinaryOp(Number(Signed(v)), Eq, Identifier("id")), env) == Equal(Int(v), id);
  }

  /** A placeholder is recorded whatever column it is compared with. */
  lemma PlaceholderIsNotChecked(c: KeyColumn, tables: seq<TableName>, column: Expr)
    requires !column.BinaryOp?
    ensures SelectionKeys(c, tables, BinaryOp(column, Eq, Placeholder("$1"))) == [Parameter(1)]
  {
    assert Without("$1", '$') == "1" by {
      assert "$1"[1..] == "1" && "1"[1..] == [];
    }
    assert ParseI64("1") == Some(1);
  }
}
