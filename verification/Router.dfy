/** The query router: which shard and which role every message of a client is sent to. */
module Router {
  import opened Text
  import opened Wire
  import Bind
  import Failover
  import Pruning
  import Sharding

  type Role = Failover.Role
  type Count = n: nat | n > 0 witness 1

  /** A whole message as `read_message` returns it: a code, a length word and a body. */
  type Message = m: Bytes | |m| >= 5 witness [0, 0, 0, 0, 0]

  const B: byte := 66
  const D: byte := 68
  const E: byte := 69
  const P: byte := 80
  const Q: byte := 81
  const X: byte := 88

  datatype Statement = StartTransaction | Query(body: Pruning.Body) | OtherStatement

  datatype RoleName = ToPrimary | ToReplica | ToAny | ToAuto | ToDefault

  /** A custom command with what its regular expression captured. */
  datatype Command =
    | SetShardingKey(numeral: string)
    | SetShard(numeral: string)
    | SetShardToAny(word: string)
    | ShowShard
    | SetServerRole(name: RoleName)
    | ShowServerRole
    | SetPrimaryReads(word: string)
    | ShowPrimaryReads

  /** The regular expressions of the custom commands and the SQL parser. */
  datatype World = World(command: Bytes -> Option<Command>, parse: Bytes -> Option<seq<Statement>>)

  /** The two comment patterns are given by what they find in the part of a message that is searched. */
  datatype PoolSettings = PoolSettings(
    shards: Count, defaultRole: Option<Role>, queryParserEnabled: bool, primaryReadsEnabled: bool,
    shardingFunction: Sharding.ShardingFunction, automaticShardingKey: Option<Pruning.KeyColumn>,
    shardingKeyIn: Option<Bytes -> Option<int>>, shardIdIn: Option<Bytes -> Option<nat>>, searchLimit: nat)

  datatype State = State(shard: Option<nat>, role: Option<Role>, parser: Option<bool>, reading: Option<bool>,
                         settings: PoolSettings, placeholders: seq<int>)

  const DEFAULT := PoolSettings(1, None, false, true, Sharding.PG_BIGINT_HASH, None, None, None, 1000)
  const NEW := State(None, None, None, None, DEFAULT, [])

  function ParserEnabled(s: State): bool {
    match s.parser case Some(b) => b case None => s.settings.queryParserEnabled
  }

  function ReadsEnabled(s: State): bool {
    match s.reading case Some(b) => b case None => s.settings.primaryReadsEnabled
  }

  function ShardOf(s: State): nat {
    match s.shard case Some(n) => n case None => 0
  }

  function SharderOf(p: PoolSettings): (r: Sharding.Sharder)
    ensures r.shards > 0
  {
    Sharding.Sharder(p.shards, p.shardingFunction)
  }

  // ---------------------------------------------------------------- try_execute_command

  datatype Outcome = Regular(state: State) | Done(state: State, command: Command, value: string) | Panics

  function ParseUsize(s: string): Option<nat> {
    match ParseNat(s) case Some(n) => (if n < Sharding.LONG then Some(n) else None) case None => None
  }

  predicate HasPatterns(p: PoolSettings) {
    p.shardIdIn.Some? || p.shardingKeyIn.Some?
  }

  /**
   * The part of the message that is searched: five bytes less than its length word says, up to the
   * limit. A length word below five wraps around and leaves the limit. `None` where the slice is out
   * of bounds and the source panics.
   */
  function Segment(p: PoolSettings, m: Message): Option<Bytes> {
    var len := GetI32(m[1..5]);
    var size := if 5 <= len <= p.searchLimit + 5 then len - 5 else p.searchLimit;
    if size > |m| then None else Some(m[..size])
  }

  /** The shard a comment asks for. */
  function Commented(p: PoolSettings, segment: Bytes): Option<nat> {
    if p.shardIdIn.Some? && p.shardIdIn.value(segment).Some? then p.shardIdIn.value(segment)
    else if p.shardingKeyIn.Some? && p.shardingKeyIn.value(segment).Some? then
      Some(Sharding.Shard(SharderOf(p), p.shardingKeyIn.value(segment).value))
    else None
  }

  datatype Comment = NoComment | AsksFor(shard: nat) | OutOfBounds

  function CommentOf(p: PoolSettings, m: Message): Comment {
    if !HasPatterns(p) || (m[0] != P && m[0] != Q) then NoComment
    else
      match Segment(p, m)
      case None => OutOfBounds
      case Some(segment) => match Commented(p, segment) case Some(n) => AsksFor(n) case None => NoComment
  }

  /** `read_string`; `None` where the source panics. */
  function CString(data: Bytes): Option<Bytes> {
    if data == [] then None
    else match CStringLength(data) case Some(k) => Some(data[..k]) case None => Some(data[..|data| - 1])
  }

  /** The text matched against the commands: with a comment pattern configured it lacks four bytes. */
  function CommandText(p: PoolSettings, m: Message): Option<Bytes> {
    if !HasPatterns(p) then CString(m[5..]) else if |m| < 9 then None else CString(m[9..])
  }

  function RoleText(s: State): string {
    match s.role
    case Some(Primary) => "primary"
    case Some(Replica) => "replica"
    case Some(Mirror) => "mirror"
    case None => if ParserEnabled(s) then "auto" else "any"
  }

  function WithRole(s: State, name: RoleName): State {
    match name
    case ToPrimary => s.(role := Some(Failover.Primary), parser := Some(false))
    case ToReplica => s.(role := Some(Failover.Replica), parser := Some(false))
    case ToAny => s.(role := None, parser := Some(false))
    case ToAuto => s.(role := None, parser := Some(true))
    case ToDefault => s.(role := s.settings.defaultRole, parser := None)
  }

  function RoleWord(name: RoleName): string {
    match name
    case ToPrimary => "primary"
    case ToReplica => "replica"
    case ToAny => "any"
    case ToAuto => "auto"
    case ToDefault => "default"
  }

  /** The words are compared as written, though the pattern ignores case. */
  function WithReads(s: State, word: string): State {
    s.(reading := if word == "on" then Some(true) else if word == "off" then Some(false)
                else if word == "default" then None else s.reading)
  }

  /** A command on the router; `None` where a numeral does not fit and the source panics. */
  function Execute(s: State, c: Command, draw: nat): Option<(State, string)> {
    match c
    case SetShardingKey(numeral) =>
      (match ParseI64(numeral)
       case None => None
       case Some(k) =>
         var shard := Sharding.Shard(SharderOf(s.settings), k);
         Some((s.(shard := Some(shard)), Decimal(shard))))
    case SetShard(numeral) =>
      (match ParseUsize(numeral) case None => None case Some(n) => Some((s.(shard := Some(n)), numeral)))
    case SetShardToAny(word) => Some((s.(shard := Some(draw % s.settings.shards)), word))
    case ShowShard => Some((s, Decimal(ShardOf(s))))
    case SetServerRole(name) => Some((WithRole(s, name), RoleWord(name)))
    case ShowServerRole => Some((s, RoleText(s)))
    case SetPrimaryReads(word) => Some((WithReads(s, word), word))
    case ShowPrimaryReads => Some((s, if ReadsEnabled(s) then "on" else "off"))
  }

  function TryExecute(s: State, w: World, m: Message, draw: nat): Outcome {
    var comment := CommentOf(s.settings, m);
    if comment.OutOfBounds? then Panics
    else if comment.AsksFor? then Regular(s.(shard := Some(comment.shard)))
    else if m[0] != Q then Regular(s)
    else
      match CommandText(s.settings, m)
      case None => Panics
      case Some(text) =>
        match w.command(text)
        case None => Regular(s)
        case Some(c) =>
          match Execute(s, c, draw)
          case None => Panics
          case Some(p) => Done(p.0, c, p.1)
  }

  // ---------------------------------------------------------------- infer

  datatype Inference = Inferred(state: State, known: bool) | InferPanics

  function QueryText(m: Message): Option<Bytes> {
    if m[0] == Q then CString(m[5..])
    else match Bind.Skip(m[5..]) case None => None case Some(rest) => CString(rest)
  }

  /** A read: its shard if the text shows one, its placeholders recorded, and the role for reads. */
  ghost function AfterQuery(s: State, b: Pruning.Body): State {
    match s.settings.automaticShardingKey
    case None => s.(role := ReadRole(s))
    case Some(c) =>
      var found := Pruning.InferredShard(SharderOf(s.settings), c, b);
      s.(role := ReadRole(s), shard := if found.Some? then found else s.shard,
         placeholders := s.placeholders + Pruning.Positions(Pruning.BodyKeys(c, b)))
  }

  function ReadRole(s: State): Option<Role> {
    if ReadsEnabled(s) then None else Some(Failover.Replica)
  }

  /** Statement by statement, up to the first that is not a read. */
  ghost function AfterStatements(s: State, ss: seq<Statement>): State
    decreases |ss|
  {
    if ss == [] then s
    else match ss[0]
      case Query(b) => AfterStatements(AfterQuery(s, b), ss[1..])
      case _ => s.(role := Some(Failover.Primary))
  }

  ghost function AfterMessage(s: State, w: World, m: Message): Inference {
    if m[0] != Q && m[0] != P then Inferred(s, false)
    else
      match QueryText(m)
      case None => InferPanics
      case Some(text) =>
        match w.parse(text)
        case None => Inferred(s.(role := Some(Failover.Primary)), false)
        case Some(ss) =>
          if ss == [] then Inferred(s.(role := Some(Failover.Primary)), false)
          else Inferred(AfterStatements(s, ss), true)
  }

  // ---------------------------------------------------------------- infer_shard_from_bind

  predicate WholeBind(m: Message) {
    m[0] == B && var len := GetI32(m[1..5]); 0 <= len && |m| == len + 1
  }

  ghost function AfterBind(s: State, m: Message): Inference {
    if !WholeBind(m) || s.placeholders == [] then Inferred(s, false)
    else
      match Bind.Arguments(m[5..], s.placeholders)
      case None => InferPanics
      case Some(vs) =>
        var found := Pruning.Single(Bind.ShardsOfValues(SharderOf(s.settings), vs));
        Inferred(s.(placeholders := [], shard := if found.Some? then found else s.shard), found.Some?)
  }

  // ---------------------------------------------------------------- the object

  class QueryRouter {
    var activeShard: Option<nat>
    var activeRole: Option<Role>
    var queryParserEnabled: Option<bool>
    var primaryReadsEnabled: Option<bool>
    var poolSettings: PoolSettings
    var placeholders: seq<int>

    function View(): State
      reads this
    {
      State(activeShard, activeRole, queryParserEnabled, primaryReadsEnabled, poolSettings, placeholders)
    }

    constructor ()
      ensures View() == NEW
    {
      activeShard, activeRole, queryParserEnabled, primaryReadsEnabled := None, None, None, None;
      poolSettings, placeholders := DEFAULT, [];
    }

    method UpdatePoolSettings(settings: PoolSettings)
      modifies this
      ensures View() == old(View()).(settings := settings)
    {
      poolSettings := settings;
    }

    method SetShard(shard: nat)
      modifies this
      ensures View() == old(View()).(shard := Some(shard))
    {
      activeShard := Some(shard);
    }

    method SetShardingKey(key: int) returns (shard: nat)
      modifies this
      ensures shard == Sharding.Shard(SharderOf(poolSettings), key)
      ensures View() == old(View()).(shard := Some(shard))
    {
      shard := Sharding.Shard(SharderOf(poolSettings), key);
      SetShard(shard);
    }

    method TryExecuteCommand(w: World, m: Message, draw: nat) returns (r: Option<Option<(Command, string)>>)
      modifies this
      ensures match TryExecute(old(View()), w, m, draw)
              case Panics => r == None
              case Regular(s) => r == Some(None) && View() == s
              case Done(s, c, v) => r == Some(Some((c, v))) && View() == s
    {
      if (m[0] == P || m[0] == Q) && HasPatterns(poolSettings) {
        var segment := Segment(poolSettings, m);
        if segment.None? {
          return None;
        }
        var found := SearchComments(segment.value);
        if found {
          return Some(None);
        }
      }
      if m[0] != Q {
        return Some(None);
      }
      var text := CommandText(poolSettings, m);
      if text.None? {
        return None;
      }
      match w.command(text.value)
      case None =>
        return Some(None);
      case Some(c) =>
        var v := Perform(c, draw);
        if v.None? {
          return None;
        }
        return Some(Some((c, v.value)));
    }

    /** The two patterns in turn. */
    method SearchComments(segment: Bytes) returns (found: bool)
      modifies this
      ensures match Commented(old(poolSettings), segment)
              case None => !found && View() == old(View())
              case Some(n) => found && View() == old(View()).(shard := Some(n))
    {
      if poolSettings.shardIdIn.Some? {
        match poolSettings.shardIdIn.value(segment)
        case Some(id) =>
          SetShard(id);
          return true;
        case None =>
      }
      if poolSettings.shardingKeyIn.Some? {
        match poolSettings.shardingKeyIn.value(segment)
        case Some(key) =>
          var _ := SetShardingKey(key);
          return true;
        case None =>
      }
      found := false;
    }

    method Perform(c: Command, draw: nat) returns (r: Option<string>)
      modifies this
      ensures match Execute(old(View()), c, draw)
              case None => r == None
              case Some(p) => r == Some(p.1) && View() == p.0
    {
      match c
      case SetShardingKey(numeral) =>
        var k := ParseI64(numeral);
        if k.None? {
          return None;
        }
        var shard := SetShardingKey(k.value);
        r := Some(Decimal(shard));
      case SetShard(numeral) =>
        var n := ParseUsize(numeral);
        if n.None? {
          return None;
        }
        activeShard := n;
        r := Some(numeral);
      case SetShardToAny(word) =>
        activeShard := Some(draw % poolSettings.shards);
        r := Some(word);
      case ShowShard =>
        r := Some(Decimal(ShardOf(View())));
      case SetServerRole(name) =>
        match name {
          case ToPrimary =>
            queryParserEnabled := Some(false);
            activeRole := Some(Failover.Primary);
          case ToReplica =>
            queryParserEnabled := Some(false);
            activeRole := Some(Failover.Replica);
          case ToAny =>
            queryParserEnabled := Some(false);
            activeRole := None;
          case ToAuto =>
            queryParserEnabled := Some(true);
            activeRole := None;
          case ToDefault =>
            activeRole := poolSettings.defaultRole;
            queryParserEnabled := None;
        }
        r := Some(RoleWord(name));
      case ShowServerRole =>
        r := Some(RoleText(View()));
      case SetPrimaryReads(word) =>
        if word == "on" {
          primaryReadsEnabled := Some(true);
        } else if word == "off" {
          primaryReadsEnabled := Some(false);
        } else if word == "default" {
          primaryReadsEnabled := None;
        }
        r := Some(word);
      case ShowPrimaryReads =>
        r := Some(if ReadsEnabled(View()) then "on" else "off");
    }

    /** The loop of `infer_shard` over the FROM list: table names and inner join conditions. */
    method Collect(from: seq<Pruning.TableWithJoins>) returns (tables: seq<Pruning.TableName>, exprs: seq<Pruning.Expr>)
      ensures tables == Pruning.Tables(from) && exprs == Pruning.Conditions(from)
    {
      tables, exprs := [], [];
      var i := 0;
      while i < |from|
        invariant 0 <= i <= |from|
        invariant tables == Pruning.Tables(from[..i]) && exprs == Pruning.Conditions(from[..i])
      {
        assert from[..i + 1][..i] == from[..i];
        var names, conditions := CollectJoins(from[i].joins);
        tables := tables + (Pruning.FactorTables(from[i].relation) + names);
        exprs := exprs + conditions;
        i := i + 1;
      }
      assert from[..i] == from;
    }

    method CollectJoins(joins: seq<Pruning.Join>) returns (tables: seq<Pruning.TableName>, exprs: seq<Pruning.Expr>)
      ensures tables == Pruning.JoinTables(joins) && exprs == Pruning.JoinConditions(joins)
    {
      tables, exprs := [], [];
      var i := 0;
      while i < |joins|
        invariant 0 <= i <= |joins|
        invariant tables == Pruning.JoinTables(joins[..i]) && exprs == Pruning.JoinConditions(joins[..i])
      {
        assert joins[..i + 1][..i] == joins[..i];
        tables := tables + Pruning.FactorTables(joins[i].relation);
        if joins[i].operator.InnerOn? {
          exprs := exprs + [joins[i].operator.on];
        }
        i := i + 1;
      }
      assert joins[..i] == joins;
    }

    method SelectShards(c: Pruning.KeyColumn, from: seq<Pruning.TableWithJoins>, selection: Option<Pruning.Expr>)
      returns (shards: set<nat>)
      modifies this`placeholders
      ensures var keys := Pruning.BodyKeys(c, Pruning.Select(from, selection));
              && shards == Pruning.ShardsOf(SharderOf(poolSettings), keys)
              && placeholders == old(placeholders) + Pruning.Positions(keys)
    {
      var tables, exprs := Collect(from);
      if selection.Some? {
        exprs := exprs + [selection.value];
      }
      assert exprs == Pruning.Predicates(from, selection);
      shards := ScanConditions(SharderOf(poolSettings), c, tables, exprs);
    }

    /** The loop of `infer_shard` over the conditions. */
    method ScanConditions(sharder: Sharding.Sharder, c: Pruning.KeyColumn, tables: seq<Pruning.TableName>,
                          exprs: seq<Pruning.Expr>)
      returns (shards: set<nat>)
      requires sharder.shards > 0
      modifies this`placeholders
      ensures var keys := Pruning.KeysOf(c, tables, exprs);
              && shards == Pruning.ShardsOf(sharder, keys)
              && placeholders == old(placeholders) + Pruning.Positions(keys)
    {
      shards := {};
      ghost var keys := [];
      var i := 0;
      while i < |exprs|
        invariant 0 <= i <= |exprs|
        invariant keys == Pruning.KeysOf(c, tables, exprs[..i])
        invariant shards == Pruning.ShardsOf(sharder, keys)
        invariant placeholders == old(placeholders) + Pruning.Positions(keys)
      {
        var more := Pruning.SelectionKeys(c, tables, exprs[i]);
        Pruning.PositionsSplit(keys, more);
        Pruning.KeysOfNext(c, tables, exprs, i);
        shards := Record(sharder, shards, more, keys);
        keys := keys + more;
        i := i + 1;
      }
      assert exprs[..i] == exprs;
    }

    method InferShard(c: Pruning.KeyColumn, b: Pruning.Body) returns (r: Option<nat>)
      modifies this`placeholders
      ensures r == Pruning.InferredShard(SharderOf(poolSettings), c, b)
      ensures placeholders == old(placeholders) + Pruning.Positions(Pruning.BodyKeys(c, b))
      decreases b
    {
      var shards: set<nat> := {};
      match b {
        case Nested(inner) =>
          var found := InferShard(c, inner);
          return found;
        case Select(from, selection) =>
          shards := SelectShards(c, from, selection);
        case OtherBody =>
      }
      r := Only(shards);
    }

    /** The one shard of the set, if it has exactly one. */
    method Only(shards: set<nat>) returns (r: Option<nat>)
      ensures r == Pruning.Single(shards)
    {
      if |shards| == 1 {
        var x :| x in shards;
        Pruning.SingleByCount(shards, x);
        r := Some(x);
      } else {
        Pruning.SingleCounted(shards);
        r := None;
      }
    }

    /** Literals give shards, placeholders are remembered. */
    method Record(sharder: Sharding.Sharder, shards: set<nat>, more: seq<Pruning.ShardingKey>,
                  ghost keys: seq<Pruning.ShardingKey>)
      returns (r: set<nat>)
      requires sharder.shards > 0 && shards == Pruning.ShardsOf(sharder, keys)
      modifies this`placeholders
      ensures r == Pruning.ShardsOf(sharder, keys + more)
      ensures placeholders == old(placeholders) + Pruning.Positions(more)
    {
      r := shards;
      var i := 0;
      assert keys + more[..0] == keys;
      while i < |more|
        invariant 0 <= i <= |more|
        invariant r == Pruning.ShardsOf(sharder, keys + more[..i])
        invariant placeholders == old(placeholders) + Pruning.Positions(more[..i])
      {
        assert keys + more[..i + 1] == keys + more[..i] + [more[i]];
        assert more[..i + 1][..i] == more[..i];
        match more[i] {
          case Value(key) =>
            r := r + {Sharding.Shard(sharder, key)};
          case Parameter(position) =>
            placeholders := placeholders + [position];
        }
        i := i + 1;
      }
      assert more[..i] == more;
    }

    method Infer(w: World, m: Message) returns (r: Option<bool>)
      modifies this
      ensures match AfterMessage(old(View()), w, m)
              case InferPanics => r == None
              case Inferred(s, known) => r == Some(known) && View() == s
    {
      if m[0] != Q && m[0] != P {
        return Some(false);
      }
      var text := QueryText(m);
      if text.None? {
        return None;
      }
      match w.parse(text.value) {
        case None =>
          activeRole := Some(Failover.Primary);
          return Some(false);
        case Some(ast) =>
          if ast == [] {
            activeRole := Some(Failover.Primary);
            return Some(false);
          }
          InferStatements(ast);
          return Some(true);
      }
    }

    /** The loop of `infer` over the statements, left at the first one that is not a read. */
    method InferStatements(ast: seq<Statement>)
      modifies this
      ensures View() == AfterStatements(old(View()), ast)
    {
      var i := 0;
      while i < |ast|
        invariant 0 <= i <= |ast|
        invariant AfterStatements(View(), ast[i..]) == AfterStatements(old(View()), ast)
      {
        assert ast[i..][1..] == ast[i + 1..];
        match ast[i] {
          case Query(b) =>
            InferQuery(b);
          case _ =>
            activeRole := Some(Failover.Primary);
            return;
        }
        i := i + 1;
      }
    }

    method InferQuery(b: Pruning.Body)
      modifies this
      ensures View() == AfterQuery(old(View()), b)
    {
      if poolSettings.automaticShardingKey.Some? {
        var found := InferShard(poolSettings.automaticShardingKey.value, b);
        if found.Some? {
          activeShard := found;
        }
      }
      activeRole := if ReadsEnabled(View()) then None else Some(Failover.Replica);
    }

    method InferShardFromBind(m: Message) returns (r: Option<bool>)
      modifies this
      ensures match AfterBind(old(View()), m)
              case InferPanics => r == None
              case Inferred(s, known) => r == Some(known) && View() == s
    {
      if m[0] != B {
        return Some(false);
      }
      var len := GetI32(m[1..5]);
      if len < 0 || |m| != len + 1 {
        return Some(false);
      }
      if placeholders == [] {
        return Some(false);
      }
      var shards := BindShards(m[5..]);
      if shards.None? {
        return None;
      }
      placeholders := [];
      var found := Only(shards.value);
      if found.Some? {
        SetShard(found.value);
      }
      r := Some(found.Some?);
    }

    /** Past the portal and the statement name: the format codes, then the parameters. */
    method BindShards(body: Bytes) returns (r: Option<set<nat>>)
      ensures r == match Bind.Arguments(body, placeholders)
                   case None => None
                   case Some(vs) => Some(Bind.ShardsOfValues(SharderOf(poolSettings), vs))
    {
      var data := Bind.Skip(body);
      if data.None? {
        return None;
      }
      data := Bind.Skip(data.value);
      if data.None? {
        return None;
      }
      var formats := Bind.ReadFormats(data.value);
      if formats.None? || |formats.value.1| < 2 {
        return None;
      }
      var rest := formats.value.1;
      r := Bind.CollectShards(SharderOf(poolSettings), rest[2..], GetI16(rest), formats.value.0, placeholders);
    }
  }
}
