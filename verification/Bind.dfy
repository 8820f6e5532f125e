/** Reading the arguments of a prepared statement out of a Bind message. */
module Bind {
  import opened Text
  import opened Wire
  import Sharding

  datatype Format = AsText | AsBinary
  datatype Formats = AllText | Uniform(format: Format) | Specified(formats: seq<Format>)

  // ---------------------------------------------------------------- the reader; `None` where the source panics

  /** `read_string`: past the next NUL, or to the end. */
  function Skip(data: Bytes): Option<Bytes> {
    if data == [] then None
    else match CStringLength(data) case None => Some([]) case Some(k) => Some(data[k + 1..])
  }

  function FormatOf(code: int): Option<Format> {
    if code == 0 then Some(AsText) else if code == 1 then Some(AsBinary) else None
  }

  function TakeFormat(data: Bytes): Option<(Format, Bytes)> {
    if |data| < 2 then None
    else match FormatOf(GetI16(data)) case None => None case Some(f) => Some((f, data[2..]))
  }

  /** `n` format codes. */
  function TakeFormats(data: Bytes, n: nat): Option<(seq<Format>, Bytes)> {
    if n == 0 then Some(([], data))
    else
      match TakeFormats(data, n - 1)
      case None => None
      case Some(p) =>
        match TakeFormat(p.1)
        case None => None
        case Some(q) => Some((p.0 + [q.0], q.1))
  }

  /** A count of format codes, then the codes: none means text, one is for all. */
  function FormatsOf(data: Bytes): Option<(Formats, Bytes)> {
    if |data| < 2 then None
    else
      var n, rest := GetI16(data), data[2..];
      if n == 0 then Some((AllText, rest))
      else if n == 1 then
        match TakeFormat(rest) case None => None case Some(p) => Some((Uniform(p.0), p.1))
      else if n < 0 then None
      else match TakeFormats(rest, n) case None => None case Some(p) => Some((Specified(p.0), p.1))
  }

  function FormatAt(formats: Formats, i: nat): Option<Format> {
    match formats
    case AllText => Some(AsText)
    case Uniform(f) => Some(f)
    case Specified(fs) => if i < |fs| then Some(fs[i]) else None
  }

  function Chars(s: Bytes): string {
    seq(|s|, i requires 0 <= i < |s| => s[i] as char)
  }

  /** What one recorded parameter gives, and where the next one starts. */
  datatype Taken = Found(value: int, rest: Bytes) | Skipped(rest: Bytes) | Panic

  function TakeValue(format: Format, len: int, data: Bytes): Taken {
    match format
    case AsText =>
      if len < 0 || |data| < len then Panic
      else
        (match ParseI64(Chars(data[..len]))
         case Some(v) => Found(v, data[len..])
         case None => Skipped(data[len..]))
    case AsBinary =>
      if len == 2 then if |data| < 2 then Panic else Found(GetI16(data), data[2..])
      else if len == 4 then if |data| < 4 then Panic else Found(GetI32(data), data[4..])
      else if len == 8 then if |data| < 8 then Panic else Found(GetI64(data), data[8..])
      else Skipped(data)
  }

  /** Parameter `i`: a parameter that is not recorded has its length read and its bytes left in place. */
  function TakeParameter(data: Bytes, i: nat, formats: Formats, recorded: seq<int>): Taken {
    if |data| < 4 || FormatAt(formats, i).None? then Panic
    else if (i + 1) !in recorded then Skipped(data[4..])
    else TakeValue(FormatAt(formats, i).value, GetI32(data), data[4..])
  }

  function Prepend(v: int, vs: Option<seq<int>>): Option<seq<int>> {
    match vs case None => None case Some(s) => Some([v] + s)
  }

  type Taker = (Bytes, nat) -> Taken

  function Reader(formats: Formats, recorded: seq<int>): Taker {
    (data: Bytes, i: nat) => TakeParameter(data, i, formats, recorded)
  }

  /** The values a reader finds among parameters `i` up to `n`. */
  function Scan(take: Taker, data: Bytes, i: nat, n: int): Option<seq<int>>
    decreases n - i
  {
    if i >= n then Some([])
    else
      match take(data, i)
      case Panic => None
      case Skipped(rest) => Scan(take, rest, i + 1, n)
      case Found(v, rest) => Prepend(v, Scan(take, rest, i + 1, n))
  }

  /** The recorded values of a Bind message, from the byte after its length. */
  function Arguments(body: Bytes, recorded: seq<int>): Option<seq<int>> {
    match Skip(body)
    case None => None
    case Some(a) =>
      match Skip(a)
      case None => None
      case Some(b) =>
        match FormatsOf(b)
        case None => None
        case Some(p) =>
          if |p.1| < 2 then None else Scan(Reader(p.0, recorded), p.1[2..], 0, GetI16(p.1))
  }

  function ShardsOfValues(s: Sharding.Sharder, vs: seq<int>): set<nat>
    requires s.shards > 0
  {
    set v | v in vs :: Sharding.Shard(s, v)
  }

  /** The loop over format codes. */
  method ReadFormats(input: Bytes) returns (r: Option<(Formats, Bytes)>)
    ensures r == FormatsOf(input)
  {
    var data := input;
    if |data| < 2 {
      return None;
    }
    var n := GetI16(data);
    data := data[2..];
    if n == 0 {
      return Some((AllText, data));
    } else if n == 1 {
      match TakeFormat(data)
      case None => return None;
      case Some(p) => return Some((Uniform(p.0), p.1));
    } else if n < 0 {
      return None;
    }
    var v, k := [], 0;
    while k < n
      invariant 0 <= k <= n
      invariant TakeFormats(input[2..], k) == Some((v, data))
      invariant TakeFormats(input[2..], n).Some? ==> TakeFormats(input[2..], k).Some?
    {
      match TakeFormat(data) {
        case None =>
          TakeFormatsStops(input[2..], k + 1, n);
          return None;
        case Some(p) =>
          v, data := v + [p.0], p.1;
      }
      k := k + 1;
    }
    r := Some((Specified(v), data));
  }

  lemma {:induction false} TakeFormatsStops(data: Bytes, k: nat, n: nat)
    requires k <= n && TakeFormats(data, k).None?
    ensures TakeFormats(data, n).None?
  {
    if k < n {
      TakeFormatsStops(data, k, n - 1);
    }
  }

  ghost function Joined(vs: seq<int>, rest: Option<seq<int>>): Option<seq<int>> {
    match rest case None => None case Some(s) => Some(vs + s)
  }

  lemma JoinedNothing(rest: Option<seq<int>>)
    ensures Joined([], rest) == rest
  {
    if rest.Some? {
      assert [] + rest.value == rest.value;
    }
  }

  lemma JoinedPrepend(vs: seq<int>, v: int, rest: Option<seq<int>>)
    ensures Joined(vs, Prepend(v, rest)) == Joined(vs + [v], rest)
  {
    if rest.Some? {
      assert vs + ([v] + rest.value) == vs + [v] + rest.value;
    }
  }

  /** The cursor loop over the parameters, which collects the shards of the values it finds. */
  method CollectShards(s: Sharding.Sharder, input: Bytes, n: int, formats: Formats, recorded: seq<int>)
    returns (r: Option<set<nat>>)
    requires s.shards > 0
    ensures r == match Scan(Reader(formats, recorded), input, 0, n)
                 case None => None
                 case Some(vs) => Some(ShardsOfValues(s, vs))
  {
    var data, shards: set<nat>, i := input, {}, 0;
    ghost var vs := [];
    var take := Reader(formats, recorded);
    JoinedNothing(Scan(take, input, 0, n));
    while i < n
      invariant 0 <= i && (n >= 0 ==> i <= n)
      invariant Scan(take, input, 0, n) == Joined(vs, Scan(take, data, i, n))
      invariant shards == ShardsOfValues(s, vs)
    {
      match take(data, i) {
        case Panic =>
          return None;
        case Skipped(rest) =>
          data := rest;
        case Found(v, rest) =>
          JoinedPrepend(vs, v, Scan(take, rest, i + 1, n));
          shards, data := shards + {Sharding.Shard(s, v)}, rest;
          vs := vs + [v];
      }
      i := i + 1;
    }
    assert vs + [] == vs;
    r := Some(shards);
  }

  // ---------------------------------------------------------------- the writer

  /** An integer argument, in text or in one of the binary widths. */
  datatype Param = TextInt(value: int) | Int2(value: int) | Int4(value: int) | Int8(value: int)

  function Ascii(s: string): Bytes {
    seq(|s|, i requires 0 <= i < |s| => (s[i] as int) % 256)
  }

  predicate InRange(p: Param) {
    match p
    case Int2(v) => -0x8000 <= v < 0x8000
    case Int4(v) => -I32_LIMIT <= v < I32_LIMIT
    case _ => I64_MIN <= p.value <= I64_MAX
  }

  function FormatOfParam(p: Param): Format {
    if p.TextInt? then AsText else AsBinary
  }

  function Payload(p: Param): Bytes {
    match p
    case TextInt(v) => Ascii(Signed(v))
    case Int2(v) => I16(v)
    case Int4(v) => I32(v)
    case Int8(v) => I64(v)
  }

  function EncodeParam(p: Param): Bytes {
    I32(|Payload(p)|) + Payload(p)
  }

  function EncodeParams(ps: seq<Param>): Bytes {
    if ps == [] then [] else EncodeParam(ps[0]) + EncodeParams(ps[1..])
  }

  function EncodeFormat(f: Format): (s: Bytes)
    ensures |s| == 2
  {
    I16(if f.AsText? then 0 else 1)
  }

  function EncodeFormats(fs: seq<Format>): Bytes {
    if fs == [] then [] else EncodeFormats(fs[..|fs| - 1]) + EncodeFormat(fs[|fs| - 1])
  }

  /** What follows the parameters, the formats of the results, is arbitrary. */
  datatype Message = Message(portal: Bytes, name: Bytes, codes: seq<Format>, params: seq<Param>, tail: Bytes)

  function EncodeBody(b: Message): Bytes {
    b.portal + [0] + (b.name + [0] +
    (I16(|b.codes|) + EncodeFormats(b.codes) + (I16(|b.params|) + (EncodeParams(b.params) + b.tail))))
  }

  function AsFormats(codes: seq<Format>): Formats {
    if |codes| == 0 then AllText else if |codes| == 1 then Uniform(codes[0]) else Specified(codes)
  }

  /** The codes announce how the parameters are written. */
  ghost predicate Announced(formats: Formats, i: nat, ps: seq<Param>) {
    forall k :: 0 <= k < |ps| ==> FormatAt(formats, i + k) == Some(FormatOfParam(ps[k]))
  }

  ghost predicate WellFormed(b: Message) {
    && NulFree(b.portal) && NulFree(b.name)
    && |b.codes| < 0x8000 && |b.params| < 0x8000
    && Announced(AsFormats(b.codes), 0, b.params)
    && |EncodeBody(b)| + 4 < I32_LIMIT
    && forall k :: 0 <= k < |b.params| ==> InRange(b.params[k])
  }

  /** The values of the recorded parameters. */
  function Picked(ps: seq<Param>, i: nat, recorded: seq<int>): seq<int> {
    if ps == [] then []
    else (if (i + 1) in recorded then [ps[0].value] else []) + Picked(ps[1..], i + 1, recorded)
  }

  /** Of the first `n` positions, every one before a recorded one is recorded. */
  ghost predicate Initial(recorded: seq<int>, n: nat) {
    forall i, j :: 1 <= i < j <= n && j in recorded ==> i in recorded
  }

  lemma SkipAt(s: Bytes, rest: Bytes)
    requires NulFree(s)
    ensures Skip(s + [0] + rest) == Some(rest)
  {
    var tail: Bytes := [0] + rest;
    CStringAt(s, tail);
    assert s + [0] + rest == s + tail;
  }

  lemma FormatBack(f: Format, rest: Bytes)
    ensures TakeFormat(EncodeFormat(f) + rest) == Some((f, rest))
  {
    I16RoundTrip(if f.AsText? then 0 else 1, rest);
    assert (EncodeFormat(f) + rest)[2..] == rest;
  }

  lemma {:induction false} FormatsBack(fs: seq<Format>, rest: Bytes)
    ensures TakeFormats(EncodeFormats(fs) + rest, |fs|) == Some((fs, rest))
  {
    if fs == [] {
      assert EncodeFormats(fs) + rest == rest;
    } else {
      var init, last := fs[..|fs| - 1], fs[|fs| - 1];
      var after := EncodeFormat(last) + rest;
      assert EncodeFormats(fs) + rest == EncodeFormats(init) + after;
      FormatsBack(init, after);
      FormatBack(last, rest);
      assert fs == init + [last];
    }
  }

  lemma CodesBack(codes: seq<Format>, rest: Bytes)
    requires |codes| < 0x8000
    ensures FormatsOf(I16(|codes|) + EncodeFormats(codes) + rest) == Some((AsFormats(codes), rest))
  {
    var after := EncodeFormats(codes) + rest;
    var data := I16(|codes|) + after;
    assert I16(|codes|) + EncodeFormats(codes) + rest == data;
    I16RoundTrip(|codes|, after);
    assert data[2..] == after;
    FormatsBack(codes, rest);
    if |codes| == 0 {
      assert after == rest;
    } else if |codes| == 1 {
      assert TakeFormats(after, 0) == Some(([], after));
      assert codes == [codes[0]];
    }
  }

  lemma {:induction false} TextBack(v: int)
    requires I64_MIN <= v <= I64_MAX
    ensures ParseI64(Chars(Ascii(Signed(v)))) == Some(v)
  {
    SignedRoundTrip(v);
    var s := Signed(v);
    forall i | 0 <= i < |s| ensures Chars(Ascii(s))[i] == s[i] {
      assert s[i] == '-' || IsDigit(s[i]);
    }
    assert Chars(Ascii(s)) == s;
  }

  lemma PayloadBack(p: Param, rest: Bytes)
    requires InRange(p)
    ensures TakeValue(FormatOfParam(p), |Payload(p)|, Payload(p) + rest) == Found(p.value, rest)
  {
    var data := Payload(p) + rest;
    assert data[|Payload(p)|..] == rest && data[..|Payload(p)|] == Payload(p);
    match p
    case TextInt(v) => TextBack(v);
    case Int2(v) => I16RoundTrip(v, rest);
    case Int4(v) => I32RoundTrip(v, rest);
    case Int8(v) => I64RoundTrip(v, rest);
  }

  lemma ParamBack(p: Param, rest: Bytes, i: nat, formats: Formats, recorded: seq<int>)
    requires InRange(p) && |Payload(p)| < I32_LIMIT
    requires FormatAt(formats, i) == Some(FormatOfParam(p)) && (i + 1) in recorded
    ensures TakeParameter(EncodeParam(p) + rest, i, formats, recorded) == Found(p.value, rest)
  {
    var after := Payload(p) + rest;
    var data := I32(|Payload(p)|) + after;
    assert EncodeParam(p) + rest == data;
    I32RoundTrip(|Payload(p)|, after);
    assert data[4..] == after;
    PayloadBack(p, rest);
  }

  /** Reading parameter `i`, written as `p`: its value if it is recorded, its length alone if it is not. */
  ghost predicate TakesFirst(take: Taker, p: Param, i: nat, recorded: seq<int>) {
    && ((i + 1) in recorded ==> forall rest :: take(EncodeParam(p) + rest, i) == Found(p.value, rest))
    && ((i + 1) !in recorded ==> forall data :: |data| >= 4 ==> take(data, i) == Skipped(data[4..]))
  }

  ghost predicate TakesAll(take: Taker, ps: seq<Param>, i: nat, recorded: seq<int>)
    decreases |ps|
  {
    ps == [] || (TakesFirst(take, ps[0], i, recorded) && TakesAll(take, ps[1..], i + 1, recorded))
  }

  lemma AnnouncedTail(formats: Formats, i: nat, ps: seq<Param>)
    requires ps != [] && Announced(formats, i, ps)
    ensures FormatAt(formats, i) == Some(FormatOfParam(ps[0])) && Announced(formats, i + 1, ps[1..])
  {
    assert FormatAt(formats, i + 0) == Some(FormatOfParam(ps[0]));
    forall k | 0 <= k < |ps[1..]| ensures FormatAt(formats, i + 1 + k) == Some(FormatOfParam(ps[1..][k])) {
      assert FormatAt(formats, i + (k + 1)) == Some(FormatOfParam(ps[k + 1]));
    }
  }

  lemma ReaderTakesFirst(formats: Formats, p: Param, i: nat, recorded: seq<int>)
    requires InRange(p) && |Payload(p)| < I32_LIMIT && FormatAt(formats, i) == Some(FormatOfParam(p))
    ensures TakesFirst(Reader(formats, recorded), p, i, recorded)
  {
    if (i + 1) in recorded {
      forall rest ensures Reader(formats, recorded)(EncodeParam(p) + rest, i) == Found(p.value, rest) {
        ParamBack(p, rest, i, formats, recorded);
      }
    }
  }

  lemma {:induction false} ReaderTakesAll(formats: Formats, ps: seq<Param>, i: nat, recorded: seq<int>)
    requires Announced(formats, i, ps) && forall k :: 0 <= k < |ps| ==> InRange(ps[k])
    requires |EncodeParams(ps)| < I32_LIMIT
    ensures TakesAll(Reader(formats, recorded), ps, i, recorded)
    decreases |ps|
  {
    if ps != [] {
      AnnouncedTail(formats, i, ps);
      ReaderTakesFirst(formats, ps[0], i, recorded);
      ReaderTakesAll(formats, ps[1..], i + 1, recorded);
    }
  }

  /** None of the parameters from `i` up to `n` is recorded. */
  ghost predicate Unrecorded(i: nat, n: nat, recorded: seq<int>) {
    forall k :: i < k <= n ==> k !in recorded
  }

  /** The reader finds the recorded parameters. */
  ghost predicate Gives(take: Taker, data: Bytes, i: nat, n: nat, ps: seq<Param>, recorded: seq<int>) {
    Scan(take, data, i, n) == Some(Picked(ps, i, recorded))
  }

  /** Past the recorded parameters nothing is found, and there is always another length to read. */
  lemma {:induction false} IdleTail(take: Taker, ps: seq<Param>, data: Bytes, i: nat, n: nat, recorded: seq<int>)
    requires TakesAll(take, ps, i, recorded) && n == i + |ps| && Unrecorded(i, n, recorded) && |data| >= 4 * |ps|
    ensures Gives(take, data, i, n, ps, recorded)
    decreases |ps|
  {
    if ps != [] {
      IdleTail(take, ps[1..], data[4..], i + 1, n, recorded);
      assert Picked(ps, i, recorded) == Picked(ps[1..], i + 1, recorded);
    }
  }

  lemma {:induction false} ParamsAreLong(ps: seq<Param>)
    ensures |EncodeParams(ps)| >= 4 * |ps|
  {
    if ps != [] {
      ParamsAreLong(ps[1..]);
    }
  }

  lemma DataIsLong(ps: seq<Param>, data: Bytes)
    requires EncodeParams(ps) <= data
    ensures |data| >= 4 * |ps|
  {
    ParamsAreLong(ps);
  }

  lemma DataSplits(ps: seq<Param>, data: Bytes)
    requires ps != [] && EncodeParams(ps) <= data
    ensures var rest := data[|EncodeParam(ps[0])|..];
            data == EncodeParam(ps[0]) + rest && EncodeParams(ps[1..]) <= rest
  {
    var first, more := EncodeParam(ps[0]), EncodeParams(ps[1..]);
    assert data[..|first|] == first && data[|first|..][..|more|] == more;
  }

  lemma ScanFirst(take: Taker, ps: seq<Param>, rest: Bytes, i: nat, n: nat, recorded: seq<int>)
    requires ps != [] && TakesFirst(take, ps[0], i, recorded) && (i + 1) in recorded && i < n
    requires Gives(take, rest, i + 1, n, ps[1..], recorded)
    ensures Gives(take, EncodeParam(ps[0]) + rest, i, n, ps, recorded)
  {
    assert take(EncodeParam(ps[0]) + rest, i) == Found(ps[0].value, rest);
    assert Picked(ps, i, recorded) == [ps[0].value] + Picked(ps[1..], i + 1, recorded);
  }

  lemma InitialIdle(take: Taker, ps: seq<Param>, data: Bytes, i: nat, n: nat, recorded: seq<int>)
    requires TakesAll(take, ps, i, recorded) && n == i + |ps| && |data| >= 4 * |ps|
    requires Initial(recorded, n) && (ps == [] || (i + 1) !in recorded)
    ensures Gives(take, data, i, n, ps, recorded)
  {
    assert Unrecorded(i, n, recorded);
    IdleTail(take, ps, data, i, n, recorded);
  }

  lemma {:induction false} ScanBack(take: Taker, ps: seq<Param>, data: Bytes, i: nat, n: nat, recorded: seq<int>)
    requires TakesAll(take, ps, i, recorded) && Initial(recorded, n) && n == i + |ps|
    requires EncodeParams(ps) <= data
    ensures Gives(take, data, i, n, ps, recorded)
    decreases |ps|, 1
  {
    if ps != [] && (i + 1) in recorded {
      ScanRecorded(take, ps, data, i, n, recorded);
    } else {
      DataIsLong(ps, data);
      InitialIdle(take, ps, data, i, n, recorded);
    }
  }

  lemma {:induction false} ScanRecorded(take: Taker, ps: seq<Param>, data: Bytes, i: nat, n: nat, recorded: seq<int>)
    requires TakesAll(take, ps, i, recorded) && Initial(recorded, n) && n == i + |ps|
    requires EncodeParams(ps) <= data && ps != [] && (i + 1) in recorded
    ensures Gives(take, data, i, n, ps, recorded)
    decreases |ps|, 0
  {
    var rest := data[|EncodeParam(ps[0])|..];
    DataSplits(ps, data);
    ScanBack(take, ps[1..], rest, i + 1, n, recorded);
    ScanFirst(take, ps, rest, i, n, recorded);
  }

  lemma BodyIsLong(b: Message)
    ensures |EncodeParams(b.params)| <= |EncodeBody(b)|
  {
  }

  /** The reader reaches the parameters of an encoded message with its formats. */
  lemma HeadBack(b: Message, recorded: seq<int>)
    requires NulFree(b.portal) && NulFree(b.name) && |b.codes| < 0x8000 && |b.params| < 0x8000
    ensures Arguments(EncodeBody(b), recorded) ==
            Scan(Reader(AsFormats(b.codes), recorded), EncodeParams(b.params) + b.tail, 0, |b.params|)
  {
    var d := EncodeParams(b.params) + b.tail;
    var c := I16(|b.params|) + d;
    var f := I16(|b.codes|) + EncodeFormats(b.codes) + c;
    SkipAt(b.portal, b.name + [0] + f);
    SkipAt(b.name, f);
    CodesBack(b.codes, c);
    I16RoundTrip(|b.params|, d);
    assert c[2..] == d;
  }

  /** Bind decoding inverts Bind encoding on the recorded parameters when these come first. */
  lemma BindRoundTrip(b: Message, recorded: seq<int>)
    requires WellFormed(b) && Initial(recorded, |b.params|)
    ensures Arguments(EncodeBody(b), recorded) == Some(Picked(b.params, 0, recorded))
  {
    HeadBack(b, recorded);
    BodyIsLong(b);
    var formats := AsFormats(b.codes);
    ReaderTakesAll(formats, b.params, 0, recorded);
    ScanBack(Reader(formats, recorded), b.params, EncodeParams(b.params) + b.tail, 0, |b.params|, recorded);
  }

  // ---------------------------------------------------------------- a recorded parameter after another one

  /** `n` arguments, all the integer 4 but the last, which is 5. */
  function Fours(n: nat): seq<Param> {
    if n == 0 then [Int4(5)] else [Int4(4)] + Fours(n - 1)
  }

  /** Whatever the alignment, the reader of these sees words that say four. */
  function Words(n: nat, word: Bytes, last: Bytes): Bytes {
    if n == 0 then last else word + Words(n - 1, word, last)
  }

  lemma {:induction false} FoursAreWords(n: nat, word: Bytes, last: Bytes)
    requires EncodeParam(Int4(4)) == word + word && EncodeParam(Int4(5)) == word + last
    ensures EncodeParams(Fours(n)) == Words(2 * n + 1, word, last)
    ensures |Fours(n)| == n + 1 && forall k :: 0 <= k <= n ==> Fours(n)[k].Int4? && InRange(Fours(n)[k])
  {
    if n == 0 {
      assert Fours(0)[1..] == [];
    } else {
      FoursAreWords(n - 1, word, last);
      assert Fours(n)[1..] == Fours(n - 1);
      WordsTwice(2 * n - 1, word, last);
    }
  }

  lemma WordsTwice(n: nat, word: Bytes, last: Bytes)
    ensures Words(n + 2, word, last) == word + word + Words(n, word, last)
  {
    assert Words(n + 2, word, last) == word + Words(n + 1, word, last);
  }

  ghost predicate SaysFour(word: Bytes) {
    |word| == 4 && forall rest {:trigger word + rest} :: GetI32(word + rest) == 4
  }

  lemma WordsHead(n: nat, word: Bytes, last: Bytes)
    requires n > 0 && SaysFour(word)
    ensures var w := Words(n, word, last);
            |w| >= 4 && GetI32(w) == 4 && w[4..] == Words(n - 1, word, last)
  {
    assert Words(n, word, last) == word + Words(n - 1, word, last);
  }

  /** One turn of the reader over these words. */
  ghost predicate TakesFour(take: Taker, n: nat, word: Bytes, last: Bytes, i: nat, recorded: seq<int>) {
    n >= 2 ==>
      take(Words(n, word, last), i) ==
      if (i + 1) in recorded then Found(4, Words(n - 2, word, last)) else Skipped(Words(n - 1, word, last))
  }

  lemma ReaderTakesFour(n: nat, word: Bytes, last: Bytes, i: nat, recorded: seq<int>)
    requires SaysFour(word)
    ensures TakesFour(Reader(Uniform(AsBinary), recorded), n, word, last, i, recorded)
  {
    if n >= 2 {
      WordsHead(n, word, last);
      WordsHead(n - 1, word, last);
    }
  }

  lemma PickedFours(left: nat, i: nat, recorded: seq<int>)
    ensures left == 0 && (i + 1) in recorded ==> Picked(Fours(left), i, recorded) == [5]
    ensures left > 0 && (i + 1) in recorded ==>
              Picked(Fours(left), i, recorded) == [4] + Picked(Fours(left - 1), i + 1, recorded)
    ensures left > 0 && (i + 1) !in recorded ==>
              Picked(Fours(left), i, recorded) == Picked(Fours(left - 1), i + 1, recorded)
  {
    if left > 0 {
      assert Fours(left)[1..] == Fours(left - 1);
    }
  }

  lemma PrependDiffers(v: int, a: Option<seq<int>>, b: seq<int>)
    requires a != Some(b)
    ensures Prepend(v, a) != Some([v] + b)
  {
    if a.Some? {
      assert ([v] + a.value)[1..] == a.value && ([v] + b)[1..] == b;
    }
  }

  /** With `gaps` parameters misread so far, the reader is that many words early and never meets the five. */
  lemma {:induction false} FoursMisread(take: Taker, left: nat, i: nat, gaps: nat, word: Bytes, last: Bytes,
                                        recorded: seq<int>)
    requires forall n, k {:trigger TakesFour(take, n, word, last, k, recorded)} ::
               TakesFour(take, n, word, last, k, recorded)
    requires gaps > 0 || exists k :: i < k <= i + left && k !in recorded
    requires (i + left + 1) in recorded
    ensures Scan(take, Words(2 * left + 1 + gaps, word, last), i, i + left + 1) !=
            Some(Picked(Fours(left), i, recorded))
    decreases left
  {
    assert TakesFour(take, 2 * left + 1 + gaps, word, last, i, recorded);
    PickedFours(left, i, recorded);
    if left == 0 {
      assert Scan(take, Words(gaps - 1, word, last), i + 1, i + 1) == Some([]);
      assert [4] + [] == [4];
    } else if (i + 1) in recorded {
      FoursMisread(take, left - 1, i + 1, gaps, word, last, recorded);
      PrependDiffers(4, Scan(take, Words(2 * left - 1 + gaps, word, last), i + 1, i + left + 1),
                     Picked(Fours(left - 1), i + 1, recorded));
    } else {
      FoursMisread(take, left - 1, i + 1, gaps + 1, word, last, recorded);
    }
  }

  /** The message that is misread when position `j` is recorded and some earlier one is not. */
  function Misread(j: nat): Message
    requires j >= 1
  {
    Message([], [], [AsBinary], Fours(j - 1), [])
  }

  lemma FourSays() returns (word: Bytes, last: Bytes)
    ensures SaysFour(word) && |last| == 4
    ensures EncodeParam(Int4(4)) == word + word && EncodeParam(Int4(5)) == word + last
  {
    word, last := I32(4), I32(5);
    forall rest {:trigger word + rest} ensures GetI32(word + rest) == 4 {
      I32RoundTrip(4, rest);
    }
  }

  lemma {:induction false} WordsLength(n: nat, word: Bytes, last: Bytes)
    requires |word| == 4
    ensures |Words(n, word, last)| == 4 * n + |last|
  {
    if n > 0 {
      WordsLength(n - 1, word, last);
    }
  }

  lemma BodyLength(b: Message)
    requires |b.codes| == 1
    ensures |EncodeBody(b)| == |b.portal| + |b.name| + 8 + |EncodeParams(b.params)| + |b.tail|
  {
    assert EncodeFormats(b.codes[..0]) == [];
  }

  lemma MisreadIsWellFormed(j: nat, word: Bytes, last: Bytes)
    requires 1 <= j < 0x8000 && |word| == 4 && |last| == 4
    requires EncodeParam(Int4(4)) == word + word && EncodeParam(Int4(5)) == word + last
    ensures WellFormed(Misread(j)) && |Fours(j - 1)| == j
    ensures EncodeParams(Fours(j - 1)) == Words(2 * j - 1, word, last)
  {
    FoursAreWords(j - 1, word, last);
    WordsLength(2 * j - 1, word, last);
    BodyLength(Misread(j));
  }

  lemma WordsMisread(i: nat, j: nat, word: Bytes, last: Bytes, recorded: seq<int>)
    requires 1 <= i < j && i !in recorded && j in recorded && SaysFour(word)
    ensures Scan(Reader(Uniform(AsBinary), recorded), Words(2 * j - 1, word, last), 0, j) !=
            Some(Picked(Fours(j - 1), 0, recorded))
  {
    var take := Reader(Uniform(AsBinary), recorded);
    forall n, k ensures TakesFour(take, n, word, last, k, recorded) {
      ReaderTakesFour(n, word, last, k, recorded);
    }
    FoursMisread(take, j - 1, 0, 0, word, last, recorded);
  }

  lemma LaterRecordedIsMisread(i: nat, j: nat, recorded: seq<int>)
    requires 1 <= i < j < 0x8000 && i !in recorded && j in recorded
    ensures WellFormed(Misread(j)) && |Misread(j).params| == j
    ensures Arguments(EncodeBody(Misread(j)), recorded) != Some(Picked(Misread(j).params, 0, recorded))
  {
    var word, last := FourSays();
    MisreadIsWellFormed(j, word, last);
    HeadBack(Misread(j), recorded);
    WordsMisread(i, j, word, last, recorded);
    var words := Words(2 * j - 1, word, last);
    assert words + [] == words;
  }

  /** Every well-formed Bind message of up to `n` parameters is read right: the recorded ones, in order. */
  ghost predicate ReadsRight(recorded: seq<int>, n: nat) {
    forall b :: WellFormed(b) && |b.params| <= n ==>
      Arguments(EncodeBody(b), recorded) == Some(Picked(b.params, 0, recorded))
  }

  /** Bind decoding is right on all messages exactly when the recorded positions are the first ones. */
  lemma BindExact(recorded: seq<int>, n: nat)
    requires n < 0x8000
    ensures ReadsRight(recorded, n) <==> Initial(recorded, n)
  {
    if Initial(recorded, n) {
      forall b | WellFormed(b) && |b.params| <= n
        ensures Arguments(EncodeBody(b), recorded) == Some(Picked(b.params, 0, recorded))
      {
        BindRoundTrip(b, recorded);
      }
    } else {
      var i, j :| 1 <= i < j <= n && j in recorded && i !in recorded;
      LaterRecordedIsMisread(i, j, recorded);
    }
  }

  // ---------------------------------------------------------------- all parameters recorded

  function ValuesOf(ps: seq<Param>): seq<int> {
    if ps == [] then [] else [ps[0].value] + ValuesOf(ps[1..])
  }

  ghost predicate AllRecorded(recorded: seq<int>, i: nat, n: nat) {
    forall k :: i < k <= n ==> k in recorded
  }

  lemma {:induction false} AllPicked(ps: seq<Param>, i: nat, recorded: seq<int>)
    requires AllRecorded(recorded, i, i + |ps|)
    ensures Picked(ps, i, recorded) == ValuesOf(ps)
    decreases |ps|
  {
    if ps != [] {
      AllPicked(ps[1..], i + 1, recorded);
    }
  }

  /** When every parameter is recorded, exactly the encoded integers come back. */
  lemma AllRecordedRoundTrip(b: Message, recorded: seq<int>)
    requires WellFormed(b) && AllRecorded(recorded, 0, |b.params|)
    ensures Arguments(EncodeBody(b), recorded) == Some(ValuesOf(b.params))
  {
    BindRoundTrip(b, recorded);
    AllPicked(b.params, 0, recorded);
  }
}
