/** Messages on the wire: the encoders that append to byte buffers and the readers that take them apart. */
module Wire {
  import opened Text

  type byte = x: int | 0 <= x < 256
  type Bytes = seq<byte>

  const I32_LIMIT: int := 0x8000_0000
  const U32_LIMIT: int := 0x1_0000_0000

  /** A protocol message: a code, and the bytes after the length word. */
  datatype Frame = Frame(code: byte, body: Bytes)

  // ---------------------------------------------------------------- integers, big-endian

  /** `n as i32`: keep the low 32 bits, read as two's complement. */
  function AsI32(n: int): (r: int)
    ensures -I32_LIMIT <= r < I32_LIMIT
    ensures -I32_LIMIT <= n < I32_LIMIT ==> r == n
  {
    (n + I32_LIMIT) % U32_LIMIT - I32_LIMIT
  }

  function AsI16(n: int): (r: int)
    ensures -0x8000 <= r < 0x8000
    ensures -0x8000 <= n < 0x8000 ==> r == n
  {
    (n + 0x8000) % 0x1_0000 - 0x8000
  }

  /** The low `w` bytes of `n`, most significant first. */
  function BigEndian(w: nat, n: int): (s: Bytes)
    ensures |s| == w
  {
    if w == 0 then [] else BigEndian(w - 1, n / 256) + [n % 256]
  }

  /** The value of a run of bytes, most significant first. */
  function Unsigned(s: Bytes): nat {
    if s == [] then 0 else 256 * Unsigned(s[..|s| - 1]) + s[|s| - 1]
  }

  function I16(n: int): (s: Bytes)
    ensures |s| == 2
  {
    BigEndian(2, n)
  }

  function I32(n: int): (s: Bytes)
    ensures |s| == 4
  {
    BigEndian(4, n)
  }

  function I64(n: int): (s: Bytes)
    ensures |s| == 8
  {
    BigEndian(8, n)
  }

  /** `get_i16`, `get_i32` and `get_i64` on the first bytes of `s`. */
  function GetI16(s: Bytes): int
    requires |s| >= 2
  {
    TwosComplement(Unsigned(s[..2]), 0x8000)
  }

  function GetI32(s: Bytes): int
    requires |s| >= 4
  {
    TwosComplement(Unsigned(s[..4]), I32_LIMIT)
  }

  function GetI64(s: Bytes): int
    requires |s| >= 8
  {
    TwosComplement(Unsigned(s[..8]), 0x8000_0000_0000_0000)
  }

  function TwosComplement(n: int, limit: int): int {
    if n < limit then n else n - 2 * limit
  }

  function Base(w: nat): (p: nat)
    ensures p > 0
  {
    if w == 0 then 1 else 256 * Base(w - 1)
  }

  lemma {:induction false} BigEndianValue(w: nat, n: int)
    ensures Unsigned(BigEndian(w, n)) == n % Base(w)
  {
    if w > 0 {
      BigEndianValue(w - 1, n / 256);
      var s := BigEndian(w, n);
      assert s[..|s| - 1] == BigEndian(w - 1, n / 256);
      DivModStep(n, Base(w - 1));
    }
  }

  lemma DivModStep(n: int, p: nat)
    requires p > 0
    ensures 256 * (n / 256 % p) + n % 256 == n % (256 * p)
  {
    var q := n / 256 / p;
    var r := 256 * (n / 256 % p) + n % 256;
    assert n / 256 == q * p + n / 256 % p;
    assert n == 256 * (n / 256) + n % 256;
    assert n == q * (256 * p) + r by {
      assert 256 * (q * p) == q * (256 * p);
    }
    ModUnique(n, 256 * p, q, r);
  }

  lemma ModUnique(n: int, d: int, q: int, r: int)
    requires d > 0 && 0 <= r < d && n == q * d + r
    ensures n % d == r
  {
    var e := n / d - q;
    assert e * d == r - n % d by {
      assert (n / d - q) * d == n / d * d - q * d;
    }
    MultipleIsFar(e, d);
  }

  lemma MultipleIsFar(e: int, d: int)
    requires d > 0
    ensures e >= 1 ==> e * d >= d
    ensures e <= -1 ==> e * d <= -d
    ensures e == 0 ==> e * d == 0
  {
    assert (e - 1) * d == e * d - d;
    assert (e + 1) * d == e * d + d;
    assert e >= 1 ==> (e - 1) * d >= 0;
    assert e <= -1 ==> (e + 1) * d <= 0;
  }

  lemma Bases()
    ensures Base(2) == 0x1_0000
    ensures Base(4) == 0x1_0000_0000
    ensures Base(8) == 0x1_0000_0000_0000_0000
  {
    assert Base(1) == 256;
    assert Base(3) == 0x100_0000;
    assert Base(5) == 256 * Base(4);
    assert Base(6) == 256 * Base(5);
    assert Base(7) == 256 * Base(6);
  }

  lemma WrapFits(n: int, limit: int)
    requires limit > 0 && -limit <= n < limit
    ensures TwosComplement(n % (2 * limit), limit) == n
  {
    ModUnique(n, 2 * limit, if n < 0 then -1 else 0, if n < 0 then n + 2 * limit else n);
  }

  /** Every integer that fits its width is read back from its bytes, whatever follows them. */
  lemma I16RoundTrip(n: int, rest: Bytes)
    requires -0x8000 <= n < 0x8000
    ensures GetI16(I16(n) + rest) == n
  {
    Bases();
    BigEndianValue(2, n);
    assert (I16(n) + rest)[..2] == I16(n);
    WrapFits(n, 0x8000);
  }

  lemma I32RoundTrip(n: int, rest: Bytes)
    requires -I32_LIMIT <= n < I32_LIMIT
    ensures GetI32(I32(n) + rest) == n
  {
    Bases();
    BigEndianValue(4, n);
    assert (I32(n) + rest)[..4] == I32(n);
    WrapFits(n, I32_LIMIT);
  }

  lemma I64RoundTrip(n: int, rest: Bytes)
    requires I64_MIN <= n <= I64_MAX
    ensures GetI64(I64(n) + rest) == n
  {
    Bases();
    BigEndianValue(8, n);
    assert (I64(n) + rest)[..8] == I64(n);
    WrapFits(n, I64_MAX + 1);
  }

  // ---------------------------------------------------------------- framing

  /** The frame fits the signed 32-bit length word. */
  predicate Fits(f: Frame) {
    |f.body| + 4 < I32_LIMIT
  }

  predicate AllFit(fs: seq<Frame>) {
    forall i :: 0 <= i < |fs| ==> Fits(fs[i])
  }

  function Encode(f: Frame): (s: Bytes)
    ensures |s| == |f.body| + 5 && s[0] == f.code && s[5..] == f.body
  {
    [f.code] + I32(AsI32(|f.body| + 4)) + f.body
  }

  function Concat(fs: seq<Frame>): Bytes {
    if fs == [] then [] else Concat(fs[..|fs| - 1]) + Encode(fs[|fs| - 1])
  }

  /** How many bytes a run of messages takes: `buffer.len()`. */
  function Size(fs: seq<Frame>): nat {
    if fs == [] then 0 else Size(fs[..|fs| - 1]) + |fs[|fs| - 1].body| + 5
  }

  lemma {:induction false} SizeIsLength(fs: seq<Frame>)
    ensures Size(fs) == |Concat(fs)|
  {
    if fs != [] {
      SizeIsLength(fs[..|fs| - 1]);
    }
  }

  /** The first whole message of a stream; `None` when reading it ends in an error. */
  function Head(data: Bytes): (r: Option<Bytes>)
    ensures r.Some? ==> 5 <= |r.value| && r.value <= data
  {
    if |data| < 5 then None
    else
      var len := GetI32(data[1..5]);
      if len < 4 || |data| < len + 1 then None else Some(data[..len + 1])
  }

  datatype Reading = Whole(message: Bytes) | CutShort | Panicked

  class Stream {
    var data: Bytes

    constructor (data: Bytes)
      ensures this.data == data
    {
      this.data := data;
    }

    /**
     * `read_message`: code, length word, then exactly the rest of the message. A buffer cannot be
     * made for a length below -1; in a release build -1 itself wraps around to the check that follows.
     */
    method ReadMessage() returns (r: Reading)
      modifies this
      ensures r.Whole? <==> Head(old(data)).Some?
      ensures r.Whole? ==> Head(old(data)) == Some(r.message) && old(data) == r.message + data
      ensures r.Panicked? <==> |old(data)| >= 5 && GetI32(old(data)[1..5]) < -1
    {
      ghost var all := data;
      if |data| < 1 {
        return CutShort;
      }
      var code := data[0];
      data := data[1..];
      if |data| < 4 {
        return CutShort;
      }
      var len := GetI32(data[..4]);
      assert data[..4] == all[1..5];
      data := data[4..];
      if len < -1 {
        return Panicked;
      }
      var bytes := [code] + I32(len);
      if len < 4 {
        return CutShort;
      }
      if |data| < len - 4 {
        return CutShort;
      }
      LengthWord(all);
      r := Whole(bytes + data[..len - 4]);
      assert r.message == all[..len + 1] by {
        assert all[..len + 1] == all[..1] + all[1..5] + all[5..len + 1];
        assert data == all[5..];
        assert all[5..len + 1] == data[..len - 4];
      }
      data := data[len - 4..];
    }
  }

  /** Writing back the length word that was read gives the same four bytes. */
  lemma LengthWord(data: Bytes)
    requires |data| >= 5
    ensures I32(GetI32(data[1..5])) == data[1..5]
  {
    var w := data[1..5];
    assert w[..4] == w;
    Bases();
    UnsignedBound(w);
    WordBytes(w);
    var u := Unsigned(w);
    if u >= I32_LIMIT {
      BigEndianWraps(4, u - U32_LIMIT, 1);
    }
  }

  lemma {:induction false} UnsignedBound(s: Bytes)
    ensures Unsigned(s) < Base(|s|)
  {
    if s != [] {
      UnsignedBound(s[..|s| - 1]);
    }
  }

  lemma {:induction false} WordBytes(s: Bytes)
    ensures BigEndian(|s|, Unsigned(s)) == s
  {
    if s != [] {
      WordBytes(s[..|s| - 1]);
      assert s == s[..|s| - 1] + [s[|s| - 1]];
    }
  }

  lemma {:induction false} BigEndianWraps(w: nat, n: int, q: int)
    ensures BigEndian(w, n + q * Base(w)) == BigEndian(w, n)
  {
    if w > 0 {
      assert q * Base(w) == 256 * (q * Base(w - 1)) by {
        assert Base(w) == 256 * Base(w - 1);
      }
      var m := n + q * Base(w);
      assert m / 256 == n / 256 + q * Base(w - 1);
      assert m % 256 == n % 256;
      BigEndianWraps(w - 1, n / 256, q);
    }
  }

  /** The messages of a stream, as repeated reads deliver them. */
  function Messages(data: Bytes): seq<Bytes>
    decreases |data|
  {
    match Head(data)
    case None => []
    case Some(m) => [m] + Messages(data[|m|..])
  }

  function Joined(ms: seq<Bytes>): Bytes {
    if ms == [] then [] else ms[0] + Joined(ms[1..])
  }

  function Decode(message: Bytes): Frame
    requires |message| >= 5
  {
    Frame(message[0], message[5..])
  }

  /** Reading never loses or reorders a byte: the messages delivered are a prefix of the stream. */
  lemma {:induction false} ReadingIsLossless(data: Bytes)
    ensures Joined(Messages(data)) <= data
    ensures Head(data[|Joined(Messages(data))|..]) == None
    decreases |data|
  {
    match Head(data)
    case None =>
      assert data[0..] == data;
    case Some(m) =>
      var rest := data[|m|..];
      ReadingIsLossless(rest);
      var ms := Messages(rest);
      assert Messages(data)[1..] == ms;
      assert data == m + rest;
      assert data[|m + Joined(ms)|..] == rest[|Joined(ms)|..];
  }

  lemma HeadOfEncode(f: Frame, rest: Bytes)
    requires Fits(f)
    ensures Head(Encode(f) + rest) == Some(Encode(f))
    ensures Decode(Encode(f)) == f
  {
    var data := Encode(f) + rest;
    assert data[1..5] == I32(AsI32(|f.body| + 4));
    I32RoundTrip(|f.body| + 4, []);
    assert I32(|f.body| + 4) + [] == I32(|f.body| + 4);
    assert data[..|f.body| + 5] == Encode(f);
  }

  function Encodings(fs: seq<Frame>): (r: seq<Bytes>)
    ensures |r| == |fs|
  {
    seq(|fs|, i requires 0 <= i < |fs| => Encode(fs[i]))
  }

  lemma Associate(a: Bytes, b: Bytes, c: Bytes)
    ensures (a + b) + c == a + (b + c)
  {
  }

  lemma ConcatLast(fs: seq<Frame>, f: Frame)
    ensures Concat(fs + [f]) == Concat(fs) + Encode(f)
  {
    assert (fs + [f])[..|fs|] == fs;
  }

  lemma ConcatFirst(fs: seq<Frame>)
    requires fs != []
    ensures Concat(fs) == Encode(fs[0]) + Concat(fs[1..])
  {
    ConcatSplit([fs[0]], fs[1..]);
    ConcatLast([], fs[0]);
    assert [] + [fs[0]] == [fs[0]] && fs == [fs[0]] + fs[1..];
    var none: Bytes := [];
    assert none + Encode(fs[0]) == Encode(fs[0]);
  }

  lemma {:induction false} ConcatSplit(fs: seq<Frame>, gs: seq<Frame>)
    ensures Concat(fs + gs) == Concat(fs) + Concat(gs)
  {
    if gs == [] {
      assert fs + gs == fs;
    } else {
      var init, last := gs[..|gs| - 1], gs[|gs| - 1];
      assert gs == init + [last] && fs + gs == (fs + init) + [last];
      ConcatSplit(fs, init);
      ConcatLast(fs + init, last);
      ConcatLast(init, last);
      Associate(Concat(fs), Concat(init), Encode(last));
    }
  }

  /** Any run of encoded messages is split by repeated reads back into exactly those messages. */
  lemma {:induction false} FramesRoundTrip(fs: seq<Frame>)
    requires AllFit(fs)
    ensures Messages(Concat(fs)) == Encodings(fs)
    ensures Joined(Messages(Concat(fs))) == Concat(fs)
  {
    if fs != [] {
      ConcatFirst(fs);
      var rest := fs[1..];
      FramesRoundTrip(rest);
      HeadOfEncode(fs[0], Concat(rest));
      assert Concat(fs)[|Encode(fs[0])|..] == Concat(rest);
      assert Encodings(fs) == [Encode(fs[0])] + Encodings(rest);
    }
  }

  /** Two different runs of messages never have the same bytes. */
  lemma ConcatInjective(fs: seq<Frame>, gs: seq<Frame>)
    requires AllFit(fs) && AllFit(gs)
    requires Concat(fs) == Concat(gs)
    ensures fs == gs
  {
    FramesRoundTrip(fs);
    FramesRoundTrip(gs);
    forall i | 0 <= i < |fs|
      ensures fs[i] == gs[i]
    {
      assert Encodings(fs)[i] == Encodings(gs)[i];
      HeadOfEncode(fs[i], []);
      HeadOfEncode(gs[i], []);
    }
  }

  // ---------------------------------------------------------------- encoders

  method SimpleQuery(query: Bytes) returns (res: Bytes)
    ensures res == Encode(Frame('Q' as int, query + [0]))
  {
    res := ['Q' as int];
    var terminated := query + [0];
    res := res + I32(AsI32(|terminated| + 4));
    res := res + terminated;
  }

  method CommandComplete(command: Bytes) returns (res: Bytes)
    ensures res == Encode(Frame('C' as int, command + [0]))
  {
    var cmd := command + [0];
    res := ['C' as int];
    res := res + I32(AsI32(|cmd| + 4));
    res := res + cmd;
  }

  method ServerParameterMessage(key: Bytes, value: Bytes) returns (res: Bytes)
    ensures res == Encode(Frame('S' as int, key + [0] + value + [0]))
  {
    var len := 4 + |key| + 1 + |value| + 1;
    res := ['S' as int];
    res := res + I32(AsI32(len));
    res := res + key;
    res := res + [0];
    res := res + value;
    res := res + [0];
    assert res == ['S' as int] + I32(AsI32(len)) + (key + [0] + value + [0]);
  }

  /** Each column as a length word and its bytes. */
  function Columns(row: seq<Bytes>): Bytes {
    if row == [] then [] else I32(AsI32(|row[0]|)) + row[0] + Columns(row[1..])
  }

  function RowBody(row: seq<Bytes>): Bytes {
    I16(AsI16(|row|)) + Columns(row)
  }

  method DataRow(row: seq<Bytes>) returns (res: Bytes)
    ensures res == Encode(Frame('D' as int, RowBody(row)))
  {
    var dataRow := I16(AsI16(|row|));
    var i := 0;
    while i < |row|
      invariant 0 <= i <= |row|
      invariant dataRow + Columns(row[i..]) == RowBody(row)
    {
      dataRow := dataRow + I32(AsI32(|row[i]|));
      dataRow := dataRow + row[i];
      assert row[i..][1..] == row[i + 1..];
      i := i + 1;
    }
    assert dataRow == RowBody(row);
    res := ['D' as int];
    res := res + I32(AsI32(|dataRow| + 4));
    res := res + dataRow;
  }

  /** What a client makes of a DataRow body; `None` when it is malformed. */
  function DecodeColumns(n: nat, s: Bytes): (r: Option<seq<Bytes>>)
    ensures r.Some? ==> |r.value| == n
  {
    if n == 0 then (if s == [] then Some([]) else None)
    else if |s| < 4 then None
    else
      var len := GetI32(s);
      if len < 0 || |s| < 4 + len then None
      else
        match DecodeColumns(n - 1, s[4 + len..])
        case None => None
        case Some(rest) => Some([s[4..4 + len]] + rest)
  }

  function DecodeRow(body: Bytes): Option<seq<Bytes>> {
    if |body| < 2 || GetI16(body) < 0 then None else DecodeColumns(GetI16(body), body[2..])
  }

  lemma {:induction false} ColumnsRoundTrip(row: seq<Bytes>)
    requires forall i :: 0 <= i < |row| ==> |row[i]| < I32_LIMIT
    ensures DecodeColumns(|row|, Columns(row)) == Some(row)
  {
    if row != [] {
      ColumnsRoundTrip(row[1..]);
      var s := Columns(row);
      assert s == I32(|row[0]|) + (row[0] + Columns(row[1..]));
      I32RoundTrip(|row[0]|, row[0] + Columns(row[1..]));
      assert s[4..4 + |row[0]|] == row[0];
      assert s[4 + |row[0]|..] == Columns(row[1..]);
      assert row == [row[0]] + row[1..];
    }
  }

  /** A DataRow decodes to its columns exactly while the 16-bit count word can hold their number. */
  lemma RowRoundTrip(row: seq<Bytes>)
    requires forall i :: 0 <= i < |row| ==> |row[i]| < I32_LIMIT
    ensures DecodeRow(RowBody(row)) == Some(row) <==> |row| < 0x8000
  {
    ColumnsRoundTrip(row);
    I16RoundTrip(AsI16(|row|), Columns(row));
    assert RowBody(row)[2..] == Columns(row);
  }

  // ---------------------------------------------------------------- startup parameters

  datatype Params =
    | Parsed(params: map<Bytes, Bytes>)
    | BadStartup          // an odd number of strings, or none
    | MissingTerminator   // the source panics reading past the end

  predicate NulFree(s: Bytes) {
    forall i :: 0 <= i < |s| ==> s[i] != 0
  }

  /** The length of the C string that starts `s`, if it is terminated. */
  function CStringLength(s: Bytes): (r: Option<nat>)
    ensures r.Some? ==> r.value < |s|
  {
    if s == [] then None
    else if s[0] == 0 then Some(0)
    else
      match CStringLength(s[1..])
      case None => None
      case Some(k) => Some(k + 1)
  }

  /** The non-empty C strings of `s` in order; `None` if the last one is not terminated. */
  function Tokens(s: Bytes): Option<seq<Bytes>>
    decreases |s|
  {
    if s == [] then Some([])
    else
      match CStringLength(s)
      case None => None
      case Some(k) =>
        match Tokens(s[k + 1..])
        case None => None
        case Some(ts) => Some((if k == 0 then [] else [s[..k]]) + ts)
  }

  /** Names and values in turn; a later value for a name replaces an earlier one. */
  function PairUp(buf: seq<Bytes>): map<Bytes, Bytes> {
    if |buf| < 2 then map[] else PairUp(buf[..|buf| - 2])[buf[|buf| - 2] := buf[|buf| - 1]]
  }

  function ParamsOf(tokens: Option<seq<Bytes>>): Params {
    match tokens
    case None => MissingTerminator
    case Some(buf) => if |buf| % 2 != 0 || |buf| < 2 then BadStartup else Parsed(PairUp(buf))
  }

  /** The strings read so far followed by those still to come. */
  function Onward(buf: seq<Bytes>, rest: Option<seq<Bytes>>): Option<seq<Bytes>> {
    match rest
    case None => None
    case Some(ts) => Some(buf + ts)
  }

  lemma OnwardAssociative(a: seq<Bytes>, b: seq<Bytes>, rest: Option<seq<Bytes>>)
    ensures Onward(a, Onward(b, rest)) == Onward(a + b, rest)
    ensures Onward([], rest) == rest
  {
    if rest.Some? {
      assert a + (b + rest.value) == (a + b) + rest.value;
      assert [] + rest.value == rest.value;
    }
  }

  /** The inner loop of `parse_params`: bytes up to the next NUL. */
  method TakeCString(bytes: Bytes) returns (tmp: Bytes, rest: Bytes, terminated: bool)
    requires |bytes| > 0
    ensures NulFree(tmp)
    ensures terminated ==> bytes == tmp + [0] + rest
    ensures !terminated ==> bytes == tmp
  {
    tmp := [];
    var c := bytes[0];
    rest := bytes[1..];
    while c != 0
      invariant bytes == tmp + [c] + rest
      invariant NulFree(tmp)
      decreases |rest|
    {
      tmp := tmp + [c];
      if |rest| == 0 {
        return tmp, rest, false;
      }
      c := rest[0];
      rest := rest[1..];
    }
    terminated := true;
  }

  method ParseParams(input: Bytes) returns (r: Params)
    ensures r == ParamsOf(Tokens(input))
  {
    var bytes := input;
    var buf: seq<Bytes> := [];
    OnwardAssociative([], [], Tokens(bytes));
    while |bytes| > 0
      invariant Onward(buf, Tokens(bytes)) == Tokens(input)
      decreases |bytes|
    {
      var tmp, rest, terminated := TakeCString(bytes);
      if !terminated {
        Unterminated(tmp);
        return MissingTerminator;
      }
      TokensStep(tmp, rest);
      OnwardAssociative(buf, if tmp == [] then [] else [tmp], Tokens(rest));
      if tmp != [] {
        buf := buf + [tmp];
      } else {
        assert buf + [] == buf;
      }
      bytes := rest;
    }
    assert bytes == [];
    assert buf + [] == buf;
    if |buf| % 2 != 0 || |buf| < 2 {
      return BadStartup;
    }
    var result := ToMap(buf);
    r := Parsed(result);
  }

  method ToMap(buf: seq<Bytes>) returns (result: map<Bytes, Bytes>)
    requires |buf| % 2 == 0
    ensures result == PairUp(buf)
  {
    result := map[];
    var i := 0;
    while i < |buf|
      invariant 0 <= i <= |buf| && i % 2 == 0
      invariant result == PairUp(buf[..i])
    {
      assert buf[..i + 2][..i] == buf[..i];
      result := result[buf[i] := buf[i + 1]];
      i := i + 2;
    }
    assert buf[..i] == buf;
  }

  lemma Unterminated(s: Bytes)
    requires NulFree(s) && s != []
    ensures Tokens(s) == None
  {
    CStringAt(s, []);
    assert s + [] == s;
  }

  lemma {:induction false} CStringAt(s: Bytes, rest: Bytes)
    requires NulFree(s)
    requires rest == [] || rest[0] == 0
    ensures CStringLength(s + rest) == if rest == [] then None else Some(|s|)
  {
    if s == [] {
      assert s + rest == rest;
    } else {
      CStringAt(s[1..], rest);
      assert (s + rest)[1..] == s[1..] + rest;
    }
  }

  type Pairs = seq<(Bytes, Bytes)>

  /** How a client writes its parameters, followed by the `last` bytes of the packet. */
  function EncodeParams(pairs: Pairs, last: Bytes): Bytes {
    if pairs == [] then last else pairs[0].0 + [0] + (pairs[0].1 + [0] + EncodeParams(pairs[1..], last))
  }

  function Flattened(pairs: Pairs): seq<Bytes> {
    if pairs == [] then [] else [pairs[0].0, pairs[0].1] + Flattened(pairs[1..])
  }

  predicate PairsNulFree(pairs: Pairs) {
    forall i :: 0 <= i < |pairs| ==> NulFree(pairs[i].0) && NulFree(pairs[i].1)
  }

  predicate PairsNonEmpty(pairs: Pairs) {
    forall i :: 0 <= i < |pairs| ==> pairs[i].0 != [] && pairs[i].1 != []
  }

  lemma TokensStep(s: Bytes, rest: Bytes)
    requires NulFree(s)
    ensures Tokens(s + [0] + rest) == Onward(if s == [] then [] else [s], Tokens(rest))
  {
    var all := s + [0] + rest;
    CStringAt(s, [0] + rest);
    assert all == s + ([0] + rest);
    assert all[|s| + 1..] == rest;
    assert all[..|s|] == s;
  }

  function NonEmptyOnes(ts: seq<Bytes>): (r: seq<Bytes>)
    ensures |r| <= |ts|
    ensures |r| == |ts| ==> r == ts
    ensures |r| == |ts| <==> forall i :: 0 <= i < |ts| ==> ts[i] != []
  {
    if ts == [] then [] else
      assert ts == [ts[0]] + ts[1..];
      (if ts[0] == [] then [] else [ts[0]]) + NonEmptyOnes(ts[1..])
  }

  lemma NoTokens(last: Bytes)
    requires last == [] || last == [0]
    ensures Tokens(last) == Some([])
  {
    if last == [0] {
      assert CStringLength(last) == Some(0) && last[1..] == [];
      var none: seq<Bytes> := [];
      assert none + none == none;
    }
  }

  lemma {:induction false} TokensOfEncoded(pairs: Pairs, last: Bytes)
    requires PairsNulFree(pairs)
    requires last == [] || last == [0]
    ensures Tokens(EncodeParams(pairs, last)) == Some(NonEmptyOnes(Flattened(pairs)))
  {
    if pairs == [] {
      NoTokens(last);
    } else {
      var (k, v) := pairs[0];
      var tail := EncodeParams(pairs[1..], last);
      TokensOfEncoded(pairs[1..], last);
      TokensStep(v, tail);
      TokensStep(k, v + [0] + tail);
      NonEmptyCons(v, Flattened(pairs[1..]));
      NonEmptyCons(k, [v] + Flattened(pairs[1..]));
      assert Flattened(pairs) == [k] + ([v] + Flattened(pairs[1..]));
    }
  }

  lemma NonEmptyCons(t: Bytes, ts: seq<Bytes>)
    ensures NonEmptyOnes([t] + ts) == (if t == [] then [] else [t]) + NonEmptyOnes(ts)
  {
    assert ([t] + ts)[1..] == ts;
  }

  lemma {:induction false} FlattenedAt(pairs: Pairs)
    ensures |Flattened(pairs)| == 2 * |pairs|
    ensures forall i :: 0 <= i < |pairs| ==>
              Flattened(pairs)[2 * i] == pairs[i].0 && Flattened(pairs)[2 * i + 1] == pairs[i].1
  {
    if pairs != [] {
      FlattenedAt(pairs[1..]);
      var f := Flattened(pairs);
      assert f[2..] == Flattened(pairs[1..]);
      forall i | 0 <= i < |pairs|
        ensures f[2 * i] == pairs[i].0 && f[2 * i + 1] == pairs[i].1
      {
        if i > 0 {
          assert pairs[1..][i - 1] == pairs[i];
          assert f[2..][2 * (i - 1)] == f[2 * i];
          assert f[2..][2 * (i - 1) + 1] == f[2 * i + 1];
        }
      }
    }
  }

  /**
   * Names and values come back as written exactly when none of them is empty: an empty one is
   * dropped, and everything after it changes places. The closing NUL of the packet does no harm.
   */
  lemma TokensRoundTrip(pairs: Pairs, last: Bytes)
    requires PairsNulFree(pairs)
    requires last == [] || last == [0]
    ensures Tokens(EncodeParams(pairs, last)) == Some(Flattened(pairs)) <==> PairsNonEmpty(pairs)
  {
    TokensOfEncoded(pairs, last);
    FlattenedAt(pairs);
    var f := Flattened(pairs);
    if PairsNonEmpty(pairs) {
      forall i | 0 <= i < |f| ensures f[i] != [] {
        assert i == 2 * (i / 2) || i == 2 * (i / 2) + 1;
        assert pairs[i / 2].0 != [] && pairs[i / 2].1 != [];
      }
    } else {
      var i :| 0 <= i < |pairs| && !(pairs[i].0 != [] && pairs[i].1 != []);
      assert f[2 * i] == [] || f[2 * i + 1] == [];
    }
  }

  lemma {:induction false} FlattenedSnoc(pairs: Pairs)
    requires pairs != []
    ensures var n := |pairs| - 1;
            Flattened(pairs) == Flattened(pairs[..n]) + [pairs[n].0, pairs[n].1]
  {
    if |pairs| > 1 {
      FlattenedSnoc(pairs[1..]);
      assert pairs[1..][..|pairs| - 2] == pairs[..|pairs| - 1][1..];
    }
  }

  ghost predicate IsLastWins(m: map<Bytes, Bytes>, pairs: Pairs) {
    && (forall k :: k in m ==> exists i :: 0 <= i < |pairs| && pairs[i].0 == k)
    && (forall i :: 0 <= i < |pairs| ==> pairs[i].0 in m)
    && (forall i :: 0 <= i < |pairs| && (forall j :: i < j < |pairs| ==> pairs[j].0 != pairs[i].0)
          ==> m[pairs[i].0] == pairs[i].1)
  }

  lemma {:induction false} PairUpLastWins(pairs: Pairs)
    ensures IsLastWins(PairUp(Flattened(pairs)), pairs)
  {
    if pairs != [] {
      var n := |pairs| - 1;
      FlattenedSnoc(pairs);
      PairUpLastWins(pairs[..n]);
      var f := Flattened(pairs);
      assert f[..|f| - 2] == Flattened(pairs[..n]);
      var m0 := PairUp(Flattened(pairs[..n]));
      var m := PairUp(f);
      assert m == m0[pairs[n].0 := pairs[n].1];
      forall i | 0 <= i < |pairs| && (forall j :: i < j < |pairs| ==> pairs[j].0 != pairs[i].0)
        ensures pairs[i].0 in m && m[pairs[i].0] == pairs[i].1
      {
        if i < n {
          assert pairs[..n][i] == pairs[i];
          assert pairs[n].0 != pairs[i].0;
          assert forall j :: i < j < n ==> pairs[..n][j].0 != pairs[i].0;
        }
      }
      forall i | 0 <= i < |pairs| ensures pairs[i].0 in m {
        assert i < n ==> pairs[..n][i] == pairs[i];
      }
      forall k | k in m ensures exists i :: 0 <= i < |pairs| && pairs[i].0 == k {
        if k != pairs[n].0 {
          var i :| 0 <= i < n && pairs[..n][i].0 == k;
          assert pairs[i].0 == k;
        } else {
          assert pairs[n].0 == k;
        }
      }
    }
  }

  /** Any non-empty list of non-empty parameters is parsed to the map in which the last value wins. */
  lemma ParamsRoundTrip(pairs: Pairs, last: Bytes)
    requires pairs != [] && PairsNulFree(pairs) && PairsNonEmpty(pairs)
    requires last == [] || last == [0]
    ensures var r := ParamsOf(Tokens(EncodeParams(pairs, last)));
            r.Parsed? && IsLastWins(r.params, pairs)
  {
    var tokens := Tokens(EncodeParams(pairs, last));
    var f := Flattened(pairs);
    assert tokens == Some(f) by {
      TokensRoundTrip(pairs, last);
    }
    FlattenedAt(pairs);
    assert ParamsOf(tokens) == Parsed(PairUp(f));
    PairUpLastWins(pairs);
  }
}
