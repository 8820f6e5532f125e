/** The client side of SCRAM-SHA-256, and an honest server to talk to (RFC 5802, RFC 7677). */
module Scram {
  import opened Text

  type Octets = seq<bv8>

  /** The library functions, of which only a few laws are used. */
  datatype Primitives = Primitives(
    hmac: (Octets, Octets) -> Octets,
    sha256: Octets -> Octets,
    encode: Octets -> string,           // Base64
    decode: string -> Option<Octets>,
    bytes: string -> Octets,            // the UTF-8 bytes of a string
    normalize: string -> Octets)        // SASLprep, or the bytes as they are

  const DIGEST: nat := 32

  ghost predicate Lawful(p: Primitives) {
    && (forall k, m :: |p.hmac(k, m)| == DIGEST)
    && (forall o :: p.decode(p.encode(o)) == Some(o))
    && (forall o :: |p.encode(o)| >= |o|)
  }

  // ---------------------------------------------------------------- Hi

  function Xor(a: Octets, b: Octets): (r: Octets)
    requires |a| == |b|
    ensures |r| == |a|
  {
    seq(|a|, i requires 0 <= i < |a| => a[i] ^ b[i])
  }

  lemma XorTwice(a: Octets, b: Octets)
    requires |a| == |b|
    ensures Xor(Xor(a, b), b) == a
  {
    forall i | 0 <= i < |a| ensures (a[i] ^ b[i]) ^ b[i] == a[i] {
    }
  }

  /** U1, U2, ... of section 2.2 of RFC 5802. */
  function U(p: Primitives, str: Octets, salt: Octets, i: nat): Octets
    requires i >= 1
  {
    if i == 1 then p.hmac(str, salt + [0, 0, 0, 1]) else p.hmac(str, U(p, str, salt, i - 1))
  }

  /** Hi(str, salt, i) = U1 XOR U2 XOR ... XOR Ui. */
  ghost function Hi(p: Primitives, str: Octets, salt: Octets, i: nat): (r: Octets)
    requires i >= 1 && Lawful(p)
    ensures |r| == DIGEST
  {
    if i == 1 then U(p, str, salt, 1) else Xor(Hi(p, str, salt, i - 1), U(p, str, salt, i))
  }

  /** The loop that folds one array into another in place, in `hi` and again when the proof is signed. */
  method XorInto(hi: array<bv8>, prev: Octets)
    requires hi.Length == |prev|
    modifies hi
    ensures hi[..] == Xor(old(hi[..]), prev)
  {
    var j := 0;
    while j < hi.Length
      invariant 0 <= j <= hi.Length
      invariant forall k :: 0 <= k < j ==> hi[k] == old(hi[k]) ^ prev[k]
      invariant forall k :: j <= k < hi.Length ==> hi[k] == old(hi[k])
    {
      hi[j] := hi[j] ^ prev[j];
      j := j + 1;
    }
  }

  /** `hi`, which accumulates in place; an iteration count of 0 is treated as 1. */
  method ComputeHi(p: Primitives, str: Octets, salt: Octets, i: nat) returns (hi: array<bv8>)
    requires Lawful(p)
    ensures fresh(hi) && hi[..] == Hi(p, str, salt, if i == 0 then 1 else i)
  {
    var prev := p.hmac(str, salt + [0, 0, 0, 1]);
    hi := new bv8[DIGEST](k requires 0 <= k < DIGEST => prev[k]);
    assert hi[..] == prev;
    var n := 1;
    while n < i
      invariant 1 <= n && (i >= 1 ==> n <= i) && (i == 0 ==> n == 1)
      invariant fresh(hi) && hi.Length == DIGEST
      invariant prev == U(p, str, salt, n)
      invariant hi[..] == Hi(p, str, salt, n)
    {
      prev := p.hmac(str, prev);
      XorInto(hi, prev);
      n := n + 1;
    }
  }

  // ---------------------------------------------------------------- parsing the server's messages

  function Split(s: string): (r: seq<string>)
    ensures |r| > 0
  {
    if s == [] then [[]]
    else
      var rest := Split(s[1..]);
      if s[0] == ',' then [[]] + rest else [[s[0]] + rest[0]] + rest[1..]
  }

  /** `str::replace(s, "xy", "")`. */
  function RemoveAll(s: string, x: char, y: char): string {
    if |s| < 2 then s
    else if s[0] == x && s[1] == y then RemoveAll(s[2..], x, y)
    else [s[0]] + RemoveAll(s[1..], x, y)
  }

  /** The text "xy" occurs in `s`. */
  predicate Occurs(s: string, x: char, y: char) {
    |s| >= 2 && ((s[0] == x && s[1] == y) || Occurs(s[1..], x, y))
  }

  predicate HasComma(s: string) {
    ',' in s
  }

  datatype Challenge = Challenge(nonce: string, salt: string, iterations: nat)

  /** `Message::parse`. */
  function Parse(message: string): Option<Challenge> {
    var parts := Split(message);
    if |parts| != 3 then None
    else
      match ParseU32(RemoveAll(parts[2], 'i', '='))
      case None => None
      case Some(n) => Some(Challenge(RemoveAll(parts[0], 'r', '='), RemoveAll(parts[1], 's', '='), n))
  }

  /** The server-first-message of section 7 of RFC 5802. */
  function ServerFirst(nonce: string, salt: string, iterations: nat): string {
    "r=" + nonce + "," + ("s=" + salt + "," + ("i=" + Decimal(iterations)))
  }

  lemma {:induction false} SplitNoComma(s: string)
    ensures |Split(s)| == 1 <==> !HasComma(s)
    ensures !HasComma(s) ==> Split(s) == [s]
  {
    if s != [] {
      SplitNoComma(s[1..]);
      assert s == [s[0]] + s[1..];
    }
  }

  function Pushed(c: char, parts: seq<string>): seq<string>
    requires |parts| > 0
  {
    if c == ',' then [[]] + parts else [[c] + parts[0]] + parts[1..]
  }

  lemma SplitCons(c: char, s: string)
    ensures Split([c] + s) == Pushed(c, Split(s))
  {
    assert ([c] + s)[1..] == s;
  }

  lemma PushedAppend(c: char, x: seq<string>, y: seq<string>)
    requires |x| > 0
    ensures Pushed(c, x + y) == Pushed(c, x) + y
  {
    assert (x + y)[1..] == x[1..] + y;
  }

  lemma {:induction false} SplitJoin(a: string, b: string)
    ensures Split(a + "," + b) == Split(a) + Split(b)
  {
    if a == [] {
      SplitCons(',', b);
      assert a + "," + b == [','] + b;
    } else {
      var rest := a[1..] + "," + b;
      SplitJoin(a[1..], b);
      SplitCons(a[0], a[1..]);
      SplitCons(a[0], rest);
      PushedAppend(a[0], Split(a[1..]), Split(b));
      assert a == [a[0]] + a[1..] && a + "," + b == [a[0]] + rest;
    }
  }

  lemma {:induction false} RemoveAllExact(s: string, x: char, y: char)
    ensures |RemoveAll(s, x, y)| <= |s|
    ensures RemoveAll(s, x, y) == s <==> !Occurs(s, x, y)
    ensures Occurs(s, x, y) ==> |RemoveAll(s, x, y)| < |s|
  {
    if |s| >= 2 {
      if s[0] == x && s[1] == y {
        RemoveAllExact(s[2..], x, y);
      } else {
        RemoveAllExact(s[1..], x, y);
        assert s == [s[0]] + s[1..];
      }
    }
  }

  lemma RemovePrefix(s: string, x: char, y: char)
    ensures RemoveAll([x, y] + s, x, y) == RemoveAll(s, x, y)
  {
    assert ([x, y] + s)[2..] == s;
  }

  lemma DigitsAreClean(n: nat)
    ensures !HasComma("i=" + Decimal(n)) && !Occurs(Decimal(n), 'i', '=')
  {
    NoDigitOccurs(Decimal(n));
    assert ',' !in Decimal(n);
  }

  lemma {:induction false} NoDigitOccurs(s: string)
    requires forall i :: 0 <= i < |s| ==> IsDigit(s[i])
    ensures !Occurs(s, 'i', '=')
  {
    if |s| >= 2 {
      NoDigitOccurs(s[1..]);
    }
  }

  lemma PartsOfServerFirst(nonce: string, salt: string, iterations: nat)
    ensures Split(ServerFirst(nonce, salt, iterations)) ==
            Split("r=" + nonce) + (Split("s=" + salt) + ["i=" + Decimal(iterations)])
  {
    var d := "i=" + Decimal(iterations);
    DigitsAreClean(iterations);
    SplitNoComma(d);
    SplitJoin("s=" + salt, d);
    SplitJoin("r=" + nonce, "s=" + salt + "," + d);
  }

  lemma CommaAfter(x: char, s: string)
    requires x != ','
    ensures HasComma([x, '='] + s) <==> HasComma(s)
  {
    if HasComma(s) {
      var i :| 0 <= i < |s| && s[i] == ',';
      assert ([x, '='] + s)[i + 2] == ',';
    }
  }

  /**
   * The challenge is understood exactly when neither the nonce nor the salt text holds a comma and
   * they are free of "r=" and "s=" respectively, since the parser deletes every such pair.
   */
  lemma ParseExact(nonce: string, salt: string, iterations: nat)
    requires iterations <= U32_MAX
    ensures Parse(ServerFirst(nonce, salt, iterations)) == Some(Challenge(nonce, salt, iterations)) <==>
            !HasComma(nonce) && !HasComma(salt) && !Occurs(nonce, 'r', '=') && !Occurs(salt, 's', '=')
  {
    var d := Decimal(iterations);
    PartsOfServerFirst(nonce, salt, iterations);
    CommaAfter('r', nonce);
    CommaAfter('s', salt);
    SplitNoComma("r=" + nonce);
    SplitNoComma("s=" + salt);
    RemovePrefix(nonce, 'r', '=');
    RemovePrefix(salt, 's', '=');
    RemovePrefix(d, 'i', '=');
    RemoveAllExact(nonce, 'r', '=');
    RemoveAllExact(salt, 's', '=');
    DigitsAreClean(iterations);
    RemoveAllExact(d, 'i', '=');
    U32RoundTrip(iterations);
  }

  // ---------------------------------------------------------------- the exchange

  const GS2_HEADER: string := "n,,"

  function ClientFirstBare(nonce: string): string {
    "n=,r=" + nonce
  }

  function FinalWithoutProof(p: Primitives, nonce: string): string {
    "c=" + p.encode(p.bytes(GS2_HEADER)) + ",r=" + nonce
  }

  function AuthMessage(p: Primitives, clientNonce: string, serverFirst: string, nonce: string): string {
    ClientFirstBare(clientNonce) + "," + serverFirst + "," + FinalWithoutProof(p, nonce)
  }

  function ClientKey(p: Primitives, salted: Octets): Octets {
    p.hmac(salted, p.bytes("Client Key"))
  }

  function StoredKey(p: Primitives, salted: Octets): Octets {
    p.sha256(ClientKey(p, salted))
  }

  function ServerSignature(p: Primitives, salted: Octets, auth: string): Octets {
    p.hmac(p.hmac(salted, p.bytes("Server Key")), p.bytes(auth))
  }

  /** ClientProof := ClientKey XOR HMAC(StoredKey, AuthMessage). */
  ghost function Proof(p: Primitives, salted: Octets, auth: string): Octets
    requires Lawful(p)
  {
    Xor(ClientKey(p, salted), p.hmac(StoredKey(p, salted), p.bytes(auth)))
  }

  datatype Account = Account(password: string, salt: Octets, iterations: nat)

  ghost function Salted(p: Primitives, a: Account): Octets
    requires Lawful(p) && a.iterations >= 1
  {
    Hi(p, p.normalize(a.password), a.salt, a.iterations)
  }

  /**
   * An honest server (section 3 of RFC 5802): the final message must repeat the header and the
   * nonce, and its proof must give back a key whose hash is the stored one.
   */
  ghost predicate ServerAccepts(p: Primitives, a: Account, clientNonce: string, nonce: string, message: string)
    requires Lawful(p) && a.iterations >= 1
  {
    var head := FinalWithoutProof(p, nonce) + ",p=";
    var auth := AuthMessage(p, clientNonce, ServerFirst(nonce, p.encode(a.salt), a.iterations), nonce);
    var stored := StoredKey(p, Salted(p, a));
    && head <= message
    && var proof := p.decode(message[|head|..]);
    && proof.Some? && |proof.value| == DIGEST
    && p.sha256(Xor(proof.value, p.hmac(stored, p.bytes(auth)))) == stored
  }

  datatype Result<T> = Success(value: T) | ProtocolSyncError | ServerError

  class ScramSha256 {
    const password: string
    const nonce: string
    var saltedPassword: Octets
    var authMessage: string
    var message: string

    /** `from_nonce`. */
    constructor (password: string, nonce: string)
      ensures this.password == password && this.nonce == nonce
      ensures message == GS2_HEADER + ClientFirstBare(nonce)
    {
      this.password := password;
      this.nonce := nonce;
      message := GS2_HEADER + ClientFirstBare(nonce);
      saltedPassword := seq(DIGEST, _ => 0);
      authMessage := "";
    }

    method Update(p: Primitives, serverMessage: string) returns (r: Result<string>)
      requires Lawful(p)
      modifies this
      ensures r == Replied(p, password, nonce, serverMessage)
      ensures r.Success? ==>
                var c := Parse(serverMessage).value;
                && saltedPassword == Hi(p, p.normalize(password), p.decode(c.salt).value, AtLeastOne(c.iterations))
                && authMessage == AuthMessage(p, nonce, serverMessage, c.nonce)
                && message == r.value
      ensures !r.Success? ==> unchanged(this)
    {
      var parsed := Parse(serverMessage);
      if parsed.None? {
        return ProtocolSyncError;
      }
      var challenge := parsed.value;
      if !(nonce <= challenge.nonce) {
        return ProtocolSyncError;
      }
      var salt := p.decode(challenge.salt);
      if salt.None? {
        return ProtocolSyncError;
      }
      var salted := ComputeHi(p, p.normalize(password), salt.value, challenge.iterations);
      saltedPassword := salted[..];
      var clientKey := p.hmac(saltedPassword, p.bytes("Client Key"));
      var storedKey := p.sha256(clientKey);
      message := "c=" + p.encode(p.bytes(GS2_HEADER)) + ",r=" + challenge.nonce;
      authMessage := "n=,r=" + nonce + "," + serverMessage + "," + message;
      var clientSignature := p.hmac(storedKey, p.bytes(authMessage));
      var proof := new bv8[DIGEST](k requires 0 <= k < DIGEST => clientKey[k]);
      assert proof[..] == clientKey;
      XorInto(proof, clientSignature);
      message := message + ",p=" + p.encode(proof[..]);
      r := Success(message);
    }

    method Finish(p: Primitives, serverMessage: string) returns (r: Result<()>)
      ensures r.Success? <==> Verifies(p, saltedPassword, authMessage, serverMessage)
    {
      if !("v=" <= serverMessage) || |serverMessage| < 4 {
        return ProtocolSyncError;
      }
      var verifier := p.decode(serverMessage[2..]);
      if verifier.None? {
        return ProtocolSyncError;
      }
      var serverKey := p.hmac(saltedPassword, p.bytes("Server Key"));
      if p.hmac(serverKey, p.bytes(authMessage)) == verifier.value {
        r := Success(());
      } else {
        r := ServerError;
      }
    }
  }

  function AtLeastOne(i: nat): nat {
    if i == 0 then 1 else i
  }

  /** What `update` answers to the server's challenge. */
  ghost function Replied(p: Primitives, password: string, nonce: string, serverMessage: string): Result<string>
    requires Lawful(p)
  {
    match Parse(serverMessage)
    case None => ProtocolSyncError
    case Some(c) =>
      if !(nonce <= c.nonce) || p.decode(c.salt).None? then ProtocolSyncError
      else
        var salted := Hi(p, p.normalize(password), p.decode(c.salt).value, AtLeastOne(c.iterations));
        var auth := AuthMessage(p, nonce, serverMessage, c.nonce);
        Success(FinalWithoutProof(p, c.nonce) + ",p=" + p.encode(Proof(p, salted, auth)))
  }

  /** What `finish` accepts: "v=" and a text that decodes to the server's signature. */
  predicate Verifies(p: Primitives, salted: Octets, auth: string, serverMessage: string) {
    && "v=" <= serverMessage && |serverMessage| >= 4
    && p.decode(serverMessage[2..]) == Some(ServerSignature(p, salted, auth))
  }

  /** The nonce can travel through the parser. */
  predicate SafeNonce(nonce: string) {
    !HasComma(nonce) && !Occurs(nonce, 'r', '=')
  }

  predicate SafeSalt(text: string) {
    !HasComma(text) && !Occurs(text, 's', '=')
  }

  /** The proof gives the server back the client's key. */
  lemma ProofOpens(p: Primitives, salted: Octets, auth: string)
    requires Lawful(p)
    ensures var stored := StoredKey(p, salted);
            p.sha256(Xor(Proof(p, salted, auth), p.hmac(stored, p.bytes(auth)))) == stored
  {
    XorTwice(ClientKey(p, salted), p.hmac(StoredKey(p, salted), p.bytes(auth)));
  }

  /** A head that ends in a nonce without commas is only matched by that very nonce. */
  lemma NonceInHead(pre: string, n: string, m: string, rest: string)
    requires !HasComma(n) && |m| < |n|
    ensures !(pre + n <= pre + m + "," + rest)
  {
    assert (pre + m + "," + rest)[|pre| + |m|] == ',';
    assert (pre + n)[|pre| + |m|] == n[|m|] != ',';
  }

  /**
   * The exchange completes: with a salt text the parser can carry, an honest server accepts what
   * `update` replies exactly when the nonce has no comma and no "r=" in it.
   */
  lemma ExchangeExact(p: Primitives, a: Account, clientNonce: string, serverNonce: string)
    requires Lawful(p) && 1 <= a.iterations <= U32_MAX && SafeSalt(p.encode(a.salt))
    ensures var nonce := clientNonce + serverNonce;
            var r := Replied(p, a.password, clientNonce, ServerFirst(nonce, p.encode(a.salt), a.iterations));
            (r.Success? && ServerAccepts(p, a, clientNonce, nonce, r.value)) <==> SafeNonce(nonce)
  {
    var nonce := clientNonce + serverNonce;
    var text := p.encode(a.salt);
    var first := ServerFirst(nonce, text, a.iterations);
    var r := Replied(p, a.password, clientNonce, first);
    ParseExact(nonce, text, a.iterations);
    if SafeNonce(nonce) {
      var auth := AuthMessage(p, clientNonce, first, nonce);
      var proof := Proof(p, Salted(p, a), auth);
      var head := FinalWithoutProof(p, nonce) + ",p=";
      assert r == Success(head + p.encode(proof));
      assert r.value[|head|..] == p.encode(proof);
      ProofOpens(p, Salted(p, a), auth);
    } else if r.Success? {
      UnsafeNonceShrinks(nonce, text, a.iterations);
      var c := Parse(first).value;
      var pre := "c=" + p.encode(p.bytes(GS2_HEADER)) + ",r=";
      var rest := r.value[|pre + c.nonce| + 1..];
      assert FinalWithoutProof(p, nonce) == pre + nonce;
      assert r.value == pre + c.nonce + "," + rest;
      NonceInHead(pre, nonce, c.nonce, rest);
    }
  }

  /** An unsafe nonce either spoils the challenge or comes out shorter. */
  lemma UnsafeNonceShrinks(nonce: string, text: string, iterations: nat)
    requires !SafeNonce(nonce) && SafeSalt(text)
    ensures var c := Parse(ServerFirst(nonce, text, iterations));
            c.Some? ==> !HasComma(nonce) && |c.value.nonce| < |nonce|
  {
    PartsOfServerFirst(nonce, text, iterations);
    CommaAfter('r', nonce);
    CommaAfter('s', text);
    SplitNoComma("r=" + nonce);
    SplitNoComma("s=" + text);
    RemovePrefix(nonce, 'r', '=');
    RemoveAllExact(nonce, 'r', '=');
  }

  /** The client then accepts the honest server's signature, and of all signatures only that one. */
  lemma FinishExact(p: Primitives, salted: Octets, auth: string, signature: Octets)
    requires Lawful(p)
    ensures Verifies(p, salted, auth, "v=" + p.encode(signature)) <==> signature == ServerSignature(p, salted, auth)
  {
    var m := "v=" + p.encode(signature);
    assert m[2..] == p.encode(signature);
  }

  /**
   * The whole exchange: with a safe nonce the honest server accepts the reply, and its own signature
   * passes against the salted password and the auth message that the client has stored; no other
   * signature does.
   */
  lemma ExchangeCompletes(p: Primitives, a: Account, clientNonce: string, serverNonce: string, signature: Octets)
    requires Lawful(p) && 1 <= a.iterations <= U32_MAX && SafeSalt(p.encode(a.salt))
    requires SafeNonce(clientNonce + serverNonce)
    ensures var nonce := clientNonce + serverNonce;
            var first := ServerFirst(nonce, p.encode(a.salt), a.iterations);
            var r := Replied(p, a.password, clientNonce, first);
            && r.Success? && ServerAccepts(p, a, clientNonce, nonce, r.value)
            && var c := Parse(first).value;
            var salted := Hi(p, p.normalize(a.password), p.decode(c.salt).value, AtLeastOne(c.iterations));
            var auth := AuthMessage(p, clientNonce, first, c.nonce);
            Verifies(p, salted, auth, "v=" + p.encode(signature)) <==>
            signature == ServerSignature(p, Salted(p, a), AuthMessage(p, clientNonce, first, nonce))
  {
    var nonce := clientNonce + serverNonce;
    var first := ServerFirst(nonce, p.encode(a.salt), a.iterations);
    ExchangeExact(p, a, clientNonce, serverNonce);
    ParseExact(nonce, p.encode(a.salt), a.iterations);
    FinishExact(p, Salted(p, a), AuthMessage(p, clientNonce, first, nonce), signature);
  }

  // ---------------------------------------------------------------- the nonce of the pooler

  const NONCE_LENGTH := 24

  /** A draw from 0x21..0x7e with the comma replaced by '~'. */
  function NonceChar(draw: nat): char
    requires 0x21 <= draw < 0x7e
  {
    if draw == 0x2c then '~' else draw as char
  }

  predicate Draws(draws: seq<nat>) {
    |draws| == NONCE_LENGTH && forall i :: 0 <= i < |draws| ==> 0x21 <= draws[i] < 0x7e
  }

  function NewNonce(draws: seq<nat>): string
    requires Draws(draws)
  {
    seq(|draws|, i requires 0 <= i < |draws| => NonceChar(draws[i]))
  }

  /** With a nonce of its own making the pooler fails exactly when "r=" turns up in the joint nonce. */
  lemma OwnNonceExact(p: Primitives, a: Account, draws: seq<nat>, serverNonce: string)
    requires Lawful(p) && 1 <= a.iterations <= U32_MAX && SafeSalt(p.encode(a.salt))
    requires Draws(draws) && !HasComma(serverNonce)
    ensures var own := NewNonce(draws);
            var nonce := own + serverNonce;
            var r := Replied(p, a.password, own, ServerFirst(nonce, p.encode(a.salt), a.iterations));
            (r.Success? && ServerAccepts(p, a, own, nonce, r.value)) <==> !Occurs(nonce, 'r', '=')
  {
    var own := NewNonce(draws);
    assert !HasComma(own) && !HasComma(own + serverNonce);
    ExchangeExact(p, a, own, serverNonce);
  }

  /** Such draws exist. */
  lemma OwnNonceCanFail(p: Primitives, a: Account, serverNonce: string)
    requires Lawful(p) && 1 <= a.iterations <= U32_MAX && SafeSalt(p.encode(a.salt))
    requires !HasComma(serverNonce)
    ensures var draws := seq(NONCE_LENGTH, i => if i == 0 then 0x72 else 0x3d);
            var own := NewNonce(draws);
            var nonce := own + serverNonce;
            var r := Replied(p, a.password, own, ServerFirst(nonce, p.encode(a.salt), a.iterations));
            !(r.Success? && ServerAccepts(p, a, own, nonce, r.value))
  {
    var draws: seq<nat> := seq(NONCE_LENGTH, i => if i == 0 then 0x72 else 0x3d);
    assert (NewNonce(draws) + serverNonce)[0] == 'r' && (NewNonce(draws) + serverNonce)[1] == '=';
    OwnNonceExact(p, a, draws, serverNonce);
  }
}
