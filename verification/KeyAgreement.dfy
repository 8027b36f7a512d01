/**
 Diffie-Hellman key agreement: internal/tls_hack/key_agreement.go and validateDhParams in tls.go,
 RFC 5246 section 8.1.2.
 */
module KeyAgreement {
  import opened Bytes
  import opened Encoding

  // ----- Big numbers as bytes

  /** big.Int.Bytes: big-endian, without leading zeros. */
  function ToBytes(n: nat): (s: Data)
    ensures n == 0 <==> s == []
    ensures s != [] ==> s[0] != 0
  {
    if n == 0 then [] else ToBytes(n / 256) + [n % 256]
  }

  /** big.Int.SetBytes */
  function FromBytes(s: Data): nat {
    if s == [] then 0 else FromBytes(s[..|s| - 1]) * 256 + s[|s| - 1]
  }

  lemma {:induction false} BytesBack(n: nat)
    ensures FromBytes(ToBytes(n)) == n
  {
    if n > 0 {
      BytesBack(n / 256);
      var s := ToBytes(n);
      assert s[..|s| - 1] == ToBytes(n / 256);
    }
  }

  /** Smaller numbers take no more bytes. */
  lemma {:induction false} BytesMonotone(a: nat, b: nat)
    requires a <= b
    ensures |ToBytes(a)| <= |ToBytes(b)|
  {
    if a > 0 {
      BytesMonotone(a / 256, b / 256);
    }
  }

  // ----- Powers

  function Pow(b: nat, e: nat): nat {
    if e == 0 then 1 else b * Pow(b, e - 1)
  }

  function ModPow(b: nat, e: nat, p: nat): (r: nat)
    requires p >= 1
    ensures r < p
  {
    Pow(b, e) % p
  }

  lemma Remainder(q: int, r: nat, p: nat)
    requires r < p
    ensures (q * p + r) % p == r
  {
    var x := q * p + r;
    var d := x / p - q;
    assert x == p * (x / p) + x % p;
    assert p * d == r - x % p;
    if d > 0 {
      Product(p, d);
    } else if d < 0 {
      NegativeProduct(p, d);
    }
  }

  lemma NegativeProduct(p: int, d: int)
    requires p >= 0 && d <= -1
    ensures p * d <= -p
  {
  }

  lemma Product(p: nat, d: int)
    requires d >= 1
    ensures p * d >= p
  {
  }

  lemma Euclid(a: nat, p: nat)
    requires p >= 1
    ensures a == a / p * p + a % p
  {
  }

  /** Numbers that differ by a multiple leave the same remainder. */
  lemma SameRemainder(x: nat, y: nat, k: nat, p: nat)
    requires p >= 1 && x == k * p + y
    ensures x % p == y % p
  {
    Euclid(y, p);
    Gather(k, y / p, p, y % p);
    Remainder(k + y / p, y % p, p);
  }

  /** A factor may be reduced first. */
  lemma ReduceFactor(a: nat, b: nat, p: nat)
    requires p >= 1
    ensures (a % p) * b % p == a * b % p
  {
    Euclid(a, p);
    Expand(a / p, p, a % p, b);
    SameRemainder(a * b, (a % p) * b, a / p * b, p);
  }

  lemma Expand(q: nat, p: nat, r: nat, b: nat)
    ensures (q * p + r) * b == (q * b) * p + r * b
  {
  }

  lemma Gather(x: nat, y: nat, p: nat, r: nat)
    ensures x * p + (y * p + r) == (x + y) * p + r
  {
  }

  /** A base may be reduced first. */
  lemma {:induction false} ReduceBase(b: nat, e: nat, p: nat)
    requires p >= 1
    ensures ModPow(b % p, e, p) == ModPow(b, e, p)
  {
    if e > 0 {
      ReduceBase(b, e - 1, p);
      var x, y := Pow(b % p, e - 1), Pow(b, e - 1);
      ReduceFactor(b, x, p);
      ReduceFactor(x, b, p);
      ReduceFactor(y, b, p);
      Commute(b, x);
      Commute(b, y);
    }
  }

  lemma Commute(a: nat, b: nat)
    ensures a * b == b * a
  {
  }

  lemma {:induction false} PowSum(b: nat, x: nat, y: nat)
    ensures Pow(b, x + y) == Pow(b, x) * Pow(b, y)
  {
    if x > 0 {
      PowSum(b, x - 1, y);
      Regroup(b, Pow(b, x - 1), Pow(b, y));
    }
  }

  lemma Regroup(a: nat, b: nat, c: nat)
    ensures a * (b * c) == (a * b) * c
  {
  }

  lemma {:induction false} PowPow(b: nat, x: nat, y: nat)
    ensures Pow(Pow(b, x), y) == Pow(b, x * y)
  {
    if y > 0 {
      PowPow(b, x, y - 1);
      Distribute(x, y);
      PowSum(b, x, x * (y - 1));
    }
  }

  lemma Distribute(x: nat, y: nat)
    requires y > 0
    ensures x + x * (y - 1) == x * y
  {
  }

  /** Either side may apply its secret first: (g^x mod p)^c mod p = (g^c mod p)^x mod p. */
  lemma SameSecret(g: nat, x: nat, c: nat, p: nat)
    requires p >= 1
    ensures ModPow(ModPow(g, x, p), c, p) == ModPow(ModPow(g, c, p), x, p)
  {
    ReduceBase(Pow(g, x), c, p);
    ReduceBase(Pow(g, c), x, p);
    PowPow(g, x, c);
    PowPow(g, c, x);
  }

  // ----- Messages

  function Chunk(s: Data): Data {
    Word(|s|) + s
  }

  /** parseUint16Chunk */
  function ParseChunk(d: Data): Option<(Data, Data)> {
    if |d| < 2 || |d| - 2 < ToWord(d[0], d[1]) then None
    else
      var n := ToWord(d[0], d[1]);
      Some((d[2..2 + n], d[2 + n..]))
  }

  lemma ChunkBack(s: Data, rest: Data)
    requires |s| < 0x1_0000
    ensures ParseChunk(Chunk(s) + rest) == Some((s, rest))
  {
    WordFront(|s|, s + rest);
    hide Word, ToWord;
    var d := Chunk(s) + rest;
    assert d == Word(|s|) + (s + rest);
    assert d[2..2 + |s|] == d[2..][..|s|] && d[2 + |s|..] == d[2..][|s|..];
  }

  datatype Params = Params(p: nat, g: nat)

  /** validateDhParams */
  predicate Validated(dhp: Params) {
    dhp.p % 2 == 1 && dhp.g > 1 && dhp.g < dhp.p - 1
  }

  /** What the server sends, given its secret. */
  function ServerMessage(dhp: Params, x: nat): Data
    requires dhp.p >= 1
  {
    Chunk(ToBytes(dhp.p)) + (Chunk(ToBytes(dhp.g)) + Chunk(ToBytes(ModPow(dhp.g, x, dhp.p))))
  }

  /** processServerKeyExchange: the parameters and the server's public key. */
  function ReadServerMessage(d: Data): Option<(Params, nat)> {
    match ParseChunk(d)
    case None => None
    case Some((p, rest)) =>
      match ParseChunk(rest)
      case None => None
      case Some((g, rest2)) =>
        match ParseChunk(rest2)
        case None => None
        case Some((y, rest3)) =>
          var dhp := Params(FromBytes(p), FromBytes(g));
          if rest3 != [] || |p| < 128 || !Validated(dhp) || FromBytes(y) == 0 then None else Some((dhp, FromBytes(y)))
  }

  /** generateClientKeyExchange: premaster secret and message, given the client's secret. */
  function ClientMessage(dhp: Params, ys: nat, c: nat): Option<(Data, Data)>
    requires dhp.p >= 1
  {
    if ys <= 1 || ys >= dhp.p - 1 then None
    else Some((ToBytes(ModPow(ys, c, dhp.p)), Chunk(ToBytes(ModPow(dhp.g, c, dhp.p)))))
  }

  /** processClientKeyExchange: the server's premaster secret. */
  function ReadClientMessage(dhp: Params, x: nat, d: Data): Option<Data>
    requires dhp.p >= 1
  {
    match ParseChunk(d)
    case None => None
    case Some((y, rest)) =>
      if rest != [] || FromBytes(y) <= 1 || FromBytes(y) >= dhp.p - 1 then None
      else Some(ToBytes(ModPow(FromBytes(y), x, dhp.p)))
  }

  predicate Fits(dhp: Params) {
    dhp.p >= 1 && |ToBytes(dhp.p)| < 0x1_0000 && |ToBytes(dhp.g)| < 0x1_0000
  }

  /** The client recovers exactly what the server packed, and accepts it exactly when it is valid. */
  lemma ParamsArrive(dhp: Params, x: nat)
    requires Fits(dhp)
    ensures var y := ModPow(dhp.g, x, dhp.p);
            ReadServerMessage(ServerMessage(dhp, x))
            == if |ToBytes(dhp.p)| >= 128 && dhp.p % 2 == 1 && 1 < dhp.g < dhp.p - 1 && y != 0 then Some((dhp, y))
               else None
  {
    hide ToBytes, FromBytes, Chunk, ParseChunk, ModPow;
    var y := ModPow(dhp.g, x, dhp.p);
    BytesMonotone(y, dhp.p);
    BytesBack(dhp.p);
    BytesBack(dhp.g);
    BytesBack(y);
    ChunkBack(ToBytes(dhp.p), Chunk(ToBytes(dhp.g)) + Chunk(ToBytes(y)));
    ChunkBack(ToBytes(dhp.g), Chunk(ToBytes(y)));
    ChunkBack(ToBytes(y), []);
    assert Chunk(ToBytes(y)) + [] == Chunk(ToBytes(y));
  }

  /** When both sides accept what they get, their premaster secrets are the same bytes. */
  lemma SecretsAgree(dhp: Params, x: nat, c: nat)
    requires Fits(dhp)
    ensures var y := ModPow(dhp.g, x, dhp.p);
            var m := ClientMessage(dhp, y, c);
            var k := ModPow(dhp.g, c, dhp.p);
            m.Some? ==>
              ReadClientMessage(dhp, x, m.value.1) == if 1 < k < dhp.p - 1 then Some(m.value.0) else None
  {
    hide ToBytes, FromBytes, Chunk, ParseChunk, ModPow;
    var k := ModPow(dhp.g, c, dhp.p);
    BytesMonotone(k, dhp.p);
    BytesBack(k);
    SameSecret(dhp.g, x, c, dhp.p);
    ChunkBack(ToBytes(k), []);
    assert Chunk(ToBytes(k)) + [] == Chunk(ToBytes(k));
  }

  /** What both sides end up with in a joint exchange; None when one of them refuses. */
  function Exchange(dhp: Params, x: nat, c: nat): Option<(Data, Data)>
    requires dhp.p >= 1
  {
    match ReadServerMessage(ServerMessage(dhp, x))
    case None => None
    case Some((seen, ys)) =>
      if seen.p == 0 then None
      else
        match ClientMessage(seen, ys, c)
        case None => None
        case Some((mine, message)) =>
          match ReadClientMessage(dhp, x, message)
          case None => None
          case Some(theirs) => Some((mine, theirs))
  }

  /**
   The exchange succeeds exactly for valid parameters and public keys within bounds, and then both
   sides hold the same secret.
   */
  lemma ExchangeAgrees(dhp: Params, x: nat, c: nat)
    requires Fits(dhp)
    ensures var y, k := ModPow(dhp.g, x, dhp.p), ModPow(dhp.g, c, dhp.p);
            && (Exchange(dhp, x, c).Some? <==>
                 && |ToBytes(dhp.p)| >= 128 && dhp.p % 2 == 1 && 1 < dhp.g < dhp.p - 1
                 && 1 < y < dhp.p - 1 && 1 < k < dhp.p - 1)
            && (Exchange(dhp, x, c).Some? ==> Exchange(dhp, x, c).value.0 == Exchange(dhp, x, c).value.1)
  {
    hide ServerMessage, ReadServerMessage, ReadClientMessage, ModPow, ToBytes, Chunk;
    ParamsArrive(dhp, x);
    SecretsAgree(dhp, x, c);
  }

  // ----- The agreement as the source runs it

  /** The first draw that is positive below `max`. */
  function FirstPositive(draws: seq<nat>, max: nat): (r: Option<nat>)
    requires max >= 1
    ensures r == None <==> forall i | 0 <= i < |draws| :: draws[i] % max == 0
    ensures r.Some? ==> 0 < r.value < max
  {
    if draws == [] then None
    else if draws[0] % max != 0 then Some(draws[0] % max)
    else FirstPositive(draws[1..], max)
  }

  class DheKeyAgreement {
    /** Kept by the client. */
    var dhp: Params
    var ys: nat
    /** Kept by the server. */
    var x: nat

    constructor ()
      ensures dhp == Params(0, 0) && ys == 0 && x == 0
    {
      dhp, ys, x := Params(0, 0), 0, 0;
    }

    /** rand.Int is drawn until it is positive; None when the draws run out first. */
    static method Secret(draws: seq<nat>, max: nat) returns (x: Option<nat>)
      requires max >= 1
      ensures x == FirstPositive(draws, max)
    {
      var i := 0;
      assert draws[0..] == draws;
      while i < |draws|
        invariant 0 <= i <= |draws| && FirstPositive(draws, max) == FirstPositive(draws[i..], max)
      {
        if draws[i] % max > 0 {
          return Some(draws[i] % max);
        }
        assert draws[i..][1..] == draws[i + 1..];
        i := i + 1;
      }
      return None;
    }

    method GenerateServerKeyExchange(config: Params, draws: seq<nat>) returns (r: Option<Data>)
      requires config.p >= 2
      modifies this`x
      ensures match FirstPositive(draws, config.p - 1)
              case None => r == None && x == old(x)
              case Some(secret) => x == secret && r == Some(ServerMessage(config, secret))
    {
      hide Cursor.Valid, ToBytes, ModPow, Word, FirstPositive;
      var pBytes, gBytes := ToBytes(config.p), ToBytes(config.g);
      var secret := Secret(draws, config.p - 1);
      if secret == None {
        return None;
      }
      x := secret.value;
      var pubKeyBytes := ToBytes(ModPow(config.g, x, config.p));
      var out := new Cursor(2 + |pBytes| + 2 + |gBytes| + 2 + |pubKeyBytes|);
      out.Put(Word(|pBytes|));
      out.Put(pBytes);
      out.Put(Word(|gBytes|));
      out.Put(gBytes);
      out.Put(Word(|pubKeyBytes|));
      out.Put(pubKeyBytes);
      var key := out.Bytes();
      Packed(pBytes, gBytes, pubKeyBytes);
      assert key == out.text + Zeros(0) == out.text;
      r := Some(key);
    }

    method ProcessServerKeyExchange(skx: Data) returns (ok: bool)
      modifies this`dhp, this`ys
      ensures ok == ReadServerMessage(skx).Some? && (ok ==> (dhp, ys) == ReadServerMessage(skx).value)
    {
      hide FromBytes, ParseChunk;
      var first := ParseChunk(skx);
      if first == None {
        return false;
      }
      var (serverP, rest) := first.value;
      var second := ParseChunk(rest);
      if second == None {
        return false;
      }
      var (serverG, rest2) := second.value;
      var third := ParseChunk(rest2);
      if third == None {
        return false;
      }
      var (serverPubKey, rest3) := third.value;
      if |rest3| != 0 || |serverP| < 128 {
        return false;
      }
      dhp := Params(FromBytes(serverP), FromBytes(serverG));
      if !Validated(dhp) {
        return false;
      }
      ys := FromBytes(serverPubKey);
      ok := ys != 0;
    }

    method GenerateClientKeyExchange(draws: seq<nat>) returns (r: Option<(Data, Data)>)
      requires dhp.p >= 2
      ensures match FirstPositive(draws, dhp.p - 1)
              case None => r == None
              case Some(secret) => r == ClientMessage(dhp, ys, secret)
    {
      hide ToBytes, ModPow, Cursor.Valid, Word, FirstPositive;
      var drawn := Secret(draws, dhp.p - 1);
      if drawn == None {
        return None;
      }
      var secret := drawn.value;
      var xBytes := ToBytes(ModPow(dhp.g, secret, dhp.p));
      if ys <= 1 || ys >= dhp.p - 1 {
        return None;
      }
      var preMasterSecret := ToBytes(ModPow(ys, secret, dhp.p));
      var out := new Cursor(2 + |xBytes|);
      out.Put(Word(|xBytes|));
      out.Put(xBytes);
      var ciphertext := out.Bytes();
      assert ciphertext == out.text + Zeros(0) == Chunk(xBytes);
      return Some((preMasterSecret, ciphertext));
    }

    method ProcessClientKeyExchange(config: Params, ckx: Data) returns (r: Option<Data>)
      requires config.p >= 1
      ensures r == ReadClientMessage(config, x, ckx)
    {
      hide FromBytes, ParseChunk, ToBytes, ModPow;
      var chunk := ParseChunk(ckx);
      if chunk == None {
        return None;
      }
      var (clientPubKeyBytes, rest) := chunk.value;
      if |rest| != 0 {
        return None;
      }
      var clientPubKey := FromBytes(clientPubKeyBytes);
      if clientPubKey <= 1 || clientPubKey >= config.p - 1 {
        return None;
      }
      r := Some(ToBytes(ModPow(clientPubKey, x, config.p)));
    }
  }

  lemma Packed(a: Data, b: Data, c: Data)
    ensures [] + Word(|a|) + a + Word(|b|) + b + Word(|c|) + c == Chunk(a) + (Chunk(b) + Chunk(c))
  {
    hide Word;
  }

  // ----- Pre-shared keys

  /**
   pskKeyAgreement: a null-filled secret as long as the key, then the key, each with its length (RFC
   4279 section 2).
   */
  function PskPremaster(psk: Data): Data {
    Chunk(Zeros(|psk|)) + Chunk(psk)
  }

  /** The premaster secret as both sides fill it in. */
  method FillPskPremaster(psk: Data) returns (preMasterSecret: Data)
    ensures preMasterSecret == PskPremaster(psk)
  {
    hide Cursor.Valid;
    var lenPsk := |psk|;
    var out := new Cursor(2 * lenPsk + 4);
    out.Put(Word(lenPsk));
    out.Skip(lenPsk);
    out.Put(Word(lenPsk));
    out.Put(psk);
    preMasterSecret := out.Bytes();
    hide Word, Zeros;
    assert preMasterSecret == Word(lenPsk) + Zeros(lenPsk) + Word(lenPsk) + psk + Zeros(0);
    assert preMasterSecret == (Word(lenPsk) + Zeros(lenPsk)) + (Word(lenPsk) + psk);
  }

  /** Different keys of the lengths that fit give different premaster secrets. */
  lemma PskInjective(a: Data, b: Data)
    requires |a| < 0x1_0000 && |b| < 0x1_0000 && PskPremaster(a) == PskPremaster(b)
    ensures a == b
  {
    ChunkBack(Zeros(|a|), Chunk(a));
    ChunkBack(Zeros(|b|), Chunk(b));
    ChunkBack(a, []);
    ChunkBack(b, []);
    hide ParseChunk, Chunk;
    assert Chunk(a) + [] == Chunk(a) && Chunk(b) + [] == Chunk(b);
  }
}
