/**
 Numbers, key exchanges, tickets and NETCONF frames as they lie on the wire, read from the front and without the
 functions that wrote them.
 */
module WireForms {
  import opened Bytes
  import opened Encoding
  import C = ClientHello
  import K = KeyAgreement
  import T = Ticket
  import N = Netconf
  import S = Streamer

  // ----- Numbers

  function Power(base: nat, k: nat): nat {
    if k == 0 then 1 else base * Power(base, k - 1)
  }

  /** What digits stand for, the first one the highest; `zero` is the byte of the digit 0. */
  function Value(base: nat, zero: byte, s: Data): int {
    if s == [] then 0 else (s[0] as int - zero as int) * Power(base, |s| - 1) + Value(base, zero, s[1..])
  }

  lemma {:induction false} ValueLast(base: nat, zero: byte, s: Data, b: byte)
    ensures Value(base, zero, s + [b]) == Value(base, zero, s) * base + (b as int - zero as int)
  {
    hide Power;
    if s == [] {
      PowerNext(base, 0);
      assert (s + [b])[1..] == [];
    } else {
      assert (s + [b])[1..] == s[1..] + [b] && (s + [b])[0] == s[0];
      ValueLast(base, zero, s[1..], b);
      PowerNext(base, |s| - 1);
      Shifted(s[0] as int - zero as int, base, Power(base, |s| - 1), Value(base, zero, s[1..]));
    }
  }

  lemma PowerNext(base: nat, k: nat)
    ensures Power(base, 0) == 1 && Power(base, k + 1) == base * Power(base, k)
  {
  }

  lemma Shifted(d: int, base: nat, power: nat, v: int)
    ensures d * (base * power) + v * base == (d * power + v) * base
  {
  }

  lemma {:induction false} FromBytesIs(s: Data)
    ensures K.FromBytes(s) == Value(256, 0, s)
  {
    if s != [] {
      var init := s[..|s| - 1];
      FromBytesIs(init);
      ValueLast(256, 0, init, s[|s| - 1]);
      assert init + [s[|s| - 1]] == s;
    }
  }

  /** A number has one form without leading zeros. */
  lemma {:induction false} ToBytesIs(s: Data)
    requires s != [] ==> s[0] != 0
    ensures Value(256, 0, s) >= 0 && K.ToBytes(Value(256, 0, s)) == s
  {
    FromBytesIs(s);
    Minimal(s);
  }

  lemma {:induction false} Minimal(s: Data)
    requires s != [] ==> s[0] != 0
    ensures K.ToBytes(K.FromBytes(s)) == s
  {
    if s != [] {
      var init, last := s[..|s| - 1], s[|s| - 1];
      Minimal(init);
      assert init + [last] == s;
      if init == [] {
        assert s == [last] && K.FromBytes(init) == 0 && K.ToBytes(0) == [];
      }
      var n := K.FromBytes(s);
      assert n == K.FromBytes(init) * 256 + last && n / 256 == K.FromBytes(init) && n % 256 == last;
      assert n > 0;
    }
  }

  /** Words, lengths of messages and lengths of certificates have the high byte first. */
  lemma FixedWidths(n: nat, typ: byte)
    ensures n < 0x1_0000 ==> Value(256, 0, Word(n)) == n
    ensures n < 0x100_0000 ==> C.Header(typ, n)[0] == typ && Value(256, 0, C.Header(typ, n)[1..]) == n
    ensures n < 0x1_0000_0000 ==> Value(256, 0, T.Long(n)) == n
  {
    hide Power, Value;
    if n < 0x1_0000 {
      TwoDigits(Word(n));
    }
    if n < 0x100_0000 {
      ThreeDigits(C.Header(typ, n)[1..]);
    }
    if n < 0x1_0000_0000 {
      T.LongBack(n);
      FourDigits(T.Long(n));
    }
  }

  lemma Powers()
    ensures Power(256, 0) == 1 && Power(256, 1) == 256 && Power(256, 2) == 0x1_0000 && Power(256, 3) == 0x100_0000
  {
  }

  lemma TwoDigits(s: Data)
    requires |s| == 2
    ensures Value(256, 0, s) == 256 * (s[0] as int) + s[1] as int
  {
    Powers();
    assert s[1..][1..] == [] && s[1..][0] == s[1];
    assert Value(256, 0, s[1..]) == s[1] as int;
  }

  lemma ThreeDigits(s: Data)
    requires |s| == 3
    ensures Value(256, 0, s) == 0x1_0000 * (s[0] as int) + 256 * (s[1] as int) + s[2] as int
  {
    Powers();
    TwoDigits(s[1..]);
  }

  lemma FourDigits(s: Data)
    requires |s| == 4
    ensures Value(256, 0, s)
            == 0x100_0000 * (s[0] as int) + 0x1_0000 * (s[1] as int) + 256 * (s[2] as int) + s[3] as int
  {
    Powers();
    ThreeDigits(s[1..]);
  }

  // ----- The key exchange

  /** Bytes with their number in two bytes in front. */
  function Counted(s: Data): Data {
    [|s| / 256 % 256, |s| % 256] + s
  }

  /** The server sends group, generator and public key, each in its shortest form and counted. */
  lemma KeyExchangeIs(p: Data, g: Data, y: Data, x: nat)
    requires p != [] && p[0] != 0 && (g != [] ==> g[0] != 0) && (y != [] ==> y[0] != 0)
    requires Value(256, 0, p) >= 1 && Value(256, 0, g) >= 0
    requires Value(256, 0, y) == K.ModPow(Value(256, 0, g), x, Value(256, 0, p))
    ensures K.ServerMessage(K.Params(Value(256, 0, p), Value(256, 0, g)), x)
            == Counted(p) + Counted(g) + Counted(y)
  {
    hide Value, K.ToBytes, K.ModPow;
    ToBytesIs(p);
    ToBytesIs(g);
    ToBytesIs(y);
    assert Counted(p) + Counted(g) + Counted(y) == Counted(p) + (Counted(g) + Counted(y));
  }

  /** Square and multiply, as big.Int.Exp does it. */
  function Exp(b: nat, e: nat, p: nat): nat
    requires p >= 1
    decreases e
  {
    if e == 0 then 1 % p
    else
      var half := Exp(b * b % p, e / 2, p);
      if e % 2 == 0 then half else b * half % p
  }

  lemma {:induction false} ModPowIs(b: nat, e: nat, p: nat)
    requires p >= 1
    ensures K.ModPow(b, e, p) == Exp(b, e, p)
    decreases e
  {
    if e > 0 {
      var k := e / 2;
      ModPowIs(b * b % p, k, p);
      K.ReduceBase(b * b, k, p);
      Squares(b, k);
      if e % 2 == 1 {
        assert e == 2 * k + 1;
        var q := K.Pow(b, 2 * k);
        K.ReduceFactor(q, b, p);
        K.Commute(q % p, b);
        K.Commute(q, b);
      }
    }
  }

  lemma Squares(b: nat, k: nat)
    ensures K.Pow(b * b, k) == K.Pow(b, 2 * k)
  {
    assert K.Pow(b, 2) == b * K.Pow(b, 1) && K.Pow(b, 1) == b * K.Pow(b, 0);
    K.PowPow(b, 2, k);
  }

  /** A pre-shared key comes behind as many zeros, each counted. */
  lemma PresharedIs(psk: Data)
    ensures exists zeros ::
              |zeros| == |psk| && (forall b | b in zeros :: b == 0)
              && K.PskPremaster(psk) == Counted(zeros) + Counted(psk)
  {
    assert K.PskPremaster(psk) == Counted(Zeros(|psk|)) + Counted(psk);
  }

  // ----- Tickets

  /** A ticket is the name of the key, the IV, the encrypted session, and a MAC of all three. */
  lemma TicketIs(c: T.Crypto, key: T.Key, iv: Data, s: T.Session)
    requires |key.keyName| == 16
    ensures var front := key.keyName + iv + c.ctr(key.aesKey, iv, SessionBytes(s));
            T.Sealed(c, key, iv, s) == front + c.hmac(key.hmacKey, front)
  {
    hide T.Certificates, CertificateBytes;
    CertificatesAre(s.certificates);
    var (a, b) := ([s.vers / 256, s.vers % 256], [s.cipherSuite / 256, s.cipherSuite % 256]);
    assert [s.vers / 256, s.vers % 256, s.cipherSuite / 256, s.cipherSuite % 256] == a + b;
    var (n, cs) := (Word(|s.masterSecret|), T.Certificates(s.certificates));
    assert a + b + n + s.masterSecret == a + b + (n + s.masterSecret);
  }

  /** Version, suite, secret and certificates, these with four bytes for the length of each. */
  function SessionBytes(s: T.Session): Data {
    [s.vers / 256, s.vers % 256, s.cipherSuite / 256, s.cipherSuite % 256] + Counted(s.masterSecret)
    + [|s.certificates| / 256 % 256, |s.certificates| % 256] + CertificateBytes(s.certificates)
  }

  function CertificateBytes(cs: seq<Data>): Data {
    if cs == [] then []
    else
      var (init, c) := (cs[..|cs| - 1], cs[|cs| - 1]);
      CertificateBytes(init)
      + [|c| / 0x100_0000 % 256, |c| / 0x1_0000 % 256, |c| / 256 % 256, |c| % 256] + c
  }

  lemma {:induction false} CertificatesAre(cs: seq<Data>)
    ensures T.Certificates(cs) == CertificateBytes(cs)
  {
    if cs != [] {
      var (init, c) := (cs[..|cs| - 1], cs[|cs| - 1]);
      CertificatesAre(init);
      T.CertificatesAppend(init, c);
      assert init + [c] == cs;
    }
  }

  /**
   A ticket is taken exactly if it is long enough, its first 16 bytes name a key of the list, its last 32 bytes
   are the MAC of the others under the first such key, and what is between them decrypts to a session.
   */
  lemma TicketDecides(c: T.Crypto, keys: seq<T.Key>, d: Data, i: nat)
    requires |d| >= 64 && i < |keys| && keys[i].keyName == d[..16]
    requires forall j | 0 <= j < i :: keys[j].keyName != d[..16]
    ensures var plain := T.Decode(c.ctr(keys[i].aesKey, d[16..32], d[32..|d| - 32]));
            T.Opened(c, false, keys, d)
            == if d[|d| - 32..] == c.hmac(keys[i].hmacKey, d[..|d| - 32]) && plain.Some? then Some((plain.value, i > 0))
               else None
  {
    hide T.Decode;
    T.FindFirst(keys, d[..16]);
  }

  lemma TicketRefused(c: T.Crypto, keys: seq<T.Key>, d: Data)
    requires |d| < 64 || forall k | k in keys :: k.keyName != d[..16]
    ensures T.Opened(c, false, keys, d) == None
  {
    if |d| >= 64 {
      T.FindFirst(keys, d[..16]);
    }
  }

  // ----- NETCONF frames

  predicate DecimalDigits(s: Data) {
    forall b | b in s :: 0x30 <= b <= 0x39
  }

  lemma {:induction false} NumberIs(s: Data)
    requires DecimalDigits(s)
    ensures N.Number(s) == Value(10, 0x30, s)
  {
    if s != [] {
      var (init, last) := (s[..|s| - 1], s[|s| - 1]);
      assert last in s && forall b | b in init :: b in s;
      NumberIs(init);
      ValueLast(10, 0x30, init, last);
      assert init + [last] == s;
    }
  }

  /** A chunk is a line feed, '#', its length in decimal, a line feed and its bytes; the message ends in "\n##\n". */
  lemma FrameIs(data: Data)
    ensures exists size ::
              && N.Written(data) == [0x0A, 0x23] + size + [0x0A] + data + [0x0A, 0x23, 0x23, 0x0A]
              && size != [] && DecimalDigits(size) && Value(10, 0x30, size) == |data|
              && (data != [] ==> size[0] != 0x30)
  {
    hide N.Number, Value, N.Decimal;
    var size := N.Decimal(|data|);
    N.DecimalNumber(|data|);
    assert DecimalDigits(size) by {
      assert forall b | b in size :: N.IsDigit(b);
    }
    NumberIs(size);
    assert N.Written(data) == [0x0A, 0x23] + size + [0x0A] + data + [0x0A, 0x23, 0x23, 0x0A];
  }

  /** "\n#", the end mark '#' or a number without leading zeros, and a line feed. */
  predicate SizeLine(t: Data) {
    && |t| >= 4 && t[0] == 0x0A && t[1] == 0x23 && t[|t| - 1] == 0x0A
    && var size := t[2..|t| - 1]; size == [0x23] || (DecimalDigits(size) && size[0] != 0x30)
  }

  lemma {:induction false} DigitsStop(d: Data, i: nat, end: nat)
    requires i <= end < |d| && d[end] == 0x0A
    requires DecimalDigits(d[i..end])
    ensures N.DigitsEnd(d, i) == end
    decreases end - i
  {
    if i < end {
      var t := d[i..end];
      assert t[0] == d[i] && t[1..] == d[i + 1..end];
      assert d[i] in t && forall b | b in t[1..] :: b in t;
      DigitsStop(d, i + 1, end);
    }
  }

  lemma Inside(d: Data, i: nat, end: nat)
    requires i + 4 <= end <= |d|
    ensures d[i..end][2..end - i - 1] == d[i + 2..end - 1] && d[i..end][2] == d[i + 2]
  {
    var t := d[i..end];
    assert |t| == end - i && forall k | 0 <= k < |t| :: t[k] == d[i + k];
  }

  lemma LineMatches(d: Data, i: nat, end: nat)
    requires i + 4 <= end <= |d| && SizeLine(d[i..end])
    ensures N.MatchAt(d, i) == Some(end)
  {
    var t := d[i..end];
    var size := t[2..|t| - 1];
    Inside(d, i, end);
    assert t[0] == d[i] && t[1] == d[i + 1] && t[3] == d[i + 3] && t[|t| - 1] == d[end - 1];
    if size != [0x23] {
      assert d[i + 2] in size;
      DigitsStop(d, i + 2, end - 1);
    }
  }

  lemma MatchIsLine(d: Data, i: nat)
    requires N.MatchAt(d, i).Some?
    ensures SizeLine(d[i..N.MatchAt(d, i).value])
  {
    var end := N.MatchAt(d, i).value;
    var t := d[i..end];
    var size := t[2..|t| - 1];
    Inside(d, i, end);
    assert t[0] == d[i] && t[1] == d[i + 1] && t[3] == d[i + 3] && t[|t| - 1] == d[end - 1];
    if d[i + 2] != 0x23 {
      assert forall k | 0 <= k < |size| :: N.IsDigit(size[k]);
    }
  }

  lemma LineAt(d: Data, i: nat, end: nat)
    ensures N.MatchAt(d, i) == Some(end) <==> i + 4 <= end <= |d| && SizeLine(d[i..end])
  {
    hide N.MatchAt, SizeLine;
    if N.MatchAt(d, i).Some? {
      MatchIsLine(d, i);
    }
    if i + 4 <= end <= |d| && SizeLine(d[i..end]) {
      LineMatches(d, i, end);
    }
  }

  lemma LineShort(t: Data)
    ensures SizeLine(t) ==> |t| >= 4
  {
  }

  /** A size line that lies within the first 200 bytes. */
  predicate LineWithin(s: Data, i: nat, end: nat) {
    i <= end <= |s| && end <= 200 && SizeLine(s[i..end])
  }

  /** The first size line within the first 200 bytes is the one that is found. */
  lemma FirstLineFound(s: Data)
    ensures match N.SizeExpr(s)
            case None => forall k: nat, e: nat :: !LineWithin(s, k, e)
            case Some(m) => LineWithin(s, m.start, m.end) && forall k: nat, e: nat | k < m.start :: !LineWithin(s, k, e)
  {
    hide SizeLine, N.MatchAt, N.Leftmost;
    var d := if |s| > 200 then s[..200] else s;
    forall k: nat, e: nat ensures LineWithin(s, k, e) <==> N.MatchAt(d, k) == Some(e) {
      LineAt(d, k, e);
      if k <= e <= |d| {
        assert d[k..e] == s[k..e];
        LineShort(s[k..e]);
      }
    }
    LeftmostIs(d, 0);
  }

  lemma {:induction false} LeftmostIs(d: Data, i: nat)
    requires i <= |d|
    ensures match N.Leftmost(d, i)
            case None => forall k | i <= k < |d| :: N.MatchAt(d, k) == None
            case Some(m) => N.MatchAt(d, m.start) == Some(m.end) && i <= m.start
                            && forall k | i <= k < m.start :: N.MatchAt(d, k) == None
    decreases |d| - i
  {
    hide N.MatchAt;
    if i < |d| && N.MatchAt(d, i) == None {
      LeftmostIs(d, i + 1);
    }
  }

  /** A message is read as long as at most 2^30 bytes lie in front of each of its chunks. */
  lemma {:induction false} CapIs(buffered: nat, cs: seq<Data>)
    ensures N.Capped(buffered, cs) <==>
            forall i | 0 <= i < |cs| :: buffered + |Join(cs[..i])| <= 0x4000_0000
    decreases |cs|
  {
    if cs != [] {
      var rest := cs[1..];
      CapIs(buffered + |cs[0]|, rest);
      assert cs[..0] == [];
      forall i | 0 <= i < |rest| ensures |Join(cs[..i + 1])| == |cs[0]| + |Join(rest[..i])| {
        assert cs[..i + 1][1..] == rest[..i];
      }
      if forall i | 0 <= i < |cs| :: buffered + |Join(cs[..i])| <= 0x4000_0000 {
        assert buffered + |Join(cs[..0])| <= 0x4000_0000;
        forall i | 0 <= i < |rest| ensures buffered + |cs[0]| + |Join(rest[..i])| <= 0x4000_0000 {
          assert buffered + |Join(cs[..i + 1])| <= 0x4000_0000;
        }
      }
      if N.Capped(buffered, cs) {
        forall i | 0 <= i < |cs| ensures buffered + |Join(cs[..i])| <= 0x4000_0000 {
          if i > 0 {
            assert |Join(cs[..i - 1 + 1])| == |cs[0]| + |Join(rest[..i - 1])|;
          }
        }
      }
    }
  }
}
