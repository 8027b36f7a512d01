/**
 One direction of the record layer: internal/tls_hack/conn.go, RFC 5246 section 6.2.3.

 `Seal` and `Open` are the functions that `Record.Direction.Encrypt` and
 `Record.Direction.Decrypt` compute in place. Block ciphers, MACs and AEADs are parameters; CBC chaining,
 padding and nonces are spelled out.
 */
module HalfConn {
  import opened Bytes
  import opened Padding

  type Key = seq<octet>

  const TLS11 := 0x0302
  const HEADER_LEN := 5

  // ----- Cryptography, as far as it matters here

  datatype Crypto = Crypto(
    keystream: (Key, nat) -> octet,
    seal: (Key, seq<octet>, seq<octet>, seq<octet>) -> seq<octet>,
    open: (Key, seq<octet>, seq<octet>, seq<octet>) -> Option<seq<octet>>,
    overhead: nat,
    encryptBlock: (Key, seq<octet>) -> seq<octet>,
    decryptBlock: (Key, seq<octet>) -> seq<octet>,
    mac: (Key, seq<octet>) -> seq<octet>,
    macSize: Key -> nat)

  /** Decryption undoes encryption and lengths are as announced. */
  ghost predicate Sound(c: Crypto) {
    && (forall k, n, p, a :: c.open(k, n, c.seal(k, n, p, a), a) == Some(p))
    && (forall k, n, p, a :: |c.seal(k, n, p, a)| == |p| + c.overhead)
    && (forall k, b :: c.decryptBlock(k, c.encryptBlock(k, b)) == b)
    && (forall k, b :: |c.encryptBlock(k, b)| == |b|)
    && (forall k, b :: |c.decryptBlock(k, b)| == |b|)
    && (forall k, m :: |c.mac(k, m)| == c.macSize(k))
  }

  function Xor(a: seq<octet>, b: seq<octet>): (r: seq<octet>)
    requires |a| == |b|
    ensures |r| == |a|
  {
    seq(|a|, i requires 0 <= i < |a| => a[i] ^ b[i])
  }

  lemma XorTwice(a: seq<octet>, b: seq<octet>)
    requires |a| == |b|
    ensures Xor(Xor(a, b), b) == a
  {
    forall i | 0 <= i < |a| ensures Xor(Xor(a, b), b)[i] == a[i] {
      XorBit(a[i], b[i]);
    }
  }

  lemma XorBit(x: octet, y: octet)
    ensures (x ^ y) ^ y == x
  {
  }

  function Keystream(c: Crypto, key: Key, pos: nat, n: nat): (s: seq<octet>)
    ensures |s| == n
  {
    seq(n, i requires 0 <= i < n => c.keystream(key, pos + i))
  }

  /** `n` is a whole number of blocks. */
  predicate Whole(n: nat, blockSize: nat)
    requires blockSize >= 1
  {
    n == 0 || (n >= blockSize && Whole(n - blockSize, blockSize))
  }

  lemma {:induction false} WholeExactly(n: nat, blockSize: nat)
    requires blockSize >= 1
    ensures Whole(n, blockSize) <==> n % blockSize == 0
  {
    if n >= blockSize {
      WholeExactly(n - blockSize, blockSize);
      ModStep(n, blockSize);
    }
  }

  lemma ModStep(n: nat, b: nat)
    requires n >= b >= 1
    ensures (n - b) % b == n % b
  {
    var d := n / b - 1 - (n - b) / b;
    if d > 0 {
      AtLeast(b, d);
    } else if d < 0 {
      AtLeast(b, -d);
    }
    assert b * d == b * (n / b) - b - b * ((n - b) / b);
  }

  /** CBC: the ciphertext, and the block the next call chains on. */
  function CbcEncrypt(c: Crypto, key: Key, iv: seq<octet>, data: seq<octet>): (seq<octet>, seq<octet>)
    requires |iv| >= 1 && Sound(c)
    decreases |data|
  {
    var n := |iv|;
    if |data| < n then ([], iv)
    else
      var block := c.encryptBlock(key, Xor(data[..n], iv));
      var (rest, last) := CbcEncrypt(c, key, block, data[n..]);
      (block + rest, last)
  }

  function CbcDecrypt(c: Crypto, key: Key, iv: seq<octet>, data: seq<octet>): (seq<octet>, seq<octet>)
    requires |iv| >= 1 && Sound(c)
    decreases |data|
  {
    var n := |iv|;
    if |data| < n then ([], iv)
    else
      var (rest, last) := CbcDecrypt(c, key, data[..n], data[n..]);
      (Xor(c.decryptBlock(key, data[..n]), iv) + rest, last)
  }

  /** Chaining carries over: encrypting in two calls is encrypting in one. */
  lemma {:induction false} CbcAppend(c: Crypto, key: Key, iv: seq<octet>, a: seq<octet>, b: seq<octet>)
    requires |iv| >= 1 && Sound(c) && Whole(|a|, |iv|)
    ensures var (x, mid) := CbcEncrypt(c, key, iv, a);
            |mid| == |iv| &&
            var (y, last) := CbcEncrypt(c, key, mid, b);
            CbcEncrypt(c, key, iv, a + b) == (x + y, last)
    decreases |a|
  {
    if a == [] {
      assert a + b == b && [] + CbcEncrypt(c, key, iv, b).0 == CbcEncrypt(c, key, iv, b).0;
    } else {
      var n := |iv|;
      assert (a + b)[..n] == a[..n] && (a + b)[n..] == a[n..] + b;
      var block := c.encryptBlock(key, Xor(a[..n], iv));
      CbcAppend(c, key, block, a[n..], b);
      var (x, mid) := CbcEncrypt(c, key, block, a[n..]);
      assert block + (x + CbcEncrypt(c, key, mid, b).0) == (block + x) + CbcEncrypt(c, key, mid, b).0;
    }
  }

  /** CBC decryption undoes encryption and chains on the same block afterwards. */
  lemma {:induction false} CbcInverse(c: Crypto, key: Key, iv: seq<octet>, data: seq<octet>)
    requires |iv| >= 1 && Sound(c) && Whole(|data|, |iv|)
    ensures var (sealed, last) := CbcEncrypt(c, key, iv, data);
            && |sealed| == |data| && |last| == |iv|
            && CbcDecrypt(c, key, iv, sealed) == (data, last)
    decreases |data|
  {
    if data != [] {
      var n := |iv|;
      var block := c.encryptBlock(key, Xor(data[..n], iv));
      var (rest, last) := CbcEncrypt(c, key, block, data[n..]);
      CbcInverse(c, key, block, data[n..]);
      var sealed := block + rest;
      assert sealed[..n] == block && sealed[n..] == rest;
      XorTwice(data[..n], iv);
      assert data == data[..n] + data[n..];
    }
  }

  // ----- Sequence numbers

  /** The big-endian number after this one, or None when all bits are set. */
  function Increment(s: seq<octet>): (r: Option<seq<octet>>)
    ensures r.Some? ==> |r.value| == |s|
  {
    if s == [] then None
    else
      var init, last := s[..|s| - 1], s[|s| - 1];
      if last != 0xFF then Some(init + [last + 1])
      else
        match Increment(init)
        case None => None
        case Some(t) => Some(t + [0])
  }

  function BigEndian(s: seq<octet>): nat {
    if s == [] then 0 else BigEndian(s[..|s| - 1]) * 256 + s[|s| - 1] as nat
  }

  lemma NotLast(b: octet)
    requires b != 0xFF
    ensures b as nat < 255
  {
  }

  lemma BigEndianMore(init: seq<octet>, b: octet)
    ensures BigEndian(init + [b]) == BigEndian(init) * 256 + b as nat
  {
    assert (init + [b])[..|init|] == init;
  }

  /** incSeq adds one, and refuses exactly when every byte is 255. */
  lemma {:induction false} IncrementExact(s: seq<octet>)
    ensures Increment(s).Some? ==> BigEndian(Increment(s).value) == BigEndian(s) + 1
    ensures Increment(s) == None <==> forall b | b in s :: b == 0xFF
  {
    if s != [] {
      hide BigEndian;
      var init, last := s[..|s| - 1], s[|s| - 1];
      IncrementExact(init);
      assert s == init + [last] && last in s && forall b | b in init :: b in s;
      BigEndianMore(init, last);
      if last != 0xFF {
        NotLast(last);
        NextOctet(last);
        BigEndianMore(init, last + 1);
      } else if Increment(init).Some? {
        BigEndianMore(Increment(init).value, 0);
      }
    }
  }

  // ----- Records as values

  datatype Cipher =
    | Clear
    | Stream(key: Key, pos: nat)
    | Aead(key: Key, fixed: seq<octet>, explicitNonce: bool)
    | Cbc(key: Key, iv: seq<octet>)

  /** The state of one direction. */
  datatype Half = Half(version: nat, cipher: Cipher, mac: Option<Key>, seqNo: seq<octet>) {
    predicate Valid() {
      && |seqNo| == 8
      && (cipher.Cbc? ==> 1 <= |cipher.iv| <= 256)
      && (cipher.Aead? ==> |cipher.fixed| == 12 && mac == None)
      && (cipher.Cbc? ==> mac.Some?)
    }

    /** explicitNonceLen, or the block size from TLS 1.1 on. */
    function ExplicitLen(): nat {
      match cipher
      case Aead(_, _, explicitNonce) => if explicitNonce then 8 else 0
      case Cbc(_, iv) => if version >= TLS11 then |iv| else 0
      case _ => 0
    }
  }

  function Hi(n: nat): (b: octet)
    ensures Num(b) == n / 256 % 256
  {
    Octet(n / 256 % 256)
  }

  function Lo(n: nat): (b: octet)
    ensures Num(b) == n % 256
  {
    Octet(n % 256)
  }

  /** fixedNonceAEAD appends the nonce to its fixed part; xorNonceAEAD folds it into its mask. */
  function RealNonce(cipher: Cipher, nonce: seq<octet>): seq<octet>
    requires cipher.Aead? && |cipher.fixed| == 12 && |nonce| == 8
  {
    if cipher.explicitNonce then cipher.fixed[..4] + nonce
    else cipher.fixed[..4] + Xor(cipher.fixed[4..], nonce)
  }

  function MacOf(c: Crypto, h: Half, prefix: seq<octet>, data: seq<octet>): seq<octet> {
    match h.mac
    case None => []
    case Some(key) => c.mac(key, h.seqNo + prefix + [Hi(|data|), Lo(|data|)] + data)
  }

  function MacSize(c: Crypto, h: Half): nat {
    match h.mac
    case None => 0
    case Some(key) => c.macSize(key)
  }

  function AdditionalData(h: Half, prefix: seq<octet>, n: nat): seq<octet> {
    h.seqNo + prefix + [Hi(n), Lo(n)]
  }

  /** The protected body of a record and the cipher state afterwards. */
  function Protect(c: Crypto, h: Half, prefix: seq<octet>, explicitIV: seq<octet>, m: seq<octet>): (seq<octet>, Cipher)
    requires Sound(c) && h.Valid() && |explicitIV| == h.ExplicitLen()
  {
    match h.cipher
    case Clear => (explicitIV + m, h.cipher)
    case Stream(key, pos) =>
      (explicitIV + Xor(m, Keystream(c, key, pos, |m|)), Stream(key, pos + |m|))
    case Aead(key, _, _) =>
      var nonce := RealNonce(h.cipher, if explicitIV == [] then h.seqNo else explicitIV);
      (explicitIV + c.seal(key, nonce, m, AdditionalData(h, prefix, |m|)), h.cipher)
    case Cbc(key, iv) =>
      var (sealed, last) := CbcEncrypt(c, key, if explicitIV == [] then iv else explicitIV, Padded(m, |iv|));
      (explicitIV + sealed, Cbc(key, last))
  }

  /** encrypt: the record for `payload`, or None when the sequence number would wrap. */
  function Seal(c: Crypto, h: Half, prefix: seq<octet>, explicitIV: seq<octet>,
      payload: seq<octet>): Option<(seq<octet>, Half)>
    requires Sound(c) && h.Valid() && |prefix| == 3 && |explicitIV| == h.ExplicitLen()
  {
    var (body, cipher) := Protect(c, h, prefix, explicitIV, payload + MacOf(c, h, prefix, payload));
    match Increment(h.seqNo)
    case None => None
    case Some(next) => Some((prefix + [Hi(|body|), Lo(|body|)] + body, h.(cipher := cipher, seqNo := next)))
  }

  function RoundUp(a: nat, b: nat): nat
    requires b >= 1
  {
    a + (b - a % b) % b
  }

  /** The decrypted body, how much padding it ends in, and the cipher state; None is a bad record. */
  function Unprotect(c: Crypto, h: Half, prefix: seq<octet>, body: seq<octet>): Option<(seq<octet>, nat, Cipher)>
    requires Sound(c) && h.Valid()
  {
    match h.cipher
    case Clear => Some((body, 0, h.cipher))
    case Stream(key, pos) =>
      Some((Xor(body, Keystream(c, key, pos, |body|)), 0, Stream(key, pos + |body|)))
    case Aead(key, _, _) =>
      if |body| < h.ExplicitLen() then None
      else
        var nonce, sealed := body[..h.ExplicitLen()], body[h.ExplicitLen()..];
        if |sealed| < c.overhead then None
        else
          var m := c.open(key, RealNonce(h.cipher, if nonce == [] then h.seqNo else nonce), sealed,
                          AdditionalData(h, prefix, |sealed| - c.overhead));
          if m == None then None else Some((m.value, 0, h.cipher))
    case Cbc(key, iv) =>
      var n := |iv|;
      if |body| % n != 0 || |body| < RoundUp(h.ExplicitLen() + MacSize(c, h) + 1, n) then None
      else
        var start := if h.ExplicitLen() > 0 then body[..n] else iv;
        var (m, last) := CbcDecrypt(c, key, start, body[h.ExplicitLen()..]);
        if Accepted(m) then Some((m, PaddingLen(m) + 1, Cbc(key, last))) else None
  }

  /** decrypt: the payload of a record, or None for a bad record or a sequence number that would wrap. */
  function Open(c: Crypto, h: Half, record: seq<octet>): Option<(seq<octet>, Half)>
    requires Sound(c) && h.Valid() && |record| >= HEADER_LEN
  {
    match Unprotect(c, h, record[..3], record[HEADER_LEN..])
    case None => None
    case Some((m, padding, cipher)) =>
      if |m| < MacSize(c, h) then None
      else
        var n := if |m| - MacSize(c, h) - padding < 0 then 0 else |m| - MacSize(c, h) - padding;
        var payload := if h.mac == None then m else m[..n];
        if h.mac.Some? && MacOf(c, h, record[..3], payload) != m[n..n + MacSize(c, h)] then None
        else
          match Increment(h.seqNo)
          case None => None
          case Some(next) => Some((payload, h.(cipher := cipher, seqNo := next)))
  }

  // ----- What one side seals the other opens

  lemma RoundUpLeast(a: nat, b: nat, x: nat)
    requires b >= 1 && x >= a && x % b == 0
    ensures x >= RoundUp(a, b)
  {
    hide RoundUp;
    var r := a % b;
    RoundUpIs(a, b);
    if r != 0 {
      Euclid(x, b);
      Euclid(a, b);
      NextMultiple(b, x / b, a / b, r);
    }
  }

  lemma RoundUpIs(a: nat, b: nat)
    requires b >= 1
    ensures RoundUp(a, b) == if a % b == 0 then a else a - a % b + b
  {
    SmallMod(b - a % b, b);
  }

  lemma SmallMod(k: nat, b: nat)
    requires b >= 1 && k <= b
    ensures k % b == if k == b then 0 else k
  {
  }

  lemma Euclid(a: nat, b: nat)
    requires b >= 1
    ensures a == b * (a / b) + a % b
  {
  }

  /** A multiple of b that is not below b * q + r is at least b * q + b. */
  lemma NextMultiple(b: nat, p: nat, q: nat, r: nat)
    requires 0 < r < b && b * p >= b * q + r
    ensures b * p >= b * q + b
  {
    if p <= q {
      BelowMultiple(b, p, q);
    } else {
      BelowMultiple(b, q + 1, p);
      assert b * (q + 1) == b * q + b;
    }
  }

  lemma BelowMultiple(b: nat, p: nat, q: nat)
    requires p <= q
    ensures b * p <= b * q
  {
  }

  lemma AeadOpens(c: Crypto, h: Half, prefix: seq<octet>, explicitIV: seq<octet>, m: seq<octet>)
    requires Sound(c) && h.Valid() && h.cipher.Aead? && |explicitIV| == h.ExplicitLen()
    ensures Unprotect(c, h, prefix, Protect(c, h, prefix, explicitIV, m).0) == Some((m, 0, h.cipher))
    ensures Protect(c, h, prefix, explicitIV, m).1 == h.cipher
  {
    hide AdditionalData;
    var body := Protect(c, h, prefix, explicitIV, m).0;
    var k := |explicitIV|;
    assert body[..k] == explicitIV;
    var nonce := RealNonce(h.cipher, if explicitIV == [] then h.seqNo else explicitIV);
    assert body[k..] == c.seal(h.cipher.key, nonce, m, AdditionalData(h, prefix, |m|));
  }

  lemma StreamOpens(c: Crypto, h: Half, prefix: seq<octet>, m: seq<octet>)
    requires Sound(c) && h.Valid() && h.cipher.Stream?
    ensures var (body, cipher) := Protect(c, h, prefix, [], m);
            Unprotect(c, h, prefix, body) == Some((m, 0, cipher))
  {
    var keystream := Keystream(c, h.cipher.key, h.cipher.pos, |m|);
    XorTwice(m, keystream);
    assert Protect(c, h, prefix, [], m).0 == Xor(m, keystream);
  }

  lemma CbcBody(c: Crypto, h: Half, prefix: seq<octet>, explicitIV: seq<octet>, sealed: seq<octet>)
    requires Sound(c) && h.Valid() && h.cipher.Cbc? && |explicitIV| == h.ExplicitLen()
    requires |sealed| % |h.cipher.iv| == 0 && |sealed| >= MacSize(c, h) + 1
    requires var start := if explicitIV == [] then h.cipher.iv else explicitIV;
             Accepted(CbcDecrypt(c, h.cipher.key, start, sealed).0)
    ensures var start := if explicitIV == [] then h.cipher.iv else explicitIV;
            var (m, last) := CbcDecrypt(c, h.cipher.key, start, sealed);
            Unprotect(c, h, prefix, explicitIV + sealed) == Some((m, PaddingLen(m) + 1, Cbc(h.cipher.key, last)))
  {
    hide Accepted, PaddingLen, CbcDecrypt, RoundUp;
    var n := |h.cipher.iv|;
    var body := explicitIV + sealed;
    assert body[..|explicitIV|] == explicitIV && body[|explicitIV|..] == sealed;
    assert |body| % n == 0 by {
      if explicitIV != [] {
        ModStep(|body|, n);
      }
    }
    RoundUpLeast(h.ExplicitLen() + MacSize(c, h) + 1, n, |body|);
  }

  lemma CbcOpens(c: Crypto, h: Half, prefix: seq<octet>, explicitIV: seq<octet>, m: seq<octet>)
    requires Sound(c) && h.Valid() && h.cipher.Cbc? && |explicitIV| == h.ExplicitLen()
    requires |m| >= MacSize(c, h) && |m| + 256 <= 0x8000_0000
    ensures var (body, cipher) := Protect(c, h, prefix, explicitIV, m);
            var padded := Padded(m, |h.cipher.iv|);
            Unprotect(c, h, prefix, body) == Some((padded, PaddingLen(padded) + 1, cipher))
    ensures Protect(c, h, prefix, explicitIV, m).1.Cbc? && |Protect(c, h, prefix, explicitIV, m).1.iv| == |h.cipher.iv|
  {
    hide Accepted, Padded, Unprotect, MacSize, CbcDecrypt;
    var n := |h.cipher.iv|;
    var padded := Padded(m, n);
    var start := if explicitIV == [] then h.cipher.iv else explicitIV;
    PaddedAccepted(m, n);
    WholeExactly(|padded|, n);
    CbcInverse(c, h.cipher.key, start, padded);
    CbcBody(c, h, prefix, explicitIV, CbcEncrypt(c, h.cipher.key, start, padded).0);
  }

  /** A side in the same state opens what was sealed, gets the payload, and is in the same state again. */
  lemma SealOpens(c: Crypto, h: Half, prefix: seq<octet>, explicitIV: seq<octet>, payload: seq<octet>)
    requires Sound(c) && h.Valid() && |prefix| == 3 && |explicitIV| == h.ExplicitLen()
    requires |payload| + MacSize(c, h) + 256 <= 0x8000_0000
    ensures match Seal(c, h, prefix, explicitIV, payload)
            case None => Increment(h.seqNo) == None
            case Some((record, next)) =>
              && next.Valid() && |record| >= HEADER_LEN
              && Open(c, h, record) == Some((payload, next))
              && BigEndian(next.seqNo) == BigEndian(h.seqNo) + 1
  {
    hide Protect, Unprotect, BigEndian;
    IncrementExact(h.seqNo);
    var tag := MacOf(c, h, prefix, payload);
    var m := payload + tag;
    assert |tag| == MacSize(c, h);
    var (body, cipher) := Protect(c, h, prefix, explicitIV, m);
    ProtectOpens(c, h, prefix, explicitIV, m);
    if Increment(h.seqNo).Some? {
      var record := Seal(c, h, prefix, explicitIV, payload).value.0;
      assert record[..3] == prefix && record[HEADER_LEN..] == body;
      var (plain, padding, after) := Unprotect(c, h, prefix, body).value;
      assert plain[..|m|] == m;
      assert m[..|payload|] == payload && m[|payload|..] == tag;
      assert plain[..|payload|] == plain[..|m|][..|payload|];
      assert plain[|payload|..|m|] == plain[..|m|][|payload|..];
    }
  }

  lemma ProtectOpens(c: Crypto, h: Half, prefix: seq<octet>, explicitIV: seq<octet>, m: seq<octet>)
    requires Sound(c) && h.Valid() && |explicitIV| == h.ExplicitLen()
    requires |m| >= MacSize(c, h) && |m| + 256 <= 0x8000_0000
    ensures var (body, cipher) := Protect(c, h, prefix, explicitIV, m);
            && h.(cipher := cipher).Valid()
            && Unprotect(c, h, prefix, body).Some?
            && var (plain, padding, after) := Unprotect(c, h, prefix, body).value;
               && after == cipher
               && |plain| == |m| + padding && plain[..|m|] == m
               && (h.mac == None && !h.cipher.Cbc? ==> plain == m)
  {
    match h.cipher {
      case Clear => assert [] + m == m;
      case Stream(_, _) =>
        StreamOpens(c, h, prefix, m);
        assert explicitIV == [];
      case Aead(_, _, _) => AeadOpens(c, h, prefix, explicitIV, m);
      case Cbc(_, iv) =>
        CbcOpens(c, h, prefix, explicitIV, m);
        PaddedAccepted(m, |iv|);
    }
  }
}
