/**
 What the record layer protects, with the bytes written out as in RFC 5246, sections 6.2.3.1 to 6.2.3.3, and
 what becomes of a record that comes at another place or under another header than it was made for.
 */
module Authenticated {
  import opened Bytes
  import opened Padding
  import opened HalfConn

  /** The length of a payload in two bytes. */
  function Length(n: nat): (s: seq<octet>)
    ensures |s| == 2 && Num(s[0]) == n / 256 % 256 && Num(s[1]) == n % 256
  {
    [Hi(n), Lo(n)]
  }

  /** Sequence number, type and version, length, payload. */
  function Covered(number: seq<octet>, prefix: seq<octet>, m: seq<octet>): seq<octet> {
    number + prefix + Length(|m|) + m
  }

  function Tag(c: Crypto, h: Half, number: seq<octet>, prefix: seq<octet>, m: seq<octet>): seq<octet> {
    if h.mac.Some? then c.mac(h.mac.value, Covered(number, prefix, m)) else []
  }

  lemma TagIs(c: Crypto, h: Half, prefix: seq<octet>, m: seq<octet>)
    ensures MacOf(c, h, prefix, m) == Tag(c, h, h.seqNo, prefix, m)
  {
    hide Hi, Lo;
  }

  /** The nonce of an AEAD: four fixed bytes, then eight bytes that come with the record or hide its number. */
  function Nonce(cipher: Cipher, number: seq<octet>, iv: seq<octet>): (s: seq<octet>)
    requires cipher.Aead? && |cipher.fixed| == 12 && |number| == 8 && |iv| == if cipher.explicitNonce then 8 else 0
  {
    cipher.fixed[..4] + if cipher.explicitNonce then iv
                        else seq(8, i requires 0 <= i < 8 => cipher.fixed[4 + i] ^ number[i])
  }

  lemma NonceIs(cipher: Cipher, number: seq<octet>, iv: seq<octet>)
    requires cipher.Aead? && |cipher.fixed| == 12 && |number| == 8 && |iv| == if cipher.explicitNonce then 8 else 0
    ensures RealNonce(cipher, if iv == [] then number else iv) == Nonce(cipher, number, iv)
  {
    if !cipher.explicitNonce {
      assert Xor(cipher.fixed[4..], number) == seq(8, i requires 0 <= i < 8 => cipher.fixed[4 + i] ^ number[i]);
    }
  }

  lemma NonceByte(cipher: Cipher, s: seq<octet>, i: nat)
    requires cipher.Aead? && |cipher.fixed| == 12 && |s| == 8 && i < 8
    ensures |RealNonce(cipher, s)| == 12
    ensures RealNonce(cipher, s)[4 + i] == if cipher.explicitNonce then s[i] else cipher.fixed[4 + i] ^ s[i]
  {
    assert cipher.fixed[4..][i] == cipher.fixed[4 + i];
  }

  /** Different numbers never share a nonce. */
  lemma NoncesDiffer(cipher: Cipher, s: seq<octet>, t: seq<octet>)
    requires cipher.Aead? && |cipher.fixed| == 12 && |s| == |t| == 8 && s != t
    ensures RealNonce(cipher, s) != RealNonce(cipher, t)
  {
    hide RealNonce;
    var i :| 0 <= i < 8 && s[i] != t[i];
    NonceByte(cipher, s, i);
    NonceByte(cipher, t, i);
    XorDiffers(cipher.fixed[4 + i], s[i], t[i]);
  }

  lemma XorDiffers(f: octet, x: octet, y: octet)
    requires x != y
    ensures f ^ x != f ^ y
  {
  }

  // ----- What is sealed

  /** The body that a cipher makes of payload and MAC; a block cipher pads with bytes that tell their number. */
  ghost predicate BodyOf(c: Crypto, h: Half, prefix: seq<octet>, iv: seq<octet>, m: seq<octet>, tag: seq<octet>,
      body: seq<octet>)
    requires Sound(c) && h.Valid() && |iv| == h.ExplicitLen()
  {
    var plain := m + tag;
    match h.cipher
    case Clear => body == plain
    case Stream(key, pos) =>
      |body| == |plain| && forall i | 0 <= i < |plain| :: body[i] == plain[i] ^ c.keystream(key, pos + i)
    case Aead(key, _, _) => body == iv + c.seal(key, Nonce(h.cipher, h.seqNo, iv), m, h.seqNo + prefix + Length(|m|))
    case Cbc(key, last) =>
      var (n, chain) := (|last|, if h.version >= 0x0302 then iv else last);
      var k := n - |plain| % n;
      && 1 <= k <= 256 && |chain| == n
      && body == iv + CbcEncrypt(c, key, chain, plain + Copies(k, Octet(k - 1))).0
  }

  lemma StreamBody(c: Crypto, h: Half, prefix: seq<octet>, m: seq<octet>, tag: seq<octet>)
    requires Sound(c) && h.Valid() && h.cipher.Stream?
    ensures BodyOf(c, h, prefix, [], m, tag, Protect(c, h, prefix, [], m + tag).0)
  {
    hide Sound;
    var plain := m + tag;
    var body := Xor(plain, Keystream(c, h.cipher.key, h.cipher.pos, |plain|));
    assert Protect(c, h, prefix, [], plain).0 == body;
  }

  lemma AeadBody(c: Crypto, h: Half, prefix: seq<octet>, iv: seq<octet>, m: seq<octet>)
    requires Sound(c) && h.Valid() && h.cipher.Aead? && |iv| == h.ExplicitLen()
    ensures BodyOf(c, h, prefix, iv, m, [], Protect(c, h, prefix, iv, m).0)
  {
    hide Sound, Hi, Lo, RealNonce, Nonce;
    NonceIs(h.cipher, h.seqNo, iv);
  }

  lemma CbcBodyIs(c: Crypto, h: Half, prefix: seq<octet>, iv: seq<octet>, m: seq<octet>, tag: seq<octet>)
    requires Sound(c) && h.Valid() && h.cipher.Cbc? && |iv| == h.ExplicitLen()
    ensures BodyOf(c, h, prefix, iv, m, tag, Protect(c, h, prefix, iv, m + tag).0)
  {
    hide Sound, CbcEncrypt, Octet;
  }

  lemma ProtectIs(c: Crypto, h: Half, prefix: seq<octet>, iv: seq<octet>, m: seq<octet>, tag: seq<octet>)
    requires Sound(c) && h.Valid() && |iv| == h.ExplicitLen() && (h.cipher.Aead? ==> tag == [])
    ensures BodyOf(c, h, prefix, iv, m, tag, Protect(c, h, prefix, iv, m + tag).0)
  {
    hide Sound, CbcEncrypt, Octet, RealNonce, Nonce, Keystream, Xor;
    match h.cipher {
      case Clear => assert iv + (m + tag) == m + tag;
      case Stream(_, _) =>
        assert iv == [];
        StreamBody(c, h, prefix, m, tag);
      case Aead(_, _, _) =>
        assert m + tag == m;
        AeadBody(c, h, prefix, iv, m);
      case Cbc(_, _) => CbcBodyIs(c, h, prefix, iv, m, tag);
    }
  }

  /** A record is a header and such a body, with the MAC over number, header and payload. */
  lemma SealedIs(c: Crypto, h: Half, prefix: seq<octet>, iv: seq<octet>, m: seq<octet>)
    requires Sound(c) && h.Valid() && |prefix| == 3 && |iv| == h.ExplicitLen()
    requires Seal(c, h, prefix, iv, m).Some?
    ensures var record := Seal(c, h, prefix, iv, m).value.0;
            && |record| >= 5 && record[..3] == prefix && record[3..5] == Length(|record| - 5)
            && BodyOf(c, h, prefix, iv, m, Tag(c, h, h.seqNo, prefix, m), record[5..])
  {
    hide Sound, Protect, Increment, MacOf, BodyOf, Hi, Lo, Covered;
    TagIs(c, h, prefix, m);
    ProtectIs(c, h, prefix, iv, m, Tag(c, h, h.seqNo, prefix, m));
    var record := Seal(c, h, prefix, iv, m).value.0;
    var body := Protect(c, h, prefix, iv, m + MacOf(c, h, prefix, m)).0;
    assert record[5..] == body && record[3..5] == [Hi(|body|), Lo(|body|)];
  }

  /** Each block is encrypted after the one before it has been folded into it. */
  lemma {:induction false} CbcChains(c: Crypto, key: Key, iv: seq<octet>, a: seq<octet>, x: seq<octet>, b: seq<octet>)
    requires Sound(c) && |iv| >= 1 && Whole(|a|, |iv|) && |x| == |iv|
    ensures var sealed := CbcEncrypt(c, key, iv, a + x + b).0;
            var n := |a|;
            && |sealed| >= n + |x| && (n == 0 || n >= |x|)
            && sealed[n..n + |x|]
               == c.encryptBlock(key, Xor(x, if n == 0 then iv else sealed[n - |x|..n]))
    decreases |a|
  {
    hide Sound, Xor;
    var n, all := |iv|, a + x + b;
    var block := c.encryptBlock(key, Xor(all[..n], iv));
    BlockLength(c, key, Xor(all[..n], iv));
    var rest := CbcEncrypt(c, key, block, all[n..]).0;
    assert CbcEncrypt(c, key, iv, all).0 == block + rest;
    if a == [] {
      assert all[..n] == x;
    } else {
      assert all[..n] == a[..n] && all[n..] == a[n..] + x + b;
      CbcChains(c, key, block, a[n..], x, b);
      var m := |a| - n;
      assert (block + rest)[|a|..|a| + n] == rest[m..m + n];
      assert m > 0 ==> (block + rest)[|a| - n..|a|] == rest[m - n..m];
      assert m == 0 ==> (block + rest)[|a| - n..|a|] == block;
    }
  }

  /** A CBC encryption of at least one block leaves its last block to chain on. */
  lemma {:induction false} CbcLeaves(c: Crypto, key: Key, iv: seq<octet>, data: seq<octet>)
    requires Sound(c) && |iv| >= 1 && Whole(|data|, |iv|) && data != []
    ensures var (sealed, last) := CbcEncrypt(c, key, iv, data);
            |sealed| >= |iv| && last == sealed[|sealed| - |iv|..]
    decreases |data|
  {
    hide Sound;
    var n := |iv|;
    var block := c.encryptBlock(key, Xor(data[..n], iv));
    BlockLength(c, key, Xor(data[..n], iv));
    var (rest, last) := CbcEncrypt(c, key, block, data[n..]);
    if data[n..] == [] {
      assert rest == [] && block + rest == block;
    } else {
      CbcLeaves(c, key, block, data[n..]);
      assert (block + rest)[|block + rest| - n..] == rest[|rest| - n..];
    }
  }

  /** What a cipher goes on from, told by the body it has made. */
  predicate Leaves(cipher: Cipher, body: seq<octet>, after: Cipher) {
    match cipher
    case Stream(key, pos) => after == Stream(key, pos + |body|)
    case Cbc(key, last) => |body| >= |last| && after == Cbc(key, body[|body| - |last|..])
    case _ => after == cipher
  }

  lemma ProtectLeaves(c: Crypto, h: Half, prefix: seq<octet>, iv: seq<octet>, m: seq<octet>)
    requires Sound(c) && h.Valid() && |iv| == h.ExplicitLen()
    ensures var (body, after) := Protect(c, h, prefix, iv, m); Leaves(h.cipher, body, after)
  {
    hide Sound, CbcEncrypt, Keystream, Xor, RealNonce, Padded, Whole;
    if h.cipher.Cbc? {
      var n := |h.cipher.iv|;
      var (chain, padded) := (if iv == [] then h.cipher.iv else iv, Padded(m, n));
      WholeExactly(|padded|, n);
      CbcLeaves(c, h.cipher.key, chain, padded);
      var sealed := CbcEncrypt(c, h.cipher.key, chain, padded).0;
      assert (iv + sealed)[|iv + sealed| - n..] == sealed[|sealed| - n..];
    } else if h.cipher.Stream? {
      assert iv == [];
    }
  }

  /**
   What the next record goes on from: the number after this one, the keystream behind what this one used, and
   the last block of this one.
   */
  lemma NextRecordFrom(c: Crypto, h: Half, prefix: seq<octet>, iv: seq<octet>, m: seq<octet>)
    requires Sound(c) && h.Valid() && |prefix| == 3 && |iv| == h.ExplicitLen()
    requires Seal(c, h, prefix, iv, m).Some?
    ensures var (record, after) := Seal(c, h, prefix, iv, m).value;
            && after == h.(cipher := after.cipher, seqNo := after.seqNo)
            && BigEndian(after.seqNo) == BigEndian(h.seqNo) + 1
            && |record| >= 5 && Leaves(h.cipher, record[5..], after.cipher)
  {
    hide Sound, Increment, MacOf, BigEndian, Protect, Leaves;
    IncrementExact(h.seqNo);
    var body := Protect(c, h, prefix, iv, m + MacOf(c, h, prefix, m)).0;
    ProtectLeaves(c, h, prefix, iv, m + MacOf(c, h, prefix, m));
    assert Seal(c, h, prefix, iv, m).value.0[5..] == body;
  }

  lemma BlockLength(c: Crypto, key: Key, b: seq<octet>)
    requires Sound(c)
    ensures |c.encryptBlock(key, b)| == |b|
  {
  }

  // ----- At another place

  /** The record with another type and version in its header. */
  function Under(prefix: seq<octet>, record: seq<octet>): seq<octet>
    requires |record| >= 5
  {
    prefix + record[3..]
  }

  /** What a cipher without additional data gives back does not depend on number and header. */
  lemma UnprotectAnywhere(c: Crypto, h: Half, number: seq<octet>, a: seq<octet>, b: seq<octet>, body: seq<octet>)
    requires Sound(c) && h.Valid() && |number| == 8 && !h.cipher.Aead?
    ensures Unprotect(c, h.(seqNo := number), a, body) == Unprotect(c, h, b, body)
  {
    hide Sound, CbcDecrypt, RoundUp, Accepted, PaddingLen, Keystream, Xor;
  }

  lemma MacSized(c: Crypto, h: Half, prefix: seq<octet>, m: seq<octet>)
    requires Sound(c)
    ensures |MacOf(c, h, prefix, m)| == MacSize(c, h)
  {
  }

  /** Once the body is decrypted the MAC decides. */
  lemma OpenDecides(c: Crypto, h: Half, record: seq<octet>, m: seq<octet>, tag: seq<octet>)
    requires Sound(c) && h.Valid() && |record| >= 5 && h.mac.Some? && |tag| == MacSize(c, h)
    requires var r := Unprotect(c, h, record[..3], record[5..]);
             && r.Some? && |r.value.0| == |m| + |tag| + r.value.1 && r.value.0[..|m| + |tag|] == m + tag
    ensures Open(c, h, record).Some? <==> MacOf(c, h, record[..3], m) == tag && Increment(h.seqNo).Some?
  {
    hide Sound, Unprotect, Increment, MacOf;
    Front(Unprotect(c, h, record[..3], record[5..]).value.0, m, tag);
  }

  lemma Front(s: seq<octet>, m: seq<octet>, tag: seq<octet>)
    requires |s| >= |m| + |tag| && s[..|m| + |tag|] == m + tag
    ensures s[..|m|] == m && s[|m|..|m| + |tag|] == tag
  {
    assert s[..|m|] == s[..|m| + |tag|][..|m|];
    assert s[|m|..|m| + |tag|] == s[..|m| + |tag|][|m|..];
  }

  /**
   A record with a MAC opens at another number, or under another header, exactly where the MAC of what these
   make of it is the same.
   */
  lemma MacDecides(c: Crypto, h: Half, prefix: seq<octet>, iv: seq<octet>, m: seq<octet>, number: seq<octet>,
      prefix': seq<octet>)
    requires Sound(c) && h.Valid() && |prefix| == |prefix'| == 3 && |iv| == h.ExplicitLen() && |number| == 8
    requires h.mac.Some? && |m| + MacSize(c, h) + 256 <= 0x8000_0000
    requires Seal(c, h, prefix, iv, m).Some?
    ensures var (k, record) := (h.mac.value, Seal(c, h, prefix, iv, m).value.0);
            Open(c, h.(seqNo := number), Under(prefix', record)).Some?
            <==> && c.mac(k, Covered(number, prefix', m)) == c.mac(k, Covered(h.seqNo, prefix, m))
                 && Increment(number).Some?
  {
    hide Sound, Protect, Unprotect, Open, MacOf, Increment, Hi, Lo, Covered;
    var (record, at) := (Seal(c, h, prefix, iv, m).value.0, h.(seqNo := number));
    var tag := MacOf(c, h, prefix, m);
    MacSized(c, h, prefix, m);
    TagIs(c, h, prefix, m);
    TagIs(c, at, prefix', m);
    var body := Protect(c, h, prefix, iv, m + tag).0;
    var other := Under(prefix', record);
    assert other[..3] == prefix' && other[5..] == body;
    ProtectOpens(c, h, prefix, iv, m + tag);
    UnprotectAnywhere(c, h, number, prefix', prefix, body);
    OpenDecides(c, at, other, m, tag);
  }

  lemma AeadUnprotect(c: Crypto, h: Half, prefix: seq<octet>, iv: seq<octet>, sealed: seq<octet>, body: seq<octet>)
    requires Sound(c) && h.Valid() && h.cipher.Aead? && |iv| == h.ExplicitLen() && |sealed| >= c.overhead
    requires |body| >= |iv| && body[..|iv|] == iv && body[|iv|..] == sealed
    ensures var n := |sealed| - c.overhead;
            var m := c.open(h.cipher.key, Nonce(h.cipher, h.seqNo, iv), sealed, h.seqNo + prefix + Length(n));
            Unprotect(c, h, prefix, body) == if m == None then None else Some((m.value, 0, h.cipher))
  {
    hide Sound, Hi, Lo, RealNonce, Nonce;
    NonceIs(h.cipher, h.seqNo, iv);
  }

  /**
   A record of an AEAD opens at another number, or under another header, exactly where the AEAD opens it with
   the nonce and the additional data that these make.
   */
  lemma AeadDecides(c: Crypto, h: Half, prefix: seq<octet>, iv: seq<octet>, m: seq<octet>, number: seq<octet>,
      prefix': seq<octet>)
    requires Sound(c) && h.Valid() && |prefix| == |prefix'| == 3 && |iv| == h.ExplicitLen() && |number| == 8
    requires h.cipher.Aead? && Seal(c, h, prefix, iv, m).Some?
    ensures var (key, record) := (h.cipher.key, Seal(c, h, prefix, iv, m).value.0);
            var sealed := c.seal(key, Nonce(h.cipher, h.seqNo, iv), m, h.seqNo + prefix + Length(|m|));
            var plain := c.open(key, Nonce(h.cipher, number, iv), sealed, number + prefix' + Length(|m|));
            |record| >= 5 &&
            var r := Open(c, h.(seqNo := number), Under(prefix', record));
            && (r.Some? <==> plain.Some? && Increment(number).Some?)
            && (r.Some? ==> r.value.0 == plain.value)
  {
    hide Increment, Seal, Unprotect, Nonce, Length;
    var (record, at) := (Seal(c, h, prefix, iv, m).value.0, h.(seqNo := number));
    SealedIs(c, h, prefix, iv, m);
    var sealed := c.seal(h.cipher.key, Nonce(h.cipher, h.seqNo, iv), m, h.seqNo + prefix + Length(|m|));
    var other := Under(prefix', record);
    var body := record[5..];
    assert other[..3] == prefix' && other[5..] == body == iv + sealed;
    assert body[..|iv|] == iv && body[|iv|..] == sealed;
    AeadUnprotect(c, at, prefix', iv, sealed, body);
    assert |sealed| - c.overhead == |m|;
  }
}
