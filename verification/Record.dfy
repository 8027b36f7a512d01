/** halfConn: internal/tls_hack/conn.go. Records are sealed and opened in place, one direction of a connection each. */
module Record {
  import opened Bytes
  import opened Padding
  import opened HalfConn

  class Block {
    var data: seq<octet>

    constructor (data: seq<octet>)
      ensures this.data == data
    {
      this.data := data;
    }
  }

  /** Keys that a connection may switch to. */
  predicate Fits(next: Option<(Cipher, Option<Key>)>) {
    next.Some? ==> Half(0, next.value.0, next.value.1, Copies(8, 0)).Valid()
  }

  /** The state after changeCipherSpec: new keys, and numbering starts again. */
  function Switched(h: Half, next: Option<(Cipher, Option<Key>)>): (r: Option<Half>)
    ensures r.Some? && Fits(next) ==> r.value.Valid() && BigEndian(r.value.seqNo) == 0
  {
    match next
    case None => None
    case Some((cipher, mac)) =>
      ZeroNumber(8);
      Some(Half(h.version, cipher, mac, Copies(8, 0)))
  }

  lemma {:induction false} ZeroNumber(n: nat)
    ensures BigEndian(Copies(n, 0)) == 0
  {
    if n > 0 {
      assert Copies(n, 0)[..n - 1] == Copies(n - 1, 0);
      ZeroNumber(n - 1);
    }
  }

  /** One direction of a connection; `seqNo` is updated in place. */
  class Direction {
    const crypto: Crypto
    var version: nat
    var cipher: Cipher
    var mac: Option<Key>
    var next: Option<(Cipher, Option<Key>)>
    const seqNo: array<octet>

    ghost predicate Valid()
      reads this, seqNo
    {
      && Sound(crypto) && seqNo.Length == 8 && Value().Valid()
      && Fits(next)
    }

    function Value(): Half
      reads this, seqNo
    {
      Half(version, cipher, mac, seqNo[..])
    }

    constructor (crypto: Crypto, h: Half)
      requires Sound(crypto) && h.Valid()
      ensures Valid() && Value() == h && next == None && this.crypto == crypto && fresh(seqNo)
    {
      this.crypto := crypto;
      version, cipher, mac, next := h.version, h.cipher, h.mac, None;
      var s := new octet[8](i requires 0 <= i < 8 => h.seqNo[i]);
      seqNo := s;
      new;
      assert seqNo[..] == h.seqNo;
    }

    /** The version takes effect at once, the keys with changeCipherSpec. */
    method PrepareCipherSpec(version: nat, cipher: Cipher, mac: Option<Key>)
      requires Valid() && Fits(Some((cipher, mac)))
      modifies this`version, this`next
      ensures Valid() && Value() == old(Value()).(version := version) && next == Some((cipher, mac))
    {
      this.version := version;
      next := Some((cipher, mac));
    }

    method ChangeCipherSpec() returns (ok: bool)
      requires Valid()
      modifies this`cipher, this`mac, this`next, seqNo
      ensures Valid() && next == None
      ensures ok == Switched(old(Value()), old(next)).Some?
      ensures if ok then Some(Value()) == Switched(old(Value()), old(next)) else Value() == old(Value())
    {
      if next == None {
        return false;
      }
      cipher, mac := next.value.0, next.value.1;
      next := None;
      for i := 0 to seqNo.Length
        modifies seqNo
        invariant forall k | 0 <= k < i :: seqNo[k] == 0
      {
        seqNo[i] := 0;
      }
      assert seqNo[..] == Copies(8, 0);
      ok := true;
    }

    /** incSeq; false where the source panics. */
    method IncSeq() returns (ok: bool)
      requires seqNo.Length == 8
      modifies seqNo
      ensures ok <==> Increment(old(seqNo[..])).Some?
      ensures ok ==> Some(seqNo[..]) == Increment(old(seqNo[..]))
    {
      hide Increment, Carried;
      ghost var was := seqNo[..];
      assert was[..8] == was;
      CarriedNone(Increment(was));
      NothingToIncrement(was, 8);
      var i := 7;
      while i >= 0
        invariant -1 <= i <= 7
        invariant forall k | 0 <= k <= i :: seqNo[k] == was[k]
        invariant forall k | i < k < 8 :: seqNo[k] == 0
        invariant Increment(was) == Carried(Increment(was[..i + 1]), 7 - i)
      {
        seqNo[i] := seqNo[i] + 1;
        IncrementLast(was, i, 7 - i);
        if seqNo[i] != 0 {
          NotMax(was[i]);
          Assembled(seqNo[..], was, i, was[i] + 1);
          return true;
        }
        IsMax(was[i]);
        i := i - 1;
      }
      return false;
    }

    /** encrypt: `b` holds a header, `explicitIVLen` bytes of nonce, and the payload; false where the source panics. */
    method Encrypt(b: Block, explicitIVLen: nat) returns (ok: bool)
      requires Valid() && explicitIVLen == Value().ExplicitLen()
      requires |b.data| >= HEADER_LEN + explicitIVLen
      requires var n := |b.data| - HEADER_LEN - explicitIVLen; b.data[3..HEADER_LEN] == [Hi(n), Lo(n)]
      modifies this`cipher, seqNo, b
      ensures var start := HEADER_LEN + explicitIVLen;
              var sealed := Seal(crypto, old(Value()), old(b.data[..3]), old(b.data[HEADER_LEN..start]),
                  old(b.data[start..]));
              && ok == sealed.Some?
              && (ok ==> sealed == Some((b.data, Value())))
    {
      hide Protect, Increment, Sound, MacOf, Fits;
      ghost var h := Value();
      var prefix := b.data[..3];
      var explicitIV := b.data[HEADER_LEN..HEADER_LEN + explicitIVLen];
      ghost var plain := b.data[HEADER_LEN + explicitIVLen..];
      AppendMac(b, explicitIVLen);
      ghost var m := plain + MacOf(crypto, h, prefix, plain);
      assert b.data[HEADER_LEN + explicitIVLen..] == m;
      var body := EncryptBody(prefix, explicitIV, b.data[HEADER_LEN + explicitIVLen..]);
      var n := |body|;
      b.data := prefix + [Hi(n), Lo(n)] + body;
      ok := IncSeq();
    }

    /** The MAC step of encrypt. */
    method AppendMac(b: Block, explicitIVLen: nat)
      requires Valid() && |b.data| >= HEADER_LEN + explicitIVLen
      requires var n := |b.data| - HEADER_LEN - explicitIVLen; b.data[3..HEADER_LEN] == [Hi(n), Lo(n)]
      modifies b
      ensures b.data == old(b.data)
              + MacOf(crypto, Value(), old(b.data[..3]), old(b.data[HEADER_LEN + explicitIVLen..]))
    {
      hide Direction.Valid;
      if mac.Some? {
        ghost var plain := b.data[HEADER_LEN + explicitIVLen..];
        assert b.data[..3] + [Hi(|plain|), Lo(|plain|)] == b.data[..HEADER_LEN];
        var tag := crypto.mac(mac.value, seqNo[..] + b.data[..HEADER_LEN] + b.data[HEADER_LEN + explicitIVLen..]);
        assert seqNo[..] + b.data[..HEADER_LEN] == seqNo[..] + b.data[..3] + [Hi(|plain|), Lo(|plain|)];
        b.data := b.data + tag;
      }
    }

    /** The cipher step of encrypt. */
    method EncryptBody(prefix: seq<octet>, explicitIV: seq<octet>, payload: seq<octet>) returns (body: seq<octet>)
      requires Valid() && |explicitIV| == Value().ExplicitLen()
      modifies this`cipher
      ensures (body, cipher) == Protect(crypto, old(Value()), prefix, explicitIV, payload)
      ensures Value() == old(Value()).(cipher := cipher)
    {
      match cipher {
        case Clear =>
          return explicitIV + payload;
        case Stream(key, pos) =>
          body := explicitIV + Xor(payload, Keystream(crypto, key, pos, |payload|));
          cipher := Stream(key, pos + |payload|);
        case Aead(key, _, _) =>
          var nonce := if |explicitIV| == 0 then seqNo[..] else explicitIV;
          var additionalData := seqNo[..] + prefix + [Hi(|payload|), Lo(|payload|)];
          body := explicitIV + crypto.seal(key, RealNonce(cipher, nonce), payload, additionalData);
        case Cbc(key, iv) =>
          var chain := iv;
          if |explicitIV| > 0 {
            chain := explicitIV;
          }
          var prefixBlocks, finalBlock := PadToBlockSize(payload, |iv|);
          WholeExactly(|prefixBlocks|, |iv|);
          CbcAppend(crypto, key, chain, prefixBlocks, finalBlock);
          var (first, mid) := CbcEncrypt(crypto, key, chain, prefixBlocks);
          var (second, last) := CbcEncrypt(crypto, key, mid, finalBlock);
          body := explicitIV + (first + second);
          cipher := Cbc(key, last);
      }
    }

    /** decrypt: on success the payload starts at `prefixLen`. */
    method Decrypt(b: Block) returns (ok: bool, prefixLen: nat)
      requires Valid() && |b.data| >= HEADER_LEN
      modifies this`cipher, seqNo, b
      ensures var result := Open(crypto, old(Value()), old(b.data));
              && ok == result.Some?
              && (ok ==> prefixLen <= |b.data| && result == Some((b.data[prefixLen..], Value())))
    {
      hide Unprotect, Increment, Sound, Fits, Hi;
      ghost var h := Value();
      var prefix := b.data[..3];
      var r := DecryptBody(prefix, b.data[HEADER_LEN..]);
      if r == None {
        return false, 0;
      }
      var (payload, paddingLen) := r.value;
      var macSize := if mac.Some? then crypto.macSize(mac.value) else 0;
      if |payload| < macSize {
        return false, 0;
      }
      prefixLen := HEADER_LEN;
      if mac.Some? {
        var n := |payload| - macSize - paddingLen;
        if n < 0 {
          n := 0;
        }
        var header := prefix + [Hi(n), Lo(n)];
        var remoteMAC := payload[n..n + macSize];
        var localMAC := crypto.mac(mac.value, seqNo[..] + header + payload[..n]);
        assert seqNo[..] + header == h.seqNo + prefix + [Hi(n), Lo(n)];
        if localMAC != remoteMAC {
          return false, 0;
        }
        b.data := header + payload[..n];
      } else {
        b.data := b.data[..HEADER_LEN] + payload;
      }
      ok := IncSeq();
    }

    /** The cipher step of decrypt: the bytes it yields and the padding to remove. */
    method DecryptBody(prefix: seq<octet>, body: seq<octet>) returns (r: Option<(seq<octet>, nat)>)
      requires Valid()
      modifies this`cipher
      ensures Yielded(Unprotect(crypto, old(Value()), prefix, body), r, cipher)
      ensures Value() == old(Value()).(cipher := cipher)
    {
      hide CbcDecrypt, Accepted, Sound, Fits;
      match cipher {
        case Clear =>
          return Some((body, 0));
        case Stream(key, pos) =>
          cipher := Stream(key, pos + |body|);
          return Some((Xor(body, Keystream(crypto, key, pos, |body|)), 0));
        case Aead(_, _, _) =>
          r := DecryptAead(prefix, body);
        case Cbc(_, _) =>
          r := DecryptCbc(prefix, body);
      }
    }

    method DecryptAead(prefix: seq<octet>, body: seq<octet>) returns (r: Option<(seq<octet>, nat)>)
      requires Valid() && cipher.Aead?
      ensures Yielded(Unprotect(crypto, Value(), prefix, body), r, cipher)
    {
      hide Sound, Fits, Num;
      var explicitIVLen := if cipher.explicitNonce then 8 else 0;
      if |body| < explicitIVLen {
        return None;
      }
      var nonce := body[..explicitIVLen];
      var sealed := body[explicitIVLen..];
      if |nonce| == 0 {
        nonce := seqNo[..];
      }
      if |sealed| < crypto.overhead {
        return None;
      }
      var n := |sealed| - crypto.overhead;
      var m := crypto.open(cipher.key, RealNonce(cipher, nonce), sealed, seqNo[..] + prefix + [Hi(n), Lo(n)]);
      return if m == None then None else Some((m.value, 0));
    }

    method DecryptCbc(prefix: seq<octet>, body: seq<octet>) returns (r: Option<(seq<octet>, nat)>)
      requires Valid() && cipher.Cbc?
      modifies this`cipher
      ensures Yielded(Unprotect(crypto, old(Value()), prefix, body), r, cipher)
      ensures Value() == old(Value()).(cipher := cipher)
    {
      hide CbcDecrypt, RoundUp, Sound, Repeats, NotBelow, Fits;
      var key, iv := cipher.key, cipher.iv;
      var blockSize := |iv|;
      var explicitIVLen := if version >= TLS11 then blockSize else 0;
      var macSize := if mac.Some? then crypto.macSize(mac.value) else 0;
      if |body| % blockSize != 0 || |body| < RoundUp(explicitIVLen + macSize + 1, blockSize) {
        return None;
      }
      AtLeastRounded(explicitIVLen + macSize + 1, blockSize);
      assert body[0..] == body;
      var chain := iv;
      var payload := body;
      if explicitIVLen > 0 {
        chain := body[..explicitIVLen];
        payload := body[explicitIVLen..];
      }
      var (m, last) := CbcDecrypt(crypto, key, chain, payload);
      cipher := Cbc(key, last);
      var toRemove, good := ExtractPadding(m);
      assert good == 0xFF <==> Accepted(m);
      return if good == 0xFF then Some((m, toRemove)) else None;
    }
  }

  /** What a decryption in place returns and leaves behind, given its result as a value. */
  predicate Yielded(spec: Option<(seq<octet>, nat, Cipher)>, r: Option<(seq<octet>, nat)>, after: Cipher) {
    match spec
    case None => r == None
    case Some((m, padding, cipher)) => r == Some((m, padding)) && cipher == after
  }

  lemma AtLeastRounded(a: nat, b: nat)
    requires b >= 1
    ensures RoundUp(a, b) >= a
  {
  }

  /** An incremented prefix with `n` zero bytes behind it. */
  function Carried(r: Option<seq<octet>>, n: nat): Option<seq<octet>> {
    match r
    case None => None
    case Some(s) => Some(s + seq(n, _ => 0 as octet))
  }

  lemma CarriedNone(r: Option<seq<octet>>)
    ensures Carried(r, 0) == r
  {
    if r.Some? {
      assert r.value + seq(0, _ => 0 as octet) == r.value;
    }
  }

  lemma CarriedMore(r: Option<seq<octet>>, n: nat)
    ensures Carried(match r case None => None case Some(t) => Some(t + [0]), n) == Carried(r, n + 1)
  {
    if r.Some? {
      assert r.value + [0] + seq(n, _ => 0 as octet) == r.value + seq(n + 1, _ => 0 as octet);
    }
  }

  lemma Assembled(s: seq<octet>, was: seq<octet>, i: nat, b: octet)
    requires i < |s| == |was| && s[i] == b
    requires forall k | 0 <= k < i :: s[k] == was[k]
    requires forall k | i < k < |s| :: s[k] == 0
    ensures s == was[..i] + [b] + seq(|s| - 1 - i, _ => 0 as octet)
  {
  }

  lemma NothingToIncrement(s: seq<octet>, n: nat)
    requires n <= |s|
    ensures Carried(Increment(s[..0]), n) == None
  {
  }

  /** What the last of the first bytes adds: one more, or zero and a carry. */
  lemma IncrementLast(s: seq<octet>, i: nat, n: nat)
    requires i < |s|
    ensures Carried(Increment(s[..i + 1]), n) ==
            if s[i] != 0xFF then Some(s[..i] + [s[i] + 1] + seq(n, _ => 0 as octet))
            else Carried(Increment(s[..i]), n + 1)
  {
    assert s[..i + 1][..i] == s[..i];
    if s[i] == 0xFF {
      CarriedMore(Increment(s[..i]), n);
    }
  }

  lemma NotMax(b: octet)
    requires b + 1 != 0
    ensures b != 0xFF
  {
  }

  lemma IsMax(b: octet)
    requires b + 1 == 0
    ensures b == 0xFF
  {
  }
}
