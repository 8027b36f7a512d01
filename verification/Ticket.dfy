/**
 Session tickets: internal/tls_hack/ticket.go and the key list of common.go, RFC 5077 section 4.
 AES-CTR and HMAC are parameters.
 */
module Ticket {
  import opened Bytes
  import opened Encoding

  const KEY_NAME_LEN := 16
  const BLOCK_SIZE := 16
  const MAC_SIZE := 32

  datatype Session = Session(vers: word, cipherSuite: word, masterSecret: Data, certificates: seq<Data>)

  // ----- The serialized session

  function Long(n: nat): (s: Data)
    ensures |s| == 4
  {
    [n / 0x100_0000 % 256, n / 0x1_0000 % 256, n / 256 % 256, n % 256]
  }

  function ToLong(a: byte, b: byte, c: byte, d: byte): nat {
    a * 0x100_0000 + b * 0x1_0000 + c * 256 + d
  }

  lemma LongBack(n: nat)
    requires n < 0x1_0000_0000
    ensures var s := Long(n); ToLong(s[0], s[1], s[2], s[3]) == n
  {
    var a := n / 256;
    var b := a / 256;
    Shifts(n);
    assert n == 256 * a + n % 256 && a == 256 * b + a % 256 && b == 256 * (b / 256) + b % 256;
  }

  /** Shifting by a byte more than once. */
  lemma Shifts(n: nat)
    ensures n / 0x1_0000 == n / 256 / 256 && n / 0x100_0000 == n / 256 / 256 / 256
    ensures n < 0x1_0000_0000 ==> n / 256 / 256 / 256 < 256
  {
  }

  lemma LongOf(a: byte, b: byte, c: byte, d: byte)
    ensures Long(ToLong(a, b, c, d)) == [a, b, c, d]
  {
    var n := ToLong(a, b, c, d);
    assert n / 256 == a * 0x1_0000 + b * 256 + c;
    assert n / 0x1_0000 == a * 256 + b;
    assert n / 0x100_0000 == a;
  }

  lemma WordOf(a: byte, b: byte)
    ensures Word(ToWord(a, b)) == [a, b]
  {
  }

  function Certificates(cs: seq<Data>): Data {
    if cs == [] then [] else Long(|cs[0]|) + cs[0] + Certificates(cs[1..])
  }

  function CertificatesLen(cs: seq<Data>): nat {
    if cs == [] then 0 else 4 + |cs[0]| + CertificatesLen(cs[1..])
  }

  function Encode(s: Session): Data {
    Word(s.vers) + Word(s.cipherSuite) + Word(|s.masterSecret|) + s.masterSecret
    + Word(|s.certificates|) + Certificates(s.certificates)
  }

  /** `n` certificates and nothing behind them. */
  function ToCertificates(n: nat, d: Data): Option<seq<Data>> {
    if n == 0 then if d == [] then Some([]) else None
    else if |d| < 4 || |d| - 4 < ToLong(d[0], d[1], d[2], d[3]) then None
    else
      var k := ToLong(d[0], d[1], d[2], d[3]);
      match ToCertificates(n - 1, d[4 + k..])
      case None => None
      case Some(rest) => Some([d[4..4 + k]] + rest)
  }

  function DecodeCertificates(vers: word, suite: word, masterSecret: Data, d: Data): Option<Session> {
    if |d| < 2 then None
    else
      match ToCertificates(ToWord(d[0], d[1]), d[2..])
      case None => None
      case Some(cs) => Some(Session(vers, suite, masterSecret, cs))
  }

  function Decode(d: Data): Option<Session> {
    if |d| < 8 || |d| - 6 < ToWord(d[4], d[5]) then None
    else
      var n := ToWord(d[4], d[5]);
      DecodeCertificates(ToWord(d[0], d[1]), ToWord(d[2], d[3]), d[6..6 + n], d[6 + n..])
  }

  predicate Representable(s: Session) {
    |s.masterSecret| < 0x1_0000 && |s.certificates| < 0x1_0000 && forall c | c in s.certificates :: |c| < 0x1_0000_0000
  }

  lemma {:induction false} CertificatesBack(cs: seq<Data>)
    requires forall c | c in cs :: |c| < 0x1_0000_0000
    ensures ToCertificates(|cs|, Certificates(cs)) == Some(cs)
  {
    if cs != [] {
      CertificatesBack(cs[1..]);
      CertificateFront(|cs| - 1, cs[0], Certificates(cs[1..]));
      assert [cs[0]] + cs[1..] == cs;
    }
  }

  lemma CertificateFront(n: nat, c: Data, rest: Data)
    requires |c| < 0x1_0000_0000
    ensures ToCertificates(n + 1, Long(|c|) + c + rest)
            == match ToCertificates(n, rest) case None => None case Some(cs) => Some([c] + cs)
  {
    var k := |c|;
    var l := Long(k);
    LongBack(k);
    hide Long, ToLong;
    var d := l + c + rest;
    assert d[0] == l[0] && d[1] == l[1] && d[2] == l[2] && d[3] == l[3];
    assert d[4..4 + k] == c && d[4 + k..] == rest;
  }

  lemma {:induction false} CertificatesExact(n: nat, d: Data)
    ensures ToCertificates(n, d).Some? ==>
              var cs := ToCertificates(n, d).value;
              && Certificates(cs) == d && |cs| == n
              && forall c | c in cs :: |c| < 0x1_0000_0000
    decreases n
  {
    if n > 0 && |d| >= 4 && |d| - 4 >= ToLong(d[0], d[1], d[2], d[3]) {
      var k := ToLong(d[0], d[1], d[2], d[3]);
      SplitCertificate(d);
      hide ToLong, Long;
      CertificatesExact(n - 1, d[4 + k..]);
      if ToCertificates(n, d).Some? {
        var cs := ToCertificates(n - 1, d[4 + k..]).value;
        assert ([d[4..4 + k]] + cs)[1..] == cs;
      }
    }
  }

  lemma SplitCertificate(d: Data)
    requires |d| >= 4 && |d| - 4 >= ToLong(d[0], d[1], d[2], d[3])
    ensures var k := ToLong(d[0], d[1], d[2], d[3]); k < 0x1_0000_0000 && d == Long(k) + d[4..4 + k] + d[4 + k..]
  {
    LongOf(d[0], d[1], d[2], d[3]);
    hide Long;
    var k := ToLong(d[0], d[1], d[2], d[3]);
    assert d == [d[0], d[1], d[2], d[3]] + d[4..4 + k] + d[4 + k..];
  }

  /** unmarshal undoes marshal exactly for the sessions whose lengths fit. */
  lemma RoundTrip(s: Session)
    ensures Decode(Encode(s)) == Some(s) <==> Representable(s)
  {
    if Representable(s) {
      Decodes(s);
    } else if Decode(Encode(s)) == Some(s) {
      DecodesRepresentable(Encode(s));
    }
  }

  lemma Decodes(s: Session)
    requires Representable(s)
    ensures Decode(Encode(s)) == Some(s)
  {
    hide Decode, DecodeCertificates, Word, Certificates;
    var tail := Word(|s.certificates|) + Certificates(s.certificates);
    assert Encode(s) == Word(s.vers) + Word(s.cipherSuite) + Word(|s.masterSecret|) + s.masterSecret + tail;
    DecodesHead(s, tail);
    DecodesTail(s);
  }

  lemma DecodesHead(s: Session, tail: Data)
    requires |s.masterSecret| < 0x1_0000 && |tail| >= 2
    ensures Decode(Word(s.vers) + Word(s.cipherSuite) + Word(|s.masterSecret|) + s.masterSecret + tail)
            == DecodeCertificates(s.vers, s.cipherSuite, s.masterSecret, tail)
  {
    hide Word, ToWord, DecodeCertificates;
    WordBack(s.vers);
    WordBack(s.cipherSuite);
    WordBack(|s.masterSecret|);
    Layout(Word(s.vers), Word(s.cipherSuite), Word(|s.masterSecret|), s.masterSecret, tail);
  }

  lemma DecodesTail(s: Session)
    requires Representable(s)
    ensures DecodeCertificates(s.vers, s.cipherSuite, s.masterSecret, Word(|s.certificates|)
            + Certificates(s.certificates)) == Some(s)
  {
    CertificatesBack(s.certificates);
    hide Word, ToWord, Certificates, ToCertificates;
    WordFront(|s.certificates|, Certificates(s.certificates));
  }

  /** Where the parser finds the fixed fields. */
  lemma Layout(a: Data, b: Data, l: Data, secret: Data, tail: Data)
    requires |a| == |b| == |l| == 2
    ensures var d, n := a + b + l + secret + tail, |secret|;
            && |d| == 6 + n + |tail| && d[0] == a[0] && d[1] == a[1] && d[2] == b[0] && d[3] == b[1] && d[4] == l[0]
               && d[5] == l[1]
            && d[6..6 + n] == secret && d[6 + n..] == tail
  {
  }

  lemma DecodesRepresentable(d: Data)
    ensures Decode(d).Some? ==> Representable(Decode(d).value)
  {
    if |d| >= 8 && |d| - 6 >= ToWord(d[4], d[5]) {
      var rest := d[6 + ToWord(d[4], d[5])..];
      if |rest| >= 2 {
        CertificatesExact(ToWord(rest[0], rest[1]), rest[2..]);
      }
    }
  }

  /** Every accepted byte string is what marshal writes for the session it stands for. */
  lemma Canonical(d: Data)
    ensures Decode(d).Some? ==> Encode(Decode(d).value) == d
  {
    hide Certificates, ToCertificates;
    if Decode(d).Some? {
      var n := ToWord(d[4], d[5]);
      var rest := d[6 + n..];
      CertificatesExact(ToWord(rest[0], rest[1]), rest[2..]);
      WordOf(d[0], d[1]);
      WordOf(d[2], d[3]);
      WordOf(d[4], d[5]);
      WordOf(rest[0], rest[1]);
      hide Word, ToWord;
      assert rest == [rest[0], rest[1]] + rest[2..];
      assert d == [d[0], d[1]] + [d[2], d[3]] + [d[4], d[5]] + d[6..6 + n] + rest;
    }
  }

  // ----- Tickets

  datatype Key = Key(keyName: Data, aesKey: Data, hmacKey: Data)

  datatype Crypto = Crypto(ctr: (Data, Data, Data) -> Data, hmac: (Data, Data) -> Data)

  /** The CTR stream is its own inverse and keeps lengths. */
  ghost predicate Sound(c: Crypto) {
    && (forall k, iv, d :: c.ctr(k, iv, c.ctr(k, iv, d)) == d)
    && (forall k, iv, d :: |c.ctr(k, iv, d)| == |d|)
    && (forall k, d :: |c.hmac(k, d)| == MAC_SIZE)
  }

  function Sealed(c: Crypto, key: Key, iv: Data, s: Session): Data {
    var text := Fixed(key.keyName, KEY_NAME_LEN) + iv + c.ctr(key.aesKey, iv, Encode(s));
    text + c.hmac(key.hmacKey, text)
  }

  /** The first key of that name. */
  function Find(keys: seq<Key>, name: Data): Option<nat> {
    if keys == [] then None
    else if keys[0].keyName == name then Some(0)
    else
      match Find(keys[1..], name)
      case None => None
      case Some(i) => Some(i + 1)
  }

  lemma {:induction false} FindFirst(keys: seq<Key>, name: Data)
    ensures match Find(keys, name)
            case None => forall k | k in keys :: k.keyName != name
            case Some(i) => i < |keys| && keys[i].keyName == name && forall j | 0 <= j < i :: keys[j].keyName != name
  {
    if keys != [] && keys[0].keyName != name {
      FindFirst(keys[1..], name);
      assert forall j | 1 <= j < |keys| :: keys[j] == keys[1..][j - 1];
      assert forall k | k in keys :: k == keys[0] || k in keys[1..];
    }
  }

  /** decryptTicket: the session and whether its key is no longer the first. */
  function Opened(c: Crypto, disabled: bool, keys: seq<Key>, d: Data): Option<(Session, bool)> {
    if disabled || |d| < KEY_NAME_LEN + BLOCK_SIZE + MAC_SIZE then None
    else
      var end := |d| - MAC_SIZE;
      var i := Find(keys, d[..KEY_NAME_LEN]);
      if i == None || i.value >= |keys| then None
      else
        var key := keys[i.value];
        if d[end..] != c.hmac(key.hmacKey, d[..end]) then None
        else
          match Decode(c.ctr(key.aesKey, d[KEY_NAME_LEN..KEY_NAME_LEN + BLOCK_SIZE], d[KEY_NAME_LEN + BLOCK_SIZE..end]))
          case None => None
          case Some(s) => Some((s, i.value > 0))
  }

  /** A ticket opens under every later list in which the first key of its name is the one that issued it. */
  lemma TicketOpens(c: Crypto, key: Key, iv: Data, s: Session, keys: seq<Key>, i: nat)
    requires Sound(c) && |key.keyName| == KEY_NAME_LEN && |iv| == BLOCK_SIZE && Representable(s)
    requires i < |keys| && keys[i] == key && forall j | 0 <= j < i :: keys[j].keyName != key.keyName
    ensures Opened(c, false, keys, Sealed(c, key, iv, s)) == Some((s, i > 0))
  {
    RoundTrip(s);
    FindFirst(keys, key.keyName);
    hide Encode, Decode, Find;
    var name, body := key.keyName, c.ctr(key.aesKey, iv, Encode(s));
    var text := name + iv + body;
    var d := Sealed(c, key, iv, s);
    var end := |d| - MAC_SIZE;
    assert d == text + c.hmac(key.hmacKey, text);
    assert d[..end] == text && d[end..] == c.hmac(key.hmacKey, text);
    assert d[..KEY_NAME_LEN] == name;
    assert d[KEY_NAME_LEN..KEY_NAME_LEN + BLOCK_SIZE] == iv && d[KEY_NAME_LEN + BLOCK_SIZE..end] == body;
  }

  /** Only what some key of the list seals is ever accepted. */
  lemma OnlySealedOpens(c: Crypto, keys: seq<Key>, d: Data)
    requires Sound(c)
    ensures Opened(c, false, keys, d).Some? ==>
              exists i, iv ::
                && 0 <= i < |keys| && |iv| == BLOCK_SIZE && Opened(c, false, keys, d).value.1 == (i > 0)
                && d == Sealed(c, keys[i], iv, Opened(c, false, keys, d).value.0)
  {
    hide Encode, Decode, Find;
    if Opened(c, false, keys, d).Some? {
      var end := |d| - MAC_SIZE;
      var i := Find(keys, d[..KEY_NAME_LEN]).value;
      FindFirst(keys, d[..KEY_NAME_LEN]);
      var iv, body := d[KEY_NAME_LEN..KEY_NAME_LEN + BLOCK_SIZE], d[KEY_NAME_LEN + BLOCK_SIZE..end];
      var plain := c.ctr(keys[i].aesKey, iv, body);
      Canonical(plain);
      assert d[..end] == d[..KEY_NAME_LEN] + iv + body;
      assert d == d[..end] + d[end..];
      assert d == Sealed(c, keys[i], iv, Opened(c, false, keys, d).value.0);
    }
  }

  // ----- As the source runs it

  lemma {:induction false} CertificatesLength(cs: seq<Data>)
    ensures |Certificates(cs)| == CertificatesLen(cs)
  {
    if cs != [] {
      CertificatesLength(cs[1..]);
    }
  }

  lemma {:induction false} CertificatesAppend(cs: seq<Data>, c: Data)
    ensures Certificates(cs + [c]) == Certificates(cs) + (Long(|c|) + c)
    ensures CertificatesLen(cs + [c]) == CertificatesLen(cs) + 4 + |c|
  {
    if cs == [] {
      assert cs + [c] == [c] && [c][1..] == [] && Certificates([c]) == Long(|c|) + c + [];
    } else {
      assert (cs + [c])[1..] == cs[1..] + [c];
      CertificatesAppend(cs[1..], c);
    }
  }

  lemma {:induction false} CertificatesLenJoin(a: seq<Data>, b: seq<Data>)
    ensures CertificatesLen(a + b) == CertificatesLen(a) + CertificatesLen(b)
  {
    if a == [] {
      assert a + b == b;
    } else {
      assert (a + b)[1..] == a[1..] + b;
      CertificatesLenJoin(a[1..], b);
    }
  }

  lemma NoCertificates()
    ensures Certificates([]) == [] && CertificatesLen([]) == 0
  {
  }

  class SessionState {
    var s: Session
    var usedOldKey: bool

    constructor (s: Session, usedOldKey: bool)
      ensures this.s == s && this.usedOldKey == usedOldKey
    {
      this.s, this.usedOldKey := s, usedOldKey;
    }

    method Length() returns (n: nat)
      ensures n == |Encode(s)|
    {
      n := 2 + 2 + 2 + |s.masterSecret| + 2;
      var cs := s.certificates;
      CertificatesLength(cs);
      var i := 0;
      while i < |cs|
        invariant 0 <= i <= |cs| && n == 8 + |s.masterSecret| + CertificatesLen(cs[..i])
      {
        assert cs[..i + 1] == cs[..i] + [cs[i]];
        CertificatesAppend(cs[..i], cs[i]);
        n := n + 4 + |cs[i]|;
        i := i + 1;
      }
      assert cs[..|cs|] == cs;
    }

    method Marshal() returns (ret: Data)
      ensures ret == Encode(s)
    {
      var s := this.s;
      var length := Length();
      CertificatesLength(s.certificates);
      hide Cursor.Valid, Certificates, Word, CertificatesLen;
      var x := new Cursor(length);
      x.Put(Word(s.vers));
      x.Put(Word(s.cipherSuite));
      x.Put(Word(|s.masterSecret|));
      x.Put(s.masterSecret);
      x.Put(Word(|s.certificates|));
      PutCertificates(x, s.certificates);
      EncodeIs(s);
      ret := x.Bytes();
      assert ret == x.text + Zeros(0) == x.text;
    }

    /** unmarshal */
    method Unmarshal(d: Data) returns (ok: bool)
      modifies this`s
      ensures ok == Decode(d).Some? && (ok ==> s == Decode(d).value)
    {
      hide ToWord;
      if |d| < 8 {
        return false;
      }
      var masterSecretLen: nat := ToWord(d[4], d[5]);
      var data := d[6..];
      if |data| < masterSecretLen {
        return false;
      }
      var masterSecret := data[..masterSecretLen];
      assert masterSecret == d[6..6 + masterSecretLen] && data[masterSecretLen..] == d[6 + masterSecretLen..];
      data := data[masterSecretLen..];
      if |data| < 2 {
        return false;
      }
      var certificates;
      ok, certificates := ReadCertificates(ToWord(data[0], data[1]), data[2..]);
      s := Session(ToWord(d[0], d[1]), ToWord(d[2], d[3]), masterSecret, certificates);
    }
  }

  lemma EncodeIs(s: Session)
    ensures [] + Word(s.vers) + Word(s.cipherSuite) + Word(|s.masterSecret|) + s.masterSecret
            + Word(|s.certificates|) + Certificates(s.certificates) == Encode(s)
  {
    hide Word, Certificates;
  }

  method PutCertificates(x: Cursor, cs: seq<Data>)
    requires x.Valid() && |x.text| + CertificatesLen(cs) <= x.size
    modifies x, x.buf
    ensures x.Valid() && x.text == old(x.text) + Certificates(cs)
  {
    hide Cursor.Valid, Certificates, CertificatesLen, Long;
    var i := 0;
    NoCertificates();
    assert x.text + [] == x.text;
    while i < |cs|
      invariant 0 <= i <= |cs| && x.Valid()
      invariant x.text == old(x.text) + Certificates(cs[..i])
    {
      CertificatesLength(cs[..i]);
      assert cs[..i + 1] == cs[..i] + [cs[i]] && cs == cs[..i + 1] + cs[i + 1..];
      CertificatesAppend(cs[..i], cs[i]);
      CertificatesLenJoin(cs[..i + 1], cs[i + 1..]);
      x.Put(Long(|cs[i]|));
      x.Put(cs[i]);
      assert x.text == old(x.text) + (Certificates(cs[..i]) + (Long(|cs[i]|) + cs[i]));
      i := i + 1;
    }
    assert cs[..|cs|] == cs;
  }

  method ReadCertificates(n: nat, d: Data) returns (ok: bool, cs: seq<Data>)
    ensures ok == ToCertificates(n, d).Some? && (ok ==> cs == ToCertificates(n, d).value)
  {
    hide ToLong;
    cs := [];
    var data := d;
    Behind0(ToCertificates(n, d));
    var i := 0;
    while i < n
      invariant 0 <= i <= n && ToCertificates(n, d) == Behind(cs, ToCertificates(n - i, data))
    {
      if |data| < 4 {
        return false, cs;
      }
      var certLen := ToLong(data[0], data[1], data[2], data[3]);
      var rest := data[4..];
      if |rest| < certLen {
        return false, cs;
      }
      assert rest[..certLen] == data[4..4 + certLen] && rest[certLen..] == data[4 + certLen..];
      Behind1(cs, data[4..4 + certLen], ToCertificates(n - i - 1, data[4 + certLen..]));
      cs := cs + [rest[..certLen]];
      data := rest[certLen..];
      i := i + 1;
    }
    assert cs + [] == cs;
    ok := |data| == 0;
  }

  class Config {
    const crypto: Crypto
    const sessionTicketsDisabled: bool
    var sessionTicketKeys: seq<Key>

    constructor (crypto: Crypto, sessionTicketsDisabled: bool, keys: seq<Key>)
      ensures this.crypto == crypto && this.sessionTicketsDisabled == sessionTicketsDisabled
              && sessionTicketKeys == keys
    {
      this.crypto, this.sessionTicketsDisabled, sessionTicketKeys := crypto, sessionTicketsDisabled, keys;
    }

    method EncryptTicket(state: SessionState, iv: Data) returns (encrypted: Data)
      requires Sound(crypto) && |iv| == BLOCK_SIZE && sessionTicketKeys != []
      ensures encrypted == Sealed(crypto, sessionTicketKeys[0], iv, state.s)
    {
      hide Cursor.Valid, Encode;
      var serialized := state.Marshal();
      var key := sessionTicketKeys[0];
      var ciphertext := crypto.ctr(key.aesKey, iv, serialized);
      var x := new Cursor(KEY_NAME_LEN + BLOCK_SIZE + |serialized| + MAC_SIZE);
      x.Put(Fixed(key.keyName, KEY_NAME_LEN));
      x.Put(iv);
      x.Put(ciphertext);
      var text := x.Bytes();
      text := text[..|text| - MAC_SIZE];
      assert text == x.text == Fixed(key.keyName, KEY_NAME_LEN) + iv + ciphertext;
      x.Put(crypto.hmac(key.hmacKey, text));
      encrypted := x.Bytes();
    }

    /** The state is returned even when it does not parse, but then with false. */
    method DecryptTicket(encrypted: Data) returns (state: SessionState?, ok: bool)
      ensures ok == Opened(crypto, sessionTicketsDisabled, sessionTicketKeys, encrypted).Some?
      ensures ok ==> state != null && fresh(state) &&
                     Some((state.s, state.usedOldKey))
                         == Opened(crypto, sessionTicketsDisabled, sessionTicketKeys, encrypted)
    {
      hide Decode;
      if sessionTicketsDisabled || |encrypted| < KEY_NAME_LEN + BLOCK_SIZE + MAC_SIZE {
        return null, false;
      }
      var end := |encrypted| - MAC_SIZE;
      var keyName := encrypted[..KEY_NAME_LEN];
      var iv := encrypted[KEY_NAME_LEN..KEY_NAME_LEN + BLOCK_SIZE];
      var keyIndex := FindKey(keyName);
      if keyIndex == -1 {
        return null, false;
      }
      FindFirst(sessionTicketKeys, keyName);
      var key := sessionTicketKeys[keyIndex];
      if encrypted[end..] != crypto.hmac(key.hmacKey, encrypted[..end]) {
        return null, false;
      }
      var plaintext := crypto.ctr(key.aesKey, iv, encrypted[KEY_NAME_LEN + BLOCK_SIZE..end]);
      state := new SessionState(Session(0, 0, [], []), keyIndex > 0);
      ok := state.Unmarshal(plaintext);
    }

    method FindKey(name: Data) returns (keyIndex: int)
      ensures -1 <= keyIndex < |sessionTicketKeys|
      ensures Find(sessionTicketKeys, name) == if keyIndex < 0 then None else Some(keyIndex)
    {
      var keys := sessionTicketKeys;
      keyIndex := -1;
      var i := 0;
      while i < |keys|
        invariant 0 <= i <= |keys| && keyIndex == -1
        invariant Find(keys, name) == match Find(keys[i..], name) case None => None case Some(j) => Some(i + j)
      {
        if keys[i].keyName == name {
          return i;
        }
        assert keys[i..][1..] == keys[i + 1..];
        i := i + 1;
      }
    }
  }
}
