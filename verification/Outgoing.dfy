/**
 Writing records: internal/tls_hack/conn.go, writeRecordLocked and maxPayloadSizeForWrite.
 Data is cut into records whose size grows while a connection is young.
 */
module Outgoing {
  import opened Bytes
  import opened Padding
  import opened HalfConn
  import opened Record

  const TLS10 := 0x0301
  const MAX_PLAINTEXT := 16384
  const MAX_CIPHERTEXT := 16384 + 2048
  const TCP_MSS_ESTIMATE := 1208
  const RECORD_SIZE_BOOST_THRESHOLD := 128 * 1024

  const CHANGE_CIPHER_SPEC: octet := 20
  const ALERT: octet := 21
  const HANDSHAKE: octet := 22
  const APPLICATION_DATA: octet := 23

  /** What the cipher suites of cipher_suites.go have in common. */
  predicate Suite(c: Crypto, h: Half) {
    && MacSize(c, h) <= 64 && c.overhead <= 64
    && (h.cipher.Cbc? ==> |h.cipher.iv| == 8 || |h.cipher.iv| == 16)
    && (h.cipher.Clear? ==> h.mac == None)
  }

  predicate SuiteNext(c: Crypto, next: Option<(Cipher, Option<Key>)>) {
    next.Some? ==> Suite(c, Half(0, next.value.0, next.value.1, []))
  }

  /** The length of a record that carries `n` bytes. */
  function WireLen(c: Crypto, h: Half, n: nat): nat
    requires h.Valid()
  {
    HEADER_LEN + h.ExplicitLen() +
    match h.cipher
    case Clear => n + MacSize(c, h)
    case Stream(_, _) => n + MacSize(c, h)
    case Aead(_, _, _) => n + MacSize(c, h) + c.overhead
    case Cbc(_, iv) => n + MacSize(c, h) + |iv| - (n + MacSize(c, h)) % |iv|
  }

  // ----- How much to put into a record

  /** payloadBytes: what maxPayloadSizeForWrite reckons fits into one TCP segment. */
  function SegmentRoom(c: Crypto, h: Half): int
    requires h.Valid()
  {
    var room := TCP_MSS_ESTIMATE - HEADER_LEN - h.ExplicitLen();
    match h.cipher
    case Clear => room
    case Stream(_, _) => room - MacSize(c, h)
    case Aead(_, _, _) => room - c.overhead
    case Cbc(_, iv) => room - room % |iv| - 1 - MacSize(c, h)   // &^ (blockSize - 1), a power of two
  }

  /** SegmentRoom is the largest payload whose record still fits into one segment. */
  lemma SegmentRoomExact(c: Crypto, h: Half, n: nat)
    requires h.Valid() && Suite(c, h)
    ensures SegmentRoom(c, h) > 0
    ensures WireLen(c, h, n) <= TCP_MSS_ESTIMATE <==> n <= SegmentRoom(c, h)
  {
    if h.cipher.Cbc? {
      var b := |h.cipher.iv|;
      var room := TCP_MSS_ESTIMATE - HEADER_LEN - h.ExplicitLen();
      var m := n + MacSize(c, h);
      PaddedLength(m, b);
      WholeBlocks(room, b);
      MultiplesBelow(m + b - m % b, room, b);
    }
  }

  /** A multiple of `b` is at most `room` iff it is at most the multiple below `room`. */
  lemma MultiplesBelow(x: nat, room: nat, b: nat)
    requires b == 8 || b == 16
    requires x % b == 0
    ensures x <= room <==> x <= room - room % b
  {
  }

  datatype Sizing = Sizing(disabled: bool, buffering: bool, bytesSent: nat, packetsSent: nat) {
    /** Buffered bytes are counted when they are flushed. */
    function Counting(n: nat): Sizing {
      if buffering then this else this.(bytesSent := bytesSent + n)
    }
  }

  predicate Growing(z: Sizing, typ: octet) {
    !z.disabled && typ == APPLICATION_DATA && z.bytesSent < RECORD_SIZE_BOOST_THRESHOLD
  }

  function MaxPayload(c: Crypto, h: Half, typ: octet, z: Sizing): (r: (nat, Sizing))
    requires h.Valid() && Suite(c, h)
    ensures 1 <= r.0 <= MAX_PLAINTEXT
    ensures Growing(z, typ) && z.packetsSent == 0 ==> WireLen(c, h, r.0) <= TCP_MSS_ESTIMATE
    ensures r.1.bytesSent == z.bytesSent
            && r.1.packetsSent == if Growing(z, typ) then z.packetsSent + 1 else z.packetsSent
  {
    if !Growing(z, typ) then (MAX_PLAINTEXT, z)
    else
      var after := z.(packetsSent := z.packetsSent + 1);
      if z.packetsSent > 1000 then (MAX_PLAINTEXT, after)
      else
        SegmentRoomExact(c, h, 0);
        var n := SegmentRoom(c, h) * (z.packetsSent + 1);
        SegmentRoomExact(c, h, n);
        (if n > MAX_PLAINTEXT then MAX_PLAINTEXT else n, after)
  }

  /**
   The first records of a young connection fill one, two, three TCP segments of 1208 bytes and so on, up to
   16384 bytes of payload; all records do so after a thousand, after 128 KiB, for other data, or if asked to.
   */
  lemma SizesGrow(c: Crypto, h: Half, typ: octet, z: Sizing)
    requires h.Valid() && Suite(c, h)
    ensures var room := SegmentRoom(c, h);
            && room >= 1 && (forall n: nat :: WireLen(c, h, n) <= 1208 <==> n <= room)
            && MaxPayload(c, h, typ, z).0 ==
               (if z.disabled || typ != 23 || z.bytesSent >= 131072 || z.packetsSent > 1000
                   || room * (z.packetsSent + 1) > 16384 then 16384
                else room * (z.packetsSent + 1))
    ensures MaxPayload(c, h, typ, z).1 ==
            if z.disabled || typ != 23 || z.bytesSent >= 131072 then z else z.(packetsSent := z.packetsSent + 1)
  {
    hide SegmentRoom, WireLen, Suite;
    forall n: nat ensures WireLen(c, h, n) <= 1208 <==> n <= SegmentRoom(c, h) {
      SegmentRoomExact(c, h, n);
    }
    SegmentRoomExact(c, h, 0);
  }

  // ----- What one call writes

  function Prefix(typ: octet, vers: nat): (s: seq<octet>)
    ensures |s| == 3
  {
    var v := if vers == 0 then TLS10 else vers;
    [typ, Hi(v), Lo(v)]
  }

  /** Random for CBC from TLS 1.1 on, the sequence number for an explicit AEAD nonce. */
  function ExplicitIV(h: Half, random: nat -> octet, drawn: nat): (s: seq<octet>)
    requires h.Valid()
    ensures |s| == h.ExplicitLen()
  {
    match h.cipher
    case Aead(_, _, explicitNonce) => if explicitNonce then h.seqNo else []
    case Cbc(_, iv) => seq(h.ExplicitLen(), i requires 0 <= i < h.ExplicitLen() => random(drawn + i))
    case _ => []
  }

  function Drawn(h: Half): nat {
    if h.cipher.Cbc? then h.ExplicitLen() else 0
  }

  /** One record after the other, each with the next of `pieces`. */
  function SealAll(c: Crypto, random: nat -> octet, h: Half, prefix: seq<octet>, drawn: nat,
                   pieces: seq<seq<octet>>): Option<(seq<octet>, Half)>
    requires Sound(c) && h.Valid() && |prefix| == 3
    decreases |pieces|
  {
    if pieces == [] then Some(([], h))
    else
      SealKeepsValid(c, h, prefix, ExplicitIV(h, random, drawn), pieces[0]);
      match Seal(c, h, prefix, ExplicitIV(h, random, drawn), pieces[0])
      case None => None
      case Some((record, next)) =>
        match SealAll(c, random, next, prefix, drawn + Drawn(h), pieces[1..])
        case None => None
        case Some((wire, last)) => Some((record + wire, last))
  }

  lemma SealKeepsValid(c: Crypto, h: Half, prefix: seq<octet>, explicitIV: seq<octet>, m: seq<octet>)
    requires Sound(c) && h.Valid() && |prefix| == 3 && |explicitIV| == h.ExplicitLen()
    ensures match Seal(c, h, prefix, explicitIV, m)
            case None => true
            case Some((record, next)) =>
              && next.Valid() && next.version == h.version && next.mac == h.mac
              && next.ExplicitLen() == h.ExplicitLen() && (Suite(c, h) ==> Suite(c, next))
              && |record| == WireLen(c, h, |m|)
              && record[..3] == prefix && record[3] == Hi(|record| - HEADER_LEN)
                 && record[4] == Lo(|record| - HEADER_LEN)
  {
    hide Increment, MacOf, Hi, Lo, Padded, CbcEncrypt;
    var full := m + MacOf(c, h, prefix, m);
    MacLength(c, h, prefix, m);
    ProtectShape(c, h, prefix, explicitIV, full);
  }

  lemma MacLength(c: Crypto, h: Half, prefix: seq<octet>, m: seq<octet>)
    requires Sound(c)
    ensures |MacOf(c, h, prefix, m)| == MacSize(c, h)
  {
  }

  lemma ProtectShape(c: Crypto, h: Half, prefix: seq<octet>, explicitIV: seq<octet>, full: seq<octet>)
    requires Sound(c) && h.Valid() && |explicitIV| == h.ExplicitLen() && |full| >= MacSize(c, h)
    ensures var (body, cipher) := Protect(c, h, prefix, explicitIV, full);
            && HEADER_LEN + |body| == WireLen(c, h, |full| - MacSize(c, h))
            && h.(cipher := cipher).Valid()
            && h.(cipher := cipher).ExplicitLen() == h.ExplicitLen()
            && (Suite(c, h) ==> Suite(c, h.(cipher := cipher)))
  {
    if h.cipher.Cbc? {
      var iv := h.cipher.iv;
      var padded := Padded(full, |iv|);
      WholeExactly(|padded|, |iv|);
      CbcInverse(c, h.cipher.key, if explicitIV == [] then iv else explicitIV, padded);
    }
  }

  datatype Writer = Writer(half: Half, vers: nat, sizing: Sizing, drawn: nat)

  function Shorter(data: seq<octet>, room: nat): (m: nat)
    ensures m <= |data| && m <= room && (data != [] && room >= 1 ==> m >= 1)
  {
    if |data| > room then room else |data|
  }

  /** The length of the next piece, its record, and the state afterwards; None where the source panics. */
  function Step(c: Crypto, random: nat -> octet, w: Writer, typ: octet, data: seq<octet>)
    : Option<(nat, seq<octet>, Writer)>
    requires Sound(c) && w.half.Valid() && Suite(c, w.half)
  {
    var (room, z) := MaxPayload(c, w.half, typ, w.sizing);
    var m := Shorter(data, room);
    match Seal(c, w.half, Prefix(typ, w.vers), ExplicitIV(w.half, random, w.drawn), data[..m])
    case None => None
    case Some((record, half)) => Some((m, record, Writer(half, w.vers, z.Counting(|record|), w.drawn + Drawn(w.half))))
  }

  lemma StepKeeps(c: Crypto, random: nat -> octet, w: Writer, typ: octet, data: seq<octet>)
    requires Sound(c) && w.half.Valid() && Suite(c, w.half) && data != []
    ensures match Step(c, random, w, typ, data)
            case None => true
            case Some((m, record, next)) =>
              && 1 <= m <= |data| && m <= MAX_PLAINTEXT
              && next.half.Valid() && Suite(c, next.half) && next.vers == w.vers
                 && next.drawn == w.drawn + Drawn(w.half)
              && Seal(c, w.half, Prefix(typ, w.vers), ExplicitIV(w.half, random, w.drawn), data[..m])
                 == Some((record, next.half))
              && |record| == WireLen(c, w.half, m)
  {
    hide Seal, MaxPayload, Prefix, ExplicitIV, Suite, Drawn, WireLen;
    var (room, z) := MaxPayload(c, w.half, typ, w.sizing);
    SealKeepsValid(c, w.half, Prefix(typ, w.vers), ExplicitIV(w.half, random, w.drawn), data[..Shorter(data, room)]);
  }

  /** The pieces writeRecordLocked cuts `data` into, as long as no sequence number wraps. */
  function Pieces(c: Crypto, random: nat -> octet, w: Writer, typ: octet, data: seq<octet>): seq<seq<octet>>
    requires Sound(c) && w.half.Valid() && Suite(c, w.half)
    decreases |data|
  {
    if data == [] then []
    else
      StepKeeps(c, random, w, typ, data);
      match Step(c, random, w, typ, data)
      case None => [data]
      case Some((m, _, next)) => [data[..m]] + Pieces(c, random, next, typ, data[m..])
  }

  /** The bytes one call puts on the wire and the state afterwards, or None where the source panics. */
  function WriteAll(c: Crypto, random: nat -> octet, w: Writer, typ: octet, data: seq<octet>)
    : Option<(seq<octet>, Writer)>
    requires Sound(c) && w.half.Valid() && Suite(c, w.half)
    decreases |data|
  {
    if data == [] then Some(([], w))
    else
      StepKeeps(c, random, w, typ, data);
      match Step(c, random, w, typ, data)
      case None => None
      case Some((m, record, next)) =>
        match WriteAll(c, random, next, typ, data[m..])
        case None => None
        case Some((wire, last)) => Some((record + wire, last))
  }

  /** What is written is a run of sealed records whose payloads, 1 to 16384 bytes each, make up the data. */
  lemma {:induction false} WritesPieces(c: Crypto, random: nat -> octet, w: Writer, typ: octet, data: seq<octet>)
    requires Sound(c) && w.half.Valid() && Suite(c, w.half)
    ensures WriteAll(c, random, w, typ, data).Some? ==>
              var pieces := Pieces(c, random, w, typ, data);
              var (wire, last) := WriteAll(c, random, w, typ, data).value;
              && Join(pieces) == data
              && (forall p | p in pieces :: 1 <= |p| <= MAX_PLAINTEXT)
              && SealAll(c, random, w.half, Prefix(typ, w.vers), w.drawn, pieces) == Some((wire, last.half))
              && last.vers == w.vers && last.half.Valid() && Suite(c, last.half)
    decreases |data|
  {
    hide Seal, Step, Prefix, ExplicitIV, Suite, Drawn, WireLen, Sound, Half.ExplicitLen;
    if data != [] {
      StepKeeps(c, random, w, typ, data);
      if Step(c, random, w, typ, data).Some? {
        var (m, record, next) := Step(c, random, w, typ, data).value;
        WritesPieces(c, random, next, typ, data[m..]);
        var rest := Pieces(c, random, next, typ, data[m..]);
        assert ([data[..m]] + rest)[1..] == rest;
        assert data[..m] + data[m..] == data;
      }
    }
  }

  /** The first record whose size is chosen dynamically fits into one TCP segment. */
  lemma FirstFits(c: Crypto, random: nat -> octet, w: Writer, typ: octet, data: seq<octet>)
    requires Sound(c) && w.half.Valid() && Suite(c, w.half)
    requires Growing(w.sizing, typ) && w.sizing.packetsSent == 0 && data != []
    ensures match Step(c, random, w, typ, data) case None => true case Some((_, record, _)) =>
            |record| <= TCP_MSS_ESTIMATE
  {
    hide Seal, MaxPayload, Prefix, ExplicitIV, Suite, WireLen, SegmentRoom, Drawn;
    var (room, z) := MaxPayload(c, w.half, typ, w.sizing);
    SegmentRoomExact(c, w.half, room);
    SegmentRoomExact(c, w.half, Shorter(data, room));
    StepKeeps(c, random, w, typ, data);
  }

  // ----- The writer

  class Conn {
    const crypto: Crypto
    const out: Direction
    const random: nat -> octet
    const dynamicRecordSizingDisabled: bool
    var vers: nat
    var drawn: nat
    var bytesSent: nat
    var packetsSent: nat
    var buffering: bool
    var sendBuf: seq<octet>
    var network: seq<octet>

    constructor (out: Direction, random: nat -> octet, dynamicRecordSizingDisabled: bool)
      requires out.Valid() && Suite(out.crypto, out.Value()) && SuiteNext(out.crypto, out.next)
      ensures Valid() && Wire() == [] && this.out == out
      ensures State() == Writer(out.Value(), 0, Sizing(dynamicRecordSizingDisabled, false, 0, 0), 0)
    {
      crypto, this.out, this.random := out.crypto, out, random;
      this.dynamicRecordSizingDisabled := dynamicRecordSizingDisabled;
      vers, drawn, bytesSent, packetsSent := 0, 0, 0, 0;
      buffering, sendBuf, network := false, [], [];
    }

    ghost predicate Valid()
      reads this, out, out.seqNo
    {
      && out.Valid() && out.crypto == crypto && Suite(crypto, out.Value()) && SuiteNext(crypto, out.next)
      && (!buffering ==> sendBuf == [])
    }

    function State(): Writer
      reads this, out, out.seqNo
    {
      Writer(out.Value(), vers, Sizing(dynamicRecordSizingDisabled, buffering, bytesSent, packetsSent), drawn)
    }

    /** All that has been written, whether it has left or not. */
    function Wire(): seq<octet>
      reads this
    {
      network + sendBuf
    }

    /** write */
    method Write(data: seq<octet>)
      requires buffering || sendBuf == []
      modifies this`bytesSent, this`sendBuf, this`network
      ensures Wire() == old(Wire()) + data && (buffering || sendBuf == [])
      ensures State() == old(State()).(sizing := old(State()).sizing.Counting(|data|))
    {
      if buffering {
        sendBuf := sendBuf + data;
      } else {
        network := network + data;
        bytesSent := bytesSent + |data|;
      }
    }

    method Flush()
      requires Valid()
      modifies this`bytesSent, this`buffering, this`sendBuf, this`network
      ensures Valid() && Wire() == old(Wire()) && sendBuf == []
      ensures bytesSent == old(bytesSent) + |old(sendBuf)|
      ensures buffering == (old(buffering) && old(sendBuf) == [])
    {
      if |sendBuf| == 0 {
        return;
      }
      network := network + sendBuf;
      bytesSent := bytesSent + |sendBuf|;
      sendBuf := [];
      buffering := false;
    }

    method MaxPayloadSizeForWrite(typ: octet, explicitIVLen: nat) returns (n: nat)
      requires Valid() && explicitIVLen == out.Value().ExplicitLen()
      modifies this`packetsSent
      ensures var (room, z) := MaxPayload(crypto, out.Value(), typ, old(State()).sizing);
              n == room && State() == old(State()).(sizing := z)
    {
      if dynamicRecordSizingDisabled || typ != APPLICATION_DATA {
        return MAX_PLAINTEXT;
      }
      if bytesSent >= RECORD_SIZE_BOOST_THRESHOLD {
        return MAX_PLAINTEXT;
      }
      SegmentRoomExact(crypto, out.Value(), 0);
      var macSize := if out.mac.Some? then crypto.macSize(out.mac.value) else 0;
      var payloadBytes := TCP_MSS_ESTIMATE - HEADER_LEN - explicitIVLen;
      match out.cipher {
        case Clear =>
        case Stream(_, _) =>
          payloadBytes := payloadBytes - macSize;
        case Aead(_, _, _) =>
          payloadBytes := payloadBytes - crypto.overhead;
        case Cbc(_, iv) =>
          payloadBytes := payloadBytes - payloadBytes % |iv| - 1;
          payloadBytes := payloadBytes - macSize;
      }
      var pkt := packetsSent;
      packetsSent := packetsSent + 1;
      if pkt > 1000 {
        return MAX_PLAINTEXT;
      }
      AtLeast(payloadBytes, pkt + 1);
      n := payloadBytes * (pkt + 1);
      if n > MAX_PLAINTEXT {
        n := MAX_PLAINTEXT;
      }
    }

    method ExplicitIVLen() returns (n: nat, isSeq: bool)
      ensures n == out.Value().ExplicitLen() && isSeq == (n > 0 && out.cipher.Aead?)
    {
      n, isSeq := 0, false;
      if out.version >= TLS11 && out.cipher.Cbc? {
        n := |out.cipher.iv|;
      }
      if n == 0 && out.cipher.Aead? {
        n := if out.cipher.explicitNonce then 8 else 0;
        isSeq := n > 0;
      }
    }

    method FillExplicitIV(n: nat, isSeq: bool) returns (explicitIV: seq<octet>)
      requires out.Valid() && n == out.Value().ExplicitLen() && isSeq == (n > 0 && out.cipher.Aead?)
      modifies this`drawn
      ensures explicitIV == ExplicitIV(out.Value(), random, old(drawn))
      ensures drawn == old(drawn) + Drawn(out.Value())
    {
      explicitIV := [];
      if n > 0 {
        if isSeq {
          explicitIV := out.seqNo[..];
        } else {
          var from := drawn;
          explicitIV := seq(n, i requires 0 <= i < n => random(from + i));
          drawn := drawn + n;
        }
      }
    }

    method SealOne(prefix: seq<octet>, explicitIV: seq<octet>, m: seq<octet>) returns (ok: bool, record: seq<octet>)
      requires out.Valid() && |prefix| == 3 && |explicitIV| == out.Value().ExplicitLen()
      modifies out`cipher, out.seqNo
      ensures var sealed := Seal(out.crypto, old(out.Value()), prefix, explicitIV, m);
              && ok == sealed.Some? && (ok ==> sealed == Some((record, out.Value())))
    {
      hide Seal, Fits, Sound;
      var n := |m|;
      var b := new Block(prefix + [Hi(n), Lo(n)] + explicitIV + m);
      var start := HEADER_LEN + |explicitIV|;
      assert b.data[..3] == prefix && b.data[3..HEADER_LEN] == [Hi(n), Lo(n)];
      assert b.data[HEADER_LEN..start] == explicitIV && b.data[start..] == m;
      ok := out.Encrypt(b, |explicitIV|);
      record := b.data;
    }

    /** One turn of the loop in writeRecordLocked. */
    method WriteOne(typ: octet, data: seq<octet>) returns (ok: bool, m: nat)
      requires Valid() && data != []
      modifies this`drawn, this`packetsSent, this`bytesSent, this`sendBuf, this`network, out`cipher, out.seqNo
      ensures match Step(crypto, random, old(State()), typ, data)
              case None => !ok
              case Some((k, record, next)) =>
                ok && Valid() && m == k && State() == next && Wire() == old(Wire()) + record
    {
      hide Seal, MaxPayload, Suite, SegmentRoom, WireLen, Fits, Sound, Drawn, Prefix;
      ghost var w := State();
      StepKeeps(crypto, random, w, typ, data);
      var explicitIVLen, explicitIVIsSeq := ExplicitIVLen();
      m := |data|;
      var maxPayload := MaxPayloadSizeForWrite(typ, explicitIVLen);
      if m > maxPayload {
        m := maxPayload;
      }
      var explicitIV := FillExplicitIV(explicitIVLen, explicitIVIsSeq);
      var record;
      ok, record := SealOne(Prefix(typ, vers), explicitIV, data[..m]);
      if ok {
        Write(record);
      }
    }

    /** The loop of writeRecordLocked. */
    method WritePieces(typ: octet, data: seq<octet>) returns (ok: bool)
      requires Valid()
      modifies this`drawn, this`packetsSent, this`bytesSent, this`sendBuf, this`network, out`cipher, out.seqNo
      ensures match WriteAll(crypto, random, old(State()), typ, data)
              case None => !ok
              case Some((wire, next)) => ok && Valid() && Wire() == old(Wire()) + wire && State() == next
    {
      hide Step, Suite, Fits, Seal, Sound, SuiteNext, Drawn, WireLen, ExplicitIV, Prefix;
      var rest := data;
      ghost var written: seq<octet> := [];
      PrependedNone(WriteAll(crypto, random, State(), typ, data));
      while rest != []
        invariant Valid() && Wire() == old(Wire()) + written
        invariant WriteAll(crypto, random, old(State()), typ, data) ==
                  Prepended(written, WriteAll(crypto, random, State(), typ, rest))
        decreases |rest|
      {
        ghost var w := State();
        StepKeeps(crypto, random, w, typ, rest);
        var stepped, m := WriteOne(typ, rest);
        if !stepped {
          return false;
        }
        ghost var record := Step(crypto, random, w, typ, rest).value.1;
        PrependedTwice(written, record, WriteAll(crypto, random, State(), typ, rest[m..]));
        written := written + record;
        rest := rest[m..];
      }
      ok := true;
    }

    /** writeRecordLocked; false where the source panics or answers with an alert. */
    method WriteRecordLocked(typ: octet, data: seq<octet>) returns (ok: bool)
      requires Valid()
      modifies this`drawn, this`packetsSent, this`bytesSent, this`sendBuf, this`network, out, out.seqNo
      ensures match WriteAll(crypto, random, old(State()), typ, data)
              case None => !ok
              case Some((wire, next)) =>
                && (ok ==> Valid() && Wire() == old(Wire()) + wire)
                && ok == (typ != CHANGE_CIPHER_SPEC || old(out.next).Some?)
                && (ok ==> State() == next.(half := if typ == CHANGE_CIPHER_SPEC then
                   Switched(next.half, old(out.next)).value else next.half))
    {
      hide WriteAll, Fits, Sound;
      ok := WritePieces(typ, data);
      if ok && typ == CHANGE_CIPHER_SPEC {
        ok := out.ChangeCipherSpec();
      }
    }
  }

  function Prepended(s: seq<octet>, r: Option<(seq<octet>, Writer)>): Option<(seq<octet>, Writer)> {
    match r
    case None => None
    case Some((wire, w)) => Some((s + wire, w))
  }

  lemma PrependedNone(r: Option<(seq<octet>, Writer)>)
    ensures Prepended([], r) == r
  {
    if r.Some? {
      assert [] + r.value.0 == r.value.0;
    }
  }

  lemma PrependedTwice(s: seq<octet>, t: seq<octet>, r: Option<(seq<octet>, Writer)>)
    ensures Prepended(s, Prepended(t, r)) == Prepended(s + t, r)
  {
    if r.Some? {
      assert s + (t + r.value.0) == s + t + r.value.0;
    }
  }
}
