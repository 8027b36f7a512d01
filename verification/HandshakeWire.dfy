/**
 The queues of a joint handshake as bytes: every packet is written by the record layer of one side, and
 the record layer of the other side reads the same messages and key changes out of these bytes.
 */
module HandshakeWire {
  import opened Bytes
  import opened Handshake
  import opened HandshakeLaws
  import C = HalfConn
  import D = Record
  import O = Outgoing
  import I = Incoming
  import P = Padding

  type Text = seq<P.octet>

  type Prepared = Option<(C.Cipher, Option<C.Key>)>

  /** What both sides bring besides: cryptography, what a suite makes of keys, marshal, and whether they renegotiate. */
  datatype Net = Net(
    crypto: C.Crypto,
    random: nat -> P.octet,
    suite: Keys -> (C.Cipher, Option<C.Key>),
    marshal: Msg -> Text,
    renegotiates: bool)

  ghost predicate Usable(net: Net, w: World) {
    && C.Sound(net.crypto) && 0 < w.vers < 0x1000
    && forall k :: D.Fits(Some(net.suite(k))) && O.SuiteNext(net.crypto, Some(net.suite(k)))
  }

  // ----- Records of a packet

  /** Data that is not application data is cut into records of full size. */
  function Cut(data: Text): seq<Text>
    decreases |data|
  {
    if data == [] then []
    else
      var m := O.Shorter(data, O.MAX_PLAINTEXT);
      [data[..m]] + Cut(data[m..])
  }

  lemma {:induction false} CutJoins(data: Text)
    ensures Join(Cut(data)) == data
    ensures forall p | p in Cut(data) :: 1 <= |p| <= O.MAX_PLAINTEXT
    decreases |data|
  {
    if data != [] {
      var m := O.Shorter(data, O.MAX_PLAINTEXT);
      CutJoins(data[m..]);
      var rest := Cut(data[m..]);
      assert Cut(data) == [data[..m]] + rest && Cut(data)[0] == data[..m] && Cut(data)[1..] == rest;
      assert data[..m] + data[m..] == data;
    }
  }

  lemma {:induction false} CutFew(data: Text)
    ensures |Cut(data)| <= |data| / O.MAX_PLAINTEXT + 1
    decreases |data|
  {
    if |data| > O.MAX_PLAINTEXT {
      CutFew(data[O.MAX_PLAINTEXT..]);
    } else if data != [] {
      assert data[|data|..] == [] && Cut([]) == [];
    }
  }

  /** These are the pieces that writeRecordLocked makes of such data, whatever has been sent before. */
  lemma {:induction false} WritesCut(c: C.Crypto, random: nat -> P.octet, w: O.Writer, typ: P.octet, data: Text)
    requires C.Sound(c) && w.half.Valid() && O.Suite(c, w.half) && typ != O.APPLICATION_DATA
    requires O.WriteAll(c, random, w, typ, data).Some?
    ensures O.Pieces(c, random, w, typ, data) == Cut(data)
    decreases |data|
  {
    hide C.Sound, C.Seal, O.Prefix, O.ExplicitIV, O.Suite, O.Drawn, O.WireLen, C.Half.Valid;
    if data != [] {
      O.StepKeeps(c, random, w, typ, data);
      assert O.MaxPayload(c, w.half, typ, w.sizing).0 == O.MAX_PLAINTEXT;
      var (m, _, next) := O.Step(c, random, w, typ, data).value;
      WritesCut(c, random, next, typ, data[m..]);
    }
  }

  function TypeOf(content: Content): P.octet {
    if content.Message? then O.HANDSHAKE else O.CHANGE_CIPHER_SPEC
  }

  /** What a packet says, in bytes. */
  function TextOf(net: Net, content: Content): Text {
    if content.Message? then net.marshal(content.m) else [1]
  }

  /** The offer is written before the version is known. */
  function VersOf(w: World, content: Content): nat {
    if content.Message? && content.m.ClientHello? then 0 else w.vers
  }

  function After(net: Net, h: C.Half, content: Content): C.Half {
    match content
    case Message(_) => h
    case ChangeCipherSpec(to) => D.Switched(h, Some(net.suite(to))).value
  }

  /** A message that readHandshake takes, in as many records as the joint runs count for it. */
  predicate Proper(net: Net, p: Packet) {
    p.records == |Cut(TextOf(net, p.content))| && (p.content.Message? ==> I.Message(net.marshal(p.content.m)))
  }

  predicate AllProper(net: Net, queue: seq<Packet>) {
    forall p | p in queue :: Proper(net, p)
  }

  lemma OneByteCut()
    ensures Cut([1]) == [[1]]
  {
    var data: Text := [1];
    assert data[..1] == data && data[1..] == [] && Cut(data[1..]) == [];
  }

  lemma ProperFew(net: Net, p: Packet)
    requires Proper(net, p)
    ensures |Cut(TextOf(net, p.content))| <= 5
  {
    hide Cut;
    OneByteCut();
    CutFew(TextOf(net, p.content));
  }

  // ----- States

  /** The same key in use, however far the cipher has gone. */
  predicate SameCipher(a: C.Cipher, b: C.Cipher) {
    match a
    case Clear => b.Clear?
    case Stream(key, _) => b.Stream? && b.key == key
    case Aead(_, _, _) => b == a
    case Cbc(key, iv) => b.Cbc? && b.key == key && |b.iv| == |iv|
  }

  /** `h` is a record layer state under the keys and at the number of `d`. */
  ghost predicate Describes(net: Net, d: Half, h: C.Half) {
    && h.Valid() && O.Suite(net.crypto, h) && C.BigEndian(h.seqNo) == d.seqNo
    && match d.keys
       case None => h.cipher.Clear? && h.mac == None
       case Some(k) => SameCipher(net.suite(k).0, h.cipher) && h.mac == net.suite(k).1
  }

  /** Going on under the same keys, `n` records later. */
  ghost predicate Onward(net: Net, h: C.Half, last: C.Half, n: nat) {
    && last.Valid() && (O.Suite(net.crypto, h) ==> O.Suite(net.crypto, last))
    && last.mac == h.mac && SameCipher(h.cipher, last.cipher)
    && C.BigEndian(last.seqNo) == C.BigEndian(h.seqNo) + n
  }

  lemma ProtectOnward(net: Net, h: C.Half, prefix: Text, iv: Text, m: Text)
    requires C.Sound(net.crypto) && h.Valid() && |iv| == h.ExplicitLen()
    ensures SameCipher(h.cipher, C.Protect(net.crypto, h, prefix, iv, m).1)
  {
    hide C.Xor, C.Keystream, C.RealNonce, C.AdditionalData;
    if h.cipher.Cbc? {
      var chain := h.cipher.iv;
      var padded := P.Padded(m, |chain|);
      C.WholeExactly(|padded|, |chain|);
      C.CbcInverse(net.crypto, h.cipher.key, if iv == [] then chain else iv, padded);
    }
  }

  lemma SealOnward(net: Net, h: C.Half, prefix: Text, iv: Text, m: Text)
    requires C.Sound(net.crypto) && h.Valid() && |prefix| == 3 && |iv| == h.ExplicitLen()
    ensures var sealed := C.Seal(net.crypto, h, prefix, iv, m); sealed.Some? ==> Onward(net, h, sealed.value.1, 1)
  {
    hide O.Suite, C.MacOf, C.BigEndian, C.Increment, O.WireLen, C.Protect, SameCipher, C.Half.Valid;
    O.SealKeepsValid(net.crypto, h, prefix, iv, m);
    ProtectOnward(net, h, prefix, iv, m + C.MacOf(net.crypto, h, prefix, m));
    C.IncrementExact(h.seqNo);
  }

  lemma {:induction false} SealAllOnward(net: Net, h: C.Half, prefix: Text, drawn: nat, pieces: seq<Text>)
    requires C.Sound(net.crypto) && h.Valid() && |prefix| == 3
    ensures var sealed := O.SealAll(net.crypto, net.random, h, prefix, drawn, pieces);
            sealed.Some? ==> Onward(net, h, sealed.value.1, |pieces|)
    decreases |pieces|
  {
    hide C.Seal, O.Suite, O.ExplicitIV, O.Drawn, C.BigEndian, C.Half.Valid, O.WireLen;
    if pieces != [] {
      var iv := O.ExplicitIV(h, net.random, drawn);
      SealOnward(net, h, prefix, iv, pieces[0]);
      var first := C.Seal(net.crypto, h, prefix, iv, pieces[0]);
      if first.Some? {
        SealAllOnward(net, first.value.1, prefix, drawn + O.Drawn(h), pieces[1..]);
      }
    }
  }

  // ----- The queue on the wire

  ghost predicate Working(net: Net, out: O.Writer) {
    C.Sound(net.crypto) && out.half.Valid() && O.Suite(net.crypto, out.half)
  }

  /** writeRecordLocked for one packet, and the writer behind it; None when a number would wrap. */
  ghost function PacketBytes(net: Net, w: World, out: O.Writer, content: Content): Option<(Text, O.Writer)>
    requires Working(net, out)
  {
    match O.WriteAll(net.crypto, net.random, out.(vers := VersOf(w, content)), TypeOf(content), TextOf(net, content))
    case None => None
    case Some((bytes, next)) => Some((bytes, next.(half := After(net, next.half, content))))
  }

  /** These bytes are sealed records. */
  lemma PacketSealed(net: Net, w: World, out: O.Writer, content: Content)
    requires Usable(net, w) && Working(net, out)
    ensures var r := PacketBytes(net, w, out, content);
            r.Some? ==>
              var sealed := O.SealAll(net.crypto, net.random, out.half, O.Prefix(TypeOf(content), VersOf(w, content)),
                                      out.drawn, Cut(TextOf(net, content)));
              && sealed.Some? && sealed.value.0 == r.value.0
              && r.value.1.half == After(net, sealed.value.1, content) && Working(net, r.value.1)
  {
    hide O.WriteAll, O.SealAll, O.Pieces, Cut, C.Sound, O.Prefix, C.BigEndian;
    var (typ, text, start) := (TypeOf(content), TextOf(net, content), out.(vers := VersOf(w, content)));
    O.WritesPieces(net.crypto, net.random, start, typ, text);
    var written := O.WriteAll(net.crypto, net.random, start, typ, text);
    if written.Some? {
      WritesCut(net.crypto, net.random, start, typ, text);
      if content.ChangeCipherSpec? {
        assert D.Fits(Some(net.suite(content.to))) && O.SuiteNext(net.crypto, Some(net.suite(content.to)));
      }
    }
  }

  /** Keys and numbers of the joint runs are those of the record layer behind the packet. */
  lemma PacketPast(net: Net, w: World, d: Half, out: O.Writer, p: Packet)
    requires Usable(net, w) && Describes(net, d, out.half) && Proper(net, p)
    ensures var r := PacketBytes(net, w, out, p.content); r.Some? ==> Describes(net, Past(d, p), r.value.1.half)
  {
    hide PacketBytes, O.SealAll, C.BigEndian, Cut, I.Message;
    PacketSealed(net, w, out, p.content);
    var prefix := O.Prefix(TypeOf(p.content), VersOf(w, p.content));
    SealAllOnward(net, out.half, prefix, out.drawn, Cut(TextOf(net, p.content)));
    if p.content.ChangeCipherSpec? {
      assert D.Fits(Some(net.suite(p.content.to)));
    }
  }

  ghost function QueueBytes(net: Net, w: World, out: O.Writer, queue: seq<Packet>): Option<(Text, O.Writer)>
    requires Usable(net, w) && Working(net, out)
    decreases |queue|
  {
    if queue == [] then Some(([], out))
    else
      PacketSealed(net, w, out, queue[0].content);
      match PacketBytes(net, w, out, queue[0].content)
      case None => None
      case Some((first, next)) =>
        match QueueBytes(net, w, next, queue[1..])
        case None => None
        case Some((rest, last)) => Some((first + rest, last))
  }

  lemma QueueStep(net: Net, w: World, out: O.Writer, queue: seq<Packet>)
    requires Usable(net, w) && Working(net, out) && queue != []
    ensures var (first, all) := (PacketBytes(net, w, out, queue[0].content), QueueBytes(net, w, out, queue));
            if first == None then all == None
            else
              Working(net, first.value.1) &&
              var rest := QueueBytes(net, w, first.value.1, queue[1..]);
              all == if rest == None then None else Some((first.value.0 + rest.value.0, rest.value.1))
  {
    hide PacketBytes, Working, Usable;
    PacketSealed(net, w, out, queue[0].content);
  }

  /** What is written in two goes is what is written in one. */
  lemma {:induction false} QueueJoin(net: Net, w: World, out: O.Writer, a: seq<Packet>, b: seq<Packet>)
    requires Usable(net, w) && Working(net, out)
    ensures var (x, all) := (QueueBytes(net, w, out, a), QueueBytes(net, w, out, a + b));
            x.Some? ==>
              Working(net, x.value.1) &&
              var y := QueueBytes(net, w, x.value.1, b);
              all == if y == None then None else Some((x.value.0 + y.value.0, y.value.1))
    decreases |a|
  {
    hide PacketBytes, Working, Usable;
    if a == [] {
      assert a + b == b;
      var y := QueueBytes(net, w, out, b);
      if y.Some? {
        assert [] + y.value.0 == y.value.0;
      }
    } else {
      assert (a + b)[0] == a[0] && (a + b)[1..] == a[1..] + b;
      QueueStep(net, w, out, a);
      QueueStep(net, w, out, a + b);
      var first := PacketBytes(net, w, out, a[0].content);
      if first.Some? {
        QueueJoin(net, w, first.value.1, a[1..], b);
        var rest := QueueBytes(net, w, first.value.1, a[1..]);
        if rest.Some? {
          var y := QueueBytes(net, w, rest.value.1, b);
          if y.Some? {
            assert (first.value.0 + rest.value.0) + y.value.0 == first.value.0 + (rest.value.0 + y.value.0);
          }
        }
      }
    }
  }

  /** Along a linked queue the record layer goes from the state of one end to that of the other. */
  lemma {:induction false} QueuePast(net: Net, w: World, d: Half, queue: seq<Packet>, e: Half, out: O.Writer)
    requires Usable(net, w) && Describes(net, d, out.half) && AllProper(net, queue) && Linked(d, queue, e)
    ensures var r := QueueBytes(net, w, out, queue); r.Some? ==> Describes(net, e, r.value.1.half)
    decreases |queue|
  {
    hide PacketBytes, O.Suite, C.BigEndian, SameCipher, Proper;
    if queue != [] {
      QueueStep(net, w, out, queue);
      PacketPast(net, w, d, out, queue[0]);
      var first := PacketBytes(net, w, out, queue[0].content);
      if first.Some? {
        QueuePast(net, w, Past(d, queue[0]), queue[1..], e, first.value.1);
      }
    }
  }

  // ----- No number wraps

  const ROOM := 0xFFFF

  lemma AllOnes(s: Text)
    requires |s| == 8 && forall b | b in s :: b == 0xFF
    ensures C.BigEndian(s) >= ROOM
  {
    var t := s[..7];
    assert s[7] in s && t[6] == s[6] && s[6] in s;
    assert C.BigEndian(t) >= 255;
  }

  lemma SealsSome(net: Net, h: C.Half, prefix: Text, iv: Text, m: Text)
    requires C.Sound(net.crypto) && h.Valid() && |prefix| == 3 && |iv| == h.ExplicitLen() && C.BigEndian(h.seqNo) < ROOM
    ensures C.Seal(net.crypto, h, prefix, iv, m).Some?
  {
    hide C.Protect, C.MacOf, C.BigEndian, C.Sound;
    C.IncrementExact(h.seqNo);
    if C.Increment(h.seqNo) == None {
      AllOnes(h.seqNo);
    }
  }

  lemma {:induction false} WritesSome(net: Net, out: O.Writer, typ: P.octet, data: Text)
    requires Working(net, out) && typ != O.APPLICATION_DATA && C.BigEndian(out.half.seqNo) + |Cut(data)| < ROOM
    ensures O.WriteAll(net.crypto, net.random, out, typ, data).Some?
    decreases |data|
  {
    hide C.Sound, C.Seal, O.Prefix, O.ExplicitIV, O.Suite, O.Drawn, O.WireLen, C.Half.Valid, C.BigEndian, SameCipher;
    if data != [] {
      var m := O.Shorter(data, O.MAX_PLAINTEXT);
      assert O.MaxPayload(net.crypto, out.half, typ, out.sizing).0 == O.MAX_PLAINTEXT;
      var prefix, iv := O.Prefix(typ, out.vers), O.ExplicitIV(out.half, net.random, out.drawn);
      assert Cut(data)[1..] == Cut(data[m..]);
      SealsSome(net, out.half, prefix, iv, data[..m]);
      SealOnward(net, out.half, prefix, iv, data[..m]);
      O.StepKeeps(net.crypto, net.random, out, typ, data);
      var (_, _, next) := O.Step(net.crypto, net.random, out, typ, data).value;
      WritesSome(net, next, typ, data[m..]);
    }
  }

  /** A packet takes five numbers at the most. */
  lemma PacketRoom(net: Net, w: World, out: O.Writer, p: Packet)
    requires Usable(net, w) && Working(net, out) && Proper(net, p) && C.BigEndian(out.half.seqNo) + 5 < ROOM
    ensures var r := PacketBytes(net, w, out, p.content);
            r.Some? && C.BigEndian(r.value.1.half.seqNo) <= C.BigEndian(out.half.seqNo) + 5
  {
    hide O.WriteAll, O.SealAll, C.BigEndian, Cut, C.Sound, O.Suite, I.Message;
    var typ, text := TypeOf(p.content), TextOf(net, p.content);
    ProperFew(net, p);
    WritesSome(net, out.(vers := VersOf(w, p.content)), typ, text);
    PacketSealed(net, w, out, p.content);
    SealAllOnward(net, out.half, O.Prefix(typ, VersOf(w, p.content)), out.drawn, Cut(text));
  }

  lemma {:induction false} QueueRoom(net: Net, w: World, out: O.Writer, queue: seq<Packet>)
    requires Usable(net, w) && Working(net, out) && AllProper(net, queue)
    requires C.BigEndian(out.half.seqNo) + 5 * |queue| < ROOM
    ensures var r := QueueBytes(net, w, out, queue);
            r.Some? && C.BigEndian(r.value.1.half.seqNo) <= C.BigEndian(out.half.seqNo) + 5 * |queue|
    decreases |queue|
  {
    hide PacketBytes, Usable, Working, C.BigEndian, Proper;
    if queue != [] {
      QueueStep(net, w, out, queue);
      PacketRoom(net, w, out, queue[0]);
      QueueRoom(net, w, PacketBytes(net, w, out, queue[0].content).value.1, queue[1..]);
    }
  }

  // ----- Reading it

  /** What the reader knows by then and which keys it has prepared suit the packet. */
  predicate Ready(net: Net, w: World, content: Content, ctx: I.Context, next: Prepared) {
    && I.Matches(ctx, O.HANDSHAKE, VersOf(w, content)) && D.Fits(next)
    && (content.ChangeCipherSpec? ==> next == Some(net.suite(content.to)))
  }

  lemma OneRecord(net: Net, h: C.Half, prefix: Text, drawn: nat, m: Text)
    requires C.Sound(net.crypto) && h.Valid() && |prefix| == 3
    ensures O.SealAll(net.crypto, net.random, h, prefix, drawn, [m])
            == C.Seal(net.crypto, h, prefix, O.ExplicitIV(h, net.random, drawn), m)
  {
    hide C.Seal, O.ExplicitIV, O.Drawn, C.Half.Valid;
    O.SealKeepsValid(net.crypto, h, prefix, O.ExplicitIV(h, net.random, drawn), m);
    assert [m][1..] == [];
    var r := C.Seal(net.crypto, h, prefix, O.ExplicitIV(h, net.random, drawn), m);
    if r.Some? {
      assert r.value.0 + [] == r.value.0;
    }
  }

  /** The reader takes a packet out of the bytes that were written for it, and ends in the writer's state. */
  lemma PacketArrives(net: Net, w: World, out: O.Writer, p: Packet, ctx: I.Context, next: Prepared, tail: Text)
    requires Usable(net, w) && Working(net, out) && Proper(net, p) && Ready(net, w, p.content, ctx, next)
    ensures var r := PacketBytes(net, w, out, p.content);
            r.Some? ==>
              && r.value.1.half.Valid()
              && if p.content.Message? then
                I.TakeMessage(net.crypto, out.half, next, ctx, [], r.value.0 + tail)
                == I.OneMessage(TextOf(net, p.content), [], r.value.1.half, tail)
              else
                I.Next(net.crypto, out.half, next, ctx, O.CHANGE_CIPHER_SPEC, r.value.0 + tail)
                == I.Got(O.CHANGE_CIPHER_SPEC, [1], r.value.1.half, tail)
  {
    hide PacketBytes, O.Suite, I.TakeMessage, I.Next, I.Matches, C.Seal, O.SealAll, O.Prefix, O.ExplicitIV, I.Message,
         C.Half.Valid, D.Fits, C.Sound;
    var text := TextOf(net, p.content);
    PacketSealed(net, w, out, p.content);
    CutJoins(text);
    if p.content.Message? {
      assert [] + text == text;
      I.TakesSealed(net.crypto, net.random, out.half, VersOf(w, p.content), out.drawn, [], Cut(text), tail, next, ctx);
    } else {
      OneByteCut();
      OneRecord(net, out.half, O.Prefix(O.CHANGE_CIPHER_SPEC, w.vers), out.drawn, [1]);
      I.ChangeOfSealed(net.crypto, net.random, out.half, w.vers, out.drawn, tail, next, ctx);
    }
  }

  /** What the reader knows, and the keys it has prepared, when a packet comes. */
  datatype View = View(ctx: I.Context, next: Prepared)

  predicate AllReady(net: Net, w: World, queue: seq<Packet>, views: seq<View>) {
    |views| == |queue| && forall i | 0 <= i < |queue| :: Ready(net, w, queue[i].content, views[i].ctx, views[i].next)
  }

  datatype Reading = Stuck | Readings(texts: seq<Text>, hand: Text, half: C.Half, rest: Text)

  function Behind(text: Text, r: Reading): Reading {
    match r
    case Stuck => Stuck
    case Readings(texts, hand, half, rest) => Readings([text] + texts, hand, half, rest)
  }

  /** The reader asks for a message or for a change of keys as the contents say, and goes on where it stands then. */
  function ReadBack(net: Net, h: C.Half, hand: Text, cs: seq<Content>, views: seq<View>, s: Text): Reading
    requires C.Sound(net.crypto) && h.Valid() && |views| == |cs| && forall v | v in views :: D.Fits(v.next)
    decreases |cs|
  {
    if cs == [] then Readings([], hand, h, s)
    else
      match cs[0]
      case Message(_) =>
        (match I.TakeMessage(net.crypto, h, views[0].next, views[0].ctx, hand, s)
         case NoMessage => Stuck
         case OneMessage(m, left, half, rest) => Behind(m, ReadBack(net, half, left, cs[1..], views[1..], rest)))
      case ChangeCipherSpec(_) =>
        var r := I.Next(net.crypto, h, views[0].next, views[0].ctx, O.CHANGE_CIPHER_SPEC, s);
        if r.Got? then Behind(r.data, ReadBack(net, r.half, hand, cs[1..], views[1..], r.rest)) else Stuck
  }

  function Texts(net: Net, cs: seq<Content>): seq<Text> {
    if cs == [] then [] else [TextOf(net, cs[0])] + Texts(net, cs[1..])
  }

  /**
   A queue arrives: a reader that is ready for each packet takes exactly its messages and key changes out of
   the bytes that were written from its own state on, and ends in the writer's state; along a linked queue that is
   the one the writer's keys and number describe.
   */
  lemma {:induction false} QueueArrives(net: Net, w: World, d: Half, queue: seq<Packet>, e: Half, out: O.Writer,
      views: seq<View>, tail: Text)
    requires Usable(net, w) && Describes(net, d, out.half) && AllProper(net, queue) && Linked(d, queue, e)
    requires AllReady(net, w, queue, views)
    ensures var r := QueueBytes(net, w, out, queue);
            r.Some? ==>
              && Describes(net, e, r.value.1.half) && (forall v | v in views :: D.Fits(v.next))
              && ReadBack(net, out.half, [], Contents(queue), views, r.value.0 + tail)
                 == Readings(Texts(net, Contents(queue)), [], r.value.1.half, tail)
    decreases |queue|
  {
    hide I.TakeMessage, I.Next, PacketBytes, O.Suite, D.Fits, I.Matches, C.BigEndian, SameCipher, Proper;
    if queue == [] {
      assert [] + tail == tail;
    } else {
      var p := queue[0];
      QueueStep(net, w, out, queue);
      PacketPast(net, w, d, out, p);
      var first := PacketBytes(net, w, out, p.content);
      if first.Some? {
        assert AllReady(net, w, queue[1..], views[1..]);
        var rest := QueueBytes(net, w, first.value.1, queue[1..]);
        QueueArrives(net, w, Past(d, p), queue[1..], e, first.value.1, views[1..], tail);
        if rest.Some? {
          PacketArrives(net, w, out, p, views[0].ctx, views[0].next, rest.value.0 + tail);
          assert (first.value.0 + rest.value.0) + tail == first.value.0 + (rest.value.0 + tail);
          assert Contents(queue)[0] == p.content && Contents(queue)[1..] == Contents(queue[1..]);
        }
      }
    }
  }
}
