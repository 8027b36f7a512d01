/** serverHelloMsg: internal/tls_hack/handshake_messages.go, RFC 5246 section 7.4.1.3. */
module ServerHello {
  import opened Bytes
  import opened Encoding
  import C = ClientHello

  datatype Hello = Hello(
    vers: word,
    random: Data,
    sessionID: Data,
    cipherSuite: word,
    compressionMethod: byte,
    nextProtoNeg: bool,
    nextProtos: seq<Data>,
    ocspStapling: bool,
    ticketSupported: bool,
    secureRenegotiationSupported: bool,
    secureRenegotiation: Data,
    alpnProtocol: Data,
    scts: seq<Data>)

  // ----- The encoding

  function Fields(m: Hello): Data {
    Word(m.vers) + Fixed(m.random, 32) + [|m.sessionID| % 256] + m.sessionID + Word(m.cipherSuite)
        + [m.compressionMethod]
  }

  function Cut(s: Data): (t: Data)
    ensures |t| <= 255 && (|s| <= 255 ==> t == s)
  {
    if |s| > 255 then s[..255] else s
  }

  /** Strings with a length byte each, cut to 255 bytes. */
  function CutStrings(ss: seq<Data>): Data {
    if ss == [] then [] else [|Cut(ss[0])|] + Cut(ss[0]) + CutStrings(ss[1..])
  }

  /** How many bytes cutting loses; the length fields count them all the same. */
  function Excess(ss: seq<Data>): nat {
    if ss == [] then 0 else |ss[0]| - |Cut(ss[0])| + Excess(ss[1..])
  }

  lemma {:induction false} CutLength(ss: seq<Data>)
    ensures |CutStrings(ss)| + Excess(ss) == StringsLen(ss)
    ensures Excess(ss) == 0 <==> forall s | s in ss :: |s| <= 255
    ensures Short(ss) ==> CutStrings(ss) == Strings(ss)
  {
    hide Cut;
    if ss != [] {
      CutLength(ss[1..]);
      assert ss == [ss[0]] + ss[1..];
      if Short(ss) {
        assert ss[0] in ss;
      }
    }
  }

  lemma {:induction false} CutAppend(ss: seq<Data>, t: Data)
    ensures CutStrings(ss + [t]) == CutStrings(ss) + ([|Cut(t)|] + Cut(t))
    ensures Excess(ss + [t]) == Excess(ss) + |t| - |Cut(t)|
  {
    if ss == [] {
      assert ss + [t] == [t] && [t][1..] == [] && CutStrings([t]) == [|Cut(t)|] + Cut(t) + [];
    } else {
      assert (ss + [t])[1..] == ss[1..] + [t];
      CutAppend(ss[1..], t);
    }
  }

  function E(i: nat, m: Hello): Data {
    if i == 0 then
      if m.nextProtoNeg then Word(C.NEXT_PROTO_NEG) + Word(StringsLen(m.nextProtos)) + CutStrings(m.nextProtos) else []
    else if i == 1 then if m.ocspStapling then Ext(C.STATUS_REQUEST, []) else []
    else if i == 2 then if m.ticketSupported then Ext(C.SESSION_TICKET, []) else []
    else if i == 3 then if m.secureRenegotiationSupported then C.Renegotiation(m.secureRenegotiation) else []
    else if i == 4 then
      if m.alpnProtocol == [] then []
      else Ext(C.ALPN, Word(1 + |m.alpnProtocol|) + [|m.alpnProtocol| % 256] + m.alpnProtocol)
    else if i == 5 then if m.scts == [] then [] else Ext(C.SCT, Word(|Blobs(m.scts)|) + Blobs(m.scts))
    else []
  }

  function From(i: nat, m: Hello): Data
    decreases 6 - i
  {
    if i >= 6 then [] else E(i, m) + From(i + 1, m)
  }

  function UpTo(i: nat, m: Hello): Data {
    if i == 0 then [] else UpTo(i - 1, m) + E(i - 1, m)
  }

  lemma {:induction false} UpToFrom(i: nat, m: Hello)
    requires i <= 6
    ensures UpTo(i, m) + From(i, m) == From(0, m)
  {
    hide E;
    if i > 0 {
      UpToFrom(i - 1, m);
      assert UpTo(i - 1, m) + E(i - 1, m) + From(i, m) == UpTo(i - 1, m) + (E(i - 1, m) + From(i, m));
    }
  }

  /** Bytes that the lengths announce and the cursor never reaches. */
  function Unreached(m: Hello): nat {
    if m.nextProtoNeg then Excess(m.nextProtos) else 0
  }

  function Extensions(m: Hello): Data {
    if From(0, m) == [] then [] else Word(|From(0, m)| + Unreached(m)) + From(0, m) + Zeros(Unreached(m))
  }

  function Body(m: Hello): Data {
    Fields(m) + Extensions(m)
  }

  /** marshal; None where the source panics. */
  function Encode(m: Hello): Option<Data> {
    if |m.alpnProtocol| >= 256 then None else Some(C.Header(2, |Body(m)|) + Body(m))
  }

  // ----- The decoding

  /** A message that holds nothing yet. */
  function New(): Hello {
    Hello(0, [], [], 0, 0, false, [], false, false, false, [], [], [])
  }

  /** The message `used` with the fixed fields filled in; renegotiation data is not cleared. */
  function Blank(used: Hello, vers: word, random: Data, sessionID: Data, suite: word, method_: byte): Hello {
    Hello(vers, random, sessionID, suite, method_, false, [], false, false, used.secureRenegotiationSupported,
        used.secureRenegotiation, [], [])
  }

  function Apply(m: Hello, typ: word, d: Data): Option<Hello> {
    if typ == C.NEXT_PROTO_NEG then
      match ToStrings(d)
      case None => None
      case Some(ss) => Some(m.(nextProtoNeg := true, nextProtos := m.nextProtos + ss))
    else if typ == C.STATUS_REQUEST then
      if |d| > 0 then None else Some(m.(ocspStapling := true))
    else if typ == C.SESSION_TICKET then
      if |d| > 0 then None else Some(m.(ticketSupported := true))
    else if typ == C.RENEGOTIATION_INFO then
      if |d| == 0 || d[0] != |d| - 1 then None
      else Some(m.(secureRenegotiation := d[1..], secureRenegotiationSupported := true))
    else if typ == C.ALPN then
      if |d| < 3 || ToWord(d[0], d[1]) != |d| - 2 || d[2] != |d| - 3 || |d| == 3 then None
      else Some(m.(alpnProtocol := d[3..]))
    else if typ == C.SCT then
      if |d| < 2 || |d| - 2 != ToWord(d[0], d[1]) || |d| == 2 then None
      else
        match ToBlobs(d[2..])
        case None => None
        case Some(ss) => Some(m.(scts := ss))
    else Some(m)
  }

  function ApplyAll(m: Hello, data: Data): Option<Hello>
    decreases |data|
  {
    if data == [] then Some(m)
    else if |data| < 4 then None
    else
      var n := ToWord(data[2], data[3]);
      if |data| - 4 < n then None
      else
        match Apply(m, ToWord(data[0], data[1]), data[4..4 + n])
        case None => None
        case Some(m') => ApplyAll(m', data[4 + n..])
  }

  function DecodeExtensions(m: Hello, data: Data): Option<Hello> {
    if data == [] then Some(m)
    else if |data| < 2 || ToWord(data[0], data[1]) != |data| - 2 then None
    else ApplyAll(m, data[2..])
  }

  function DecodeSuite(used: Hello, vers: word, random: Data, sessionID: Data, data: Data): Option<Hello> {
    if |data| < 3 then None
    else DecodeExtensions(Blank(used, vers, random, sessionID, ToWord(data[0], data[1]), data[2]), data[3..])
  }

  /** unmarshal, into a message that may have been used before. */
  function DecodeInto(used: Hello, data: Data): Option<Hello> {
    if |data| < 42 || data[38] > 32 || |data| < 39 + data[38] then None
    else DecodeSuite(used, ToWord(data[4], data[5]), data[6..38], data[39..39 + data[38]], data[39 + data[38]..])
  }

  /** unmarshal, into a new message. */
  function Decode(data: Data): Option<Hello> {
    DecodeInto(New(), data)
  }

  // ----- When a message comes back

  predicate Shaped(m: Hello) {
    && |m.random| == 32 && |m.sessionID| <= 32
    && Short(m.nextProtos) && (m.nextProtos != [] ==> m.nextProtoNeg)
    && |m.secureRenegotiation| <= 255 && (m.secureRenegotiation != [] ==> m.secureRenegotiationSupported)
    && |m.alpnProtocol| <= 255 && Sized(m.scts)
  }

  predicate Representable(m: Hello) {
    Shaped(m) && |m.secureRenegotiation| <= 254 && |From(0, m)| < 0x1_0000
  }

  function Known(i: nat, m: Hello): Hello {
    Hello(m.vers, m.random, m.sessionID, m.cipherSuite, m.compressionMethod,
          i > 0 && m.nextProtoNeg,
          if i > 0 then m.nextProtos else [],
          i > 1 && m.ocspStapling,
          i > 2 && m.ticketSupported,
          i > 3 && m.secureRenegotiationSupported,
          if i > 3 then m.secureRenegotiation else [],
          if i > 4 then m.alpnProtocol else [],
          if i > 5 then m.scts else [])
  }

  lemma ApplyAllExt(m: Hello, typ: word, body: Data, rest: Data)
    requires |body| < 0x1_0000
    ensures ApplyAll(m, Ext(typ, body) + rest) ==
            match Apply(m, typ, body) case None => None case Some(m') => ApplyAll(m', rest)
  {
    hide Apply, Ext, ToWord;
    ExtFront(typ, body, rest);
  }

  /** The `i`th extension fills in exactly its own fields. */
  lemma Fills(i: nat, m: Hello, rest: Data)
    requires i < 6 && Shaped(m) && (i == 3 ==> |m.secureRenegotiation| <= 254) && |E(i, m)| < 0x1_0000
    ensures ApplyAll(Known(i, m), E(i, m) + rest) == ApplyAll(Known(i + 1, m), rest)
  {
    assert [] + rest == rest;
    if i == 0 {
      FillsProtocols(m, rest);
    } else if i == 1 || i == 2 {
      FillsSimple(i, m, rest);
    } else if i == 3 {
      FillsRenegotiation(m, rest);
    } else if i == 4 {
      FillsAlpn(m, rest);
    } else {
      FillsScts(m, rest);
    }
  }

  lemma FillsSimple(i: nat, m: Hello, rest: Data)
    requires i == 1 || i == 2
    ensures ApplyAll(Known(i, m), E(i, m) + rest) == ApplyAll(Known(i + 1, m), rest)
  {
    hide ApplyAll;
    assert [] + rest == rest;
    if i == 1 && m.ocspStapling {
      ApplyAllExt(Known(1, m), C.STATUS_REQUEST, [], rest);
    } else if i == 2 && m.ticketSupported {
      ApplyAllExt(Known(2, m), C.SESSION_TICKET, [], rest);
    }
  }

  lemma FillsProtocols(m: Hello, rest: Data)
    requires Shaped(m) && |E(0, m)| < 0x1_0000
    ensures ApplyAll(Known(0, m), E(0, m) + rest) == ApplyAll(Known(1, m), rest)
  {
    hide ApplyAll, Word, ToWord, ToStrings, Short;
    assert [] + rest == rest;
    var ss := m.nextProtos;
    if m.nextProtoNeg {
      CutLength(ss);
      StringsLength(ss);
      hide Strings, StringsLen, CutStrings;
      assert E(0, m) == Ext(C.NEXT_PROTO_NEG, Strings(ss));
      ApplyAllExt(Known(0, m), C.NEXT_PROTO_NEG, Strings(ss), rest);
      StringsBack(ss);
      assert [] + ss == ss;
    }
  }

  lemma FillsRenegotiation(m: Hello, rest: Data)
    requires Shaped(m) && |m.secureRenegotiation| <= 254
    ensures ApplyAll(Known(3, m), E(3, m) + rest) == ApplyAll(Known(4, m), rest)
  {
    hide ApplyAll;
    assert [] + rest == rest;
    var info := m.secureRenegotiation;
    if m.secureRenegotiationSupported {
      var body := [|info| % 256] + info;
      assert [0, (|info| + 1) % 256] == Word(|body|);
      assert C.Renegotiation(info) == Ext(C.RENEGOTIATION_INFO, body);
      ApplyAllExt(Known(3, m), C.RENEGOTIATION_INFO, body, rest);
      assert body[1..] == info;
    }
  }

  lemma FillsAlpn(m: Hello, rest: Data)
    requires Shaped(m)
    ensures ApplyAll(Known(4, m), E(4, m) + rest) == ApplyAll(Known(5, m), rest)
  {
    hide ApplyAll, Word, ToWord, Ext;
    assert [] + rest == rest;
    var p := m.alpnProtocol;
    if p != [] {
      var tail := [|p| % 256] + p;
      var body := Word(1 + |p|) + [|p| % 256] + p;
      assert body == Word(1 + |p|) + tail;
      ApplyAllExt(Known(4, m), C.ALPN, body, rest);
      WordFront(1 + |p|, tail);
      assert body[2] == body[2..][0] && body[3..] == body[2..][1..] == p;
    }
  }

  lemma FillsScts(m: Hello, rest: Data)
    requires Shaped(m) && |E(5, m)| < 0x1_0000
    ensures ApplyAll(Known(5, m), E(5, m) + rest) == ApplyAll(Known(6, m), rest)
  {
    hide ApplyAll, Word, ToWord, ToBlobs, Sized;
    assert [] + rest == rest;
    var ss := m.scts;
    if ss != [] {
      SomeBlob(ss);
      hide Blobs;
      ApplyAllExt(Known(5, m), C.SCT, Word(|Blobs(ss)|) + Blobs(ss), rest);
      WordFront(|Blobs(ss)|, Blobs(ss));
      BlobsBack(ss);
    }
  }

  lemma SomeBlob(ss: seq<Data>)
    requires ss != []
    ensures Blobs(ss) != []
  {
  }

  lemma {:induction false} FillsAll(i: nat, m: Hello)
    requires i <= 6 && Shaped(m) && |m.secureRenegotiation| <= 254 && |From(i, m)| < 0x1_0000
    ensures ApplyAll(Known(i, m), From(i, m)) == Some(m)
    decreases 6 - i
  {
    hide E, Shaped;
    if i < 6 {
      Fills(i, m, From(i + 1, m));
      FillsAll(i + 1, m);
    }
  }

  lemma {:induction false} LongRenegotiationFails(i: nat, m: Hello)
    requires i <= 3 && Shaped(m) && |m.secureRenegotiation| == 255 && |From(i, m)| < 0x1_0000
    ensures ApplyAll(Known(i, m), From(i, m)) == None
    decreases 6 - i
  {
    hide Shaped, E, Known, ApplyAll;
    if i == 3 {
      SameShape(m);
      NoRenegotiation(Known(3, m), m, From(4, m));
    } else {
      Fills(i, m, From(i + 1, m));
      LongRenegotiationFails(i + 1, m);
    }
  }

  lemma SameShape(m: Hello)
    requires Shaped(m)
    ensures |m.secureRenegotiation| <= 255
    ensures m.secureRenegotiation != [] ==> m.secureRenegotiationSupported
    ensures Short(m.nextProtos) && Unreached(m) == 0
  {
    CutLength(m.nextProtos);
  }

  lemma NoRenegotiation(k: Hello, m: Hello, rest: Data)
    requires m.secureRenegotiationSupported && |m.secureRenegotiation| == 255
    ensures ApplyAll(k, E(3, m) + rest) == None
  {
    hide Apply;
    var s := E(3, m) + rest;
    WordBack(C.RENEGOTIATION_INFO);
    assert s[0] == Word(C.RENEGOTIATION_INFO)[0] && s[1] == Word(C.RENEGOTIATION_INFO)[1] && s[2] == 0 && s[3] == 0;
    assert s[4..4] == [];
    EmptyRenegotiation(k);
  }

  lemma EmptyRenegotiation(k: Hello)
    ensures Apply(k, C.RENEGOTIATION_INFO, []) == None
  {
  }

  lemma DecodesFields(m: Hello)
    requires Shaped(m)
    ensures Decode(C.Header(2, |Body(m)|) + Body(m)) == DecodeExtensions(Known(0, m), Extensions(m))
  {
    hide DecodeExtensions, Extensions, Word, ToWord, Short, Sized;
    var id, tail := m.sessionID, Extensions(m);
    var third := Word(m.cipherSuite) + ([m.compressionMethod] + tail);
    assert Body(m) == Word(m.vers) + m.random + [|id| % 256] + id + third;
    C.Layout(C.Header(2, |Body(m)|), Word(m.vers), m.random, id, third);
    WordBack(m.vers);
    WordFront(m.cipherSuite, [m.compressionMethod] + tail);
    assert third[2] == third[2..][0] && third[3..] == third[2..][1..] == tail;
  }

  /** What every single extension keeps, all of them together keep. */
  lemma {:induction false} ApplyAllKeeps(m: Hello, data: Data, kept: Hello -> bool)
    requires kept(m)
    requires forall m, typ, d | kept(m) && Apply(m, typ, d).Some? :: kept(Apply(m, typ, d).value)
    ensures ApplyAll(m, data).Some? ==> kept(ApplyAll(m, data).value)
    decreases |data|
  {
    hide Apply;
    if |data| >= 4 && |data| - 4 >= ToWord(data[2], data[3]) {
      var n := ToWord(data[2], data[3]);
      var m' := Apply(m, ToWord(data[0], data[1]), data[4..4 + n]);
      if m'.Some? {
        ApplyAllKeeps(m'.value, data[4 + n..], kept);
      }
    }
  }

  lemma ApplyAllShaped(m: Hello, data: Data)
    requires Shaped(m)
    ensures ApplyAll(m, data).Some? ==> Shaped(ApplyAll(m, data).value)
  {
    hide Shaped, Apply;
    forall m, typ, d | Shaped(m) && Apply(m, typ, d).Some? ensures Shaped(Apply(m, typ, d).value) {
      ApplyShaped(m, typ, d);
    }
    ApplyAllKeeps(m, data, Shaped);
  }

  lemma ApplyShaped(m: Hello, typ: word, d: Data)
    requires Shaped(m)
    ensures Apply(m, typ, d).Some? ==> Shaped(Apply(m, typ, d).value)
  {
    hide ToWord, ToStrings, ToBlobs, Short, Sized;
    if typ == C.NEXT_PROTO_NEG && ToStrings(d).Some? {
      ToStringsShort(d);
      C.ShortJoin(m.nextProtos, ToStrings(d).value);
    } else if typ == C.SCT && |d| >= 2 {
      ToBlobsSized(d[2..]);
    }
  }

  lemma DecodeShaped(data: Data)
    ensures Decode(data).Some? ==> Shaped(Decode(data).value)
  {
    hide ApplyAll, ToWord;
    if |data| >= 42 && data[38] <= 32 && |data| >= 39 + data[38] {
      var rest := data[39 + data[38]..];
      if |rest| >= 5 {
        ApplyAllShaped(Blank(New(), ToWord(data[4], data[5]), data[6..38], data[39..39 + data[38]],
            ToWord(rest[0], rest[1]), rest[2]), rest[3..][2..]);
      }
    }
  }

  // ----- Into a message that was used before

  /** `m` is `blank`, but where `blank` has no renegotiation data it may have that of `used`. */
  predicate KeepsOf(used: Hello, blank: Hello, m: Hello) {
    && m == blank.(secureRenegotiation := m.secureRenegotiation,
                   secureRenegotiationSupported :=
                     blank.secureRenegotiationSupported || used.secureRenegotiationSupported)
    && (m.secureRenegotiation == blank.secureRenegotiation
        || (blank.secureRenegotiation == [] && m.secureRenegotiation == used.secureRenegotiation))
  }

  /** The other extensions neither look at renegotiation data nor change it. */
  lemma OtherKeeps(m: Hello, renegotiation: Data, supported: bool, typ: word, d: Data)
    requires typ != C.RENEGOTIATION_INFO
    ensures var n := m.(secureRenegotiation := renegotiation, secureRenegotiationSupported := supported);
            Apply(n, typ, d) ==
            match Apply(m, typ, d)
            case None => None
            case Some(x) =>
              Some(x.(secureRenegotiation := renegotiation, secureRenegotiationSupported := supported))
    ensures var r := Apply(m, typ, d);
            r.Some? ==> r.value.secureRenegotiation == m.secureRenegotiation
                        && r.value.secureRenegotiationSupported == m.secureRenegotiationSupported
  {
    hide ToWord, ToStrings, ToBlobs;
  }

  lemma RenegotiationKeeps(used: Hello, blank: Hello, m: Hello, d: Data)
    requires KeepsOf(used, blank, m)
    ensures var (a, b) := (Apply(blank, C.RENEGOTIATION_INFO, d), Apply(m, C.RENEGOTIATION_INFO, d));
            (a.Some? <==> b.Some?) && (b.Some? ==> KeepsOf(used, a.value, b.value))
  {
    hide ToWord, ToStrings, ToBlobs;
  }

  lemma ApplyKeeps(used: Hello, blank: Hello, m: Hello, typ: word, d: Data)
    requires KeepsOf(used, blank, m)
    ensures Apply(blank, typ, d).Some? <==> Apply(m, typ, d).Some?
    ensures Apply(m, typ, d).Some? ==> KeepsOf(used, Apply(blank, typ, d).value, Apply(m, typ, d).value)
  {
    hide Apply;
    if typ == C.RENEGOTIATION_INFO {
      RenegotiationKeeps(used, blank, m, d);
    } else {
      OtherKeeps(blank, m.secureRenegotiation, m.secureRenegotiationSupported, typ, d);
    }
  }

  lemma {:induction false} ApplyAllUsed(used: Hello, blank: Hello, m: Hello, data: Data)
    requires KeepsOf(used, blank, m)
    ensures ApplyAll(blank, data).Some? <==> ApplyAll(m, data).Some?
    ensures ApplyAll(m, data).Some? ==> KeepsOf(used, ApplyAll(blank, data).value, ApplyAll(m, data).value)
    decreases |data|
  {
    hide Apply, KeepsOf;
    if |data| >= 4 && |data| - 4 >= ToWord(data[2], data[3]) {
      var n := ToWord(data[2], data[3]);
      var typ, d := ToWord(data[0], data[1]), data[4..4 + n];
      ApplyKeeps(used, blank, m, typ, d);
      if Apply(m, typ, d).Some? {
        ApplyAllUsed(used, Apply(blank, typ, d).value, Apply(m, typ, d).value, data[4 + n..]);
      }
    }
  }

  /**
   A used message accepts the same bytes as a new one; where they bring no renegotiation data, it may
   end up with that of the message it held before, and in nothing else.
   */
  lemma IntoUsed(used: Hello, data: Data)
    ensures DecodeInto(used, data).Some? <==> Decode(data).Some?
    ensures Decode(data).Some? ==> KeepsOf(used, Decode(data).value, DecodeInto(used, data).value)
  {
    hide ApplyAll, ToWord;
    if |data| >= 42 && data[38] <= 32 && |data| >= 39 + data[38] {
      var vers, random, id, rest := ToWord(data[4], data[5]), data[6..38], data[39..39 + data[38]],
          data[39 + data[38]..];
      if |rest| >= 3 {
        var suite := ToWord(rest[0], rest[1]);
        var blank, m := Blank(New(), vers, random, id, suite, rest[2]), Blank(used, vers, random, id, suite, rest[2]);
        assert KeepsOf(used, blank, m);
        var tail := rest[3..];
        if |tail| >= 2 {
          ApplyAllUsed(used, blank, m, tail[2..]);
        }
      }
    }
  }

  /** unmarshal(marshal(m)) is m exactly for the representable messages. */
  lemma RoundTrip(m: Hello)
    ensures (Encode(m).Some? && Decode(Encode(m).value) == Some(m)) <==> Representable(m)
  {
    hide Decode, Body, From, Short, ApplyAll, E, Sized;
    if Representable(m) {
      DecodesFields(m);
      ExtensionsBack(m);
    } else if Encode(m).Some? {
      DecodeShaped(Encode(m).value);
      if Shaped(m) {
        DecodesFields(m);
        TooLong(m);
      }
    }
  }

  lemma ExtensionsBack(m: Hello)
    requires Representable(m)
    ensures DecodeExtensions(Known(0, m), Extensions(m)) == Some(m)
  {
    hide Shaped, From, E, ApplyAll, Word, ToWord, Known, Unreached;
    SameShape(m);
    FillsAll(0, m);
    WordFront(|From(0, m)|, From(0, m));
    assert Word(|From(0, m)|) + From(0, m) + Zeros(0) == Word(|From(0, m)|) + From(0, m);
    NothingKnown(m);
  }

  lemma NothingKnown(m: Hello)
    ensures From(0, m) == [] ==> ApplyAll(Known(0, m), From(0, m)) == Some(Known(0, m))
  {
    hide From;
  }

  lemma TooLong(m: Hello)
    requires Shaped(m) && !Representable(m)
    ensures DecodeExtensions(Known(0, m), Extensions(m)) == None
  {
    hide Shaped, From, E, ApplyAll, Known, Unreached;
    SameShape(m);
    var s := Extensions(m);
    assert Word(|From(0, m)|) + From(0, m) + Zeros(0) == Word(|From(0, m)|) + From(0, m);
    if |From(0, m)| >= 0x1_0000 {
      assert s[0] == Word(|From(0, m)|)[0] && s[1] == Word(|From(0, m)|)[1];
    } else {
      LongRenegotiationFails(0, m);
      WordFront(|From(0, m)|, From(0, m));
      NothingKnown(m);
    }
  }
}
