/** clientHelloMsg: internal/tls_hack/handshake_messages.go, RFC 5246 section 7.4.1.2. */
module ClientHello {
  import opened Bytes
  import opened Encoding

  const SERVER_NAME: word := 0
  const STATUS_REQUEST: word := 5
  const SUPPORTED_CURVES: word := 10
  const SUPPORTED_POINTS: word := 11
  const SIGNATURE_ALGORITHMS: word := 13
  const ALPN: word := 16
  const SCT: word := 18
  const SESSION_TICKET: word := 35
  const NEXT_PROTO_NEG: word := 13172
  const RENEGOTIATION_INFO: word := 0xff01
  const SCSV_RENEGOTIATION: word := 0x00ff

  datatype Hello = Hello(
    vers: word,
    random: Data,
    sessionID: Data,
    cipherSuites: seq<word>,
    compressionMethods: Data,
    nextProtoNeg: bool,
    serverName: Data,
    ocspStapling: bool,
    supportedCurves: seq<word>,
    supportedPoints: Data,
    ticketSupported: bool,
    sessionTicket: Data,
    signatureAndHashes: seq<Pair>,
    secureRenegotiationSupported: bool,
    secureRenegotiation: Data,
    alpnProtocols: seq<Data>,
    scts: bool)

  // ----- The encoding

  /** The fixed part, up to the extensions. */
  function Fields(m: Hello): Data {
    Word(m.vers) + Fixed(m.random, 32) + [|m.sessionID| % 256] + m.sessionID
    + Word(2 * |m.cipherSuites|) + Words(m.cipherSuites)
    + [|m.compressionMethods| % 256] + m.compressionMethods
  }

  /** The `i`th extension in the order of marshal; empty when there is nothing to say. */
  function E(i: nat, m: Hello): Data {
    if i == 0 then if m.nextProtoNeg then Ext(NEXT_PROTO_NEG, []) else []
    else if i == 1 then
      if m.serverName == [] then []
      else Ext(SERVER_NAME, Word(|m.serverName| + 3) + [0] + Word(|m.serverName|) + m.serverName)
    else if i == 2 then if m.ocspStapling then Ext(STATUS_REQUEST, [1, 0, 0, 0, 0]) else []
    else if i == 3 then
      if m.supportedCurves == [] then []
          else Ext(SUPPORTED_CURVES, Word(2 * |m.supportedCurves|) + Words(m.supportedCurves))
    else if i == 4 then
      if m.supportedPoints == [] then [] else Ext(SUPPORTED_POINTS, [|m.supportedPoints| % 256] + m.supportedPoints)
    else if i == 5 then if m.ticketSupported then Ext(SESSION_TICKET, m.sessionTicket) else []
    else if i == 6 then
      if m.signatureAndHashes == [] then []
      else Ext(SIGNATURE_ALGORITHMS, Word(2 * |m.signatureAndHashes|) + Pairs(m.signatureAndHashes))
    else if i == 7 then
      if m.secureRenegotiationSupported then Renegotiation(m.secureRenegotiation) else []
    else if i == 8 then
      if m.alpnProtocols == [] then [] else Ext(ALPN, Word(|Strings(m.alpnProtocols)|) + Strings(m.alpnProtocols))
    else if i == 9 then if m.scts then Ext(SCT, []) else []
    else []
  }

  /** The high byte of this extension's length is always zero. */
  function Renegotiation(info: Data): Data {
    Word(RENEGOTIATION_INFO) + [0, (|info| + 1) % 256] + [|info| % 256] + info
  }

  /** Extensions `i` and later. */
  function From(i: nat, m: Hello): Data
    decreases 10 - i
  {
    if i >= 10 then [] else E(i, m) + From(i + 1, m)
  }

  /** Extensions before `i`. */
  function UpTo(i: nat, m: Hello): Data {
    if i == 0 then [] else UpTo(i - 1, m) + E(i - 1, m)
  }

  lemma {:induction false} UpToFrom(i: nat, m: Hello)
    requires i <= 10
    ensures UpTo(i, m) + From(i, m) == From(0, m)
  {
    hide E;
    if i > 0 {
      UpToFrom(i - 1, m);
      assert UpTo(i - 1, m) + E(i - 1, m) + From(i, m) == UpTo(i - 1, m) + (E(i - 1, m) + From(i, m));
    }
  }

  function Extensions(m: Hello): Data {
    if From(0, m) == [] then [] else Word(|From(0, m)|) + From(0, m)
  }

  function Body(m: Hello): Data {
    Fields(m) + Extensions(m)
  }

  function Header(typ: byte, n: nat): (s: Data)
    ensures |s| == 4
  {
    [typ, n / 0x1_0000 % 256, n / 256 % 256, n % 256]
  }

  /** marshal; None where the source panics. */
  function Encode(m: Hello): Option<Data> {
    if Short(m.alpnProtocols) then Some(Header(1, |Body(m)|) + Body(m)) else None
  }

  // ----- The decoding

  /** A message that holds nothing yet. */
  function New(): Hello {
    Hello(0, [], [], [], [], false, [], false, [], [], false, [], [], false, [], [], false)
  }

  /** The message `used` with the fixed fields filled in; curves, points and renegotiation data are not cleared. */
  function Blank(used: Hello, vers: word, random: Data, sessionID: Data, suites: seq<word>, methods: Data): Hello {
    Hello(vers, random, sessionID, suites, methods, false, [], false, used.supportedCurves, used.supportedPoints,
        false, [], [], used.secureRenegotiationSupported || SCSV_RENEGOTIATION in suites, used.secureRenegotiation,
        [], false)
  }

  /** The host name in a list of names, or `name` if there is none. */
  function HostName(d: Data, name: Data): Option<Data>
    decreases |d|
  {
    if d == [] then Some(name)
    else if |d| < 3 then None
    else
      var n := ToWord(d[1], d[2]);
      if |d| - 3 < n then None
      else if d[0] == 0 then Some(d[3..3 + n])
      else HostName(d[3 + n..], name)
  }

  function Apply(m: Hello, typ: word, d: Data): Option<Hello> {
    if typ == SERVER_NAME then
      if |d| < 2 || |d| - 2 != ToWord(d[0], d[1]) then None
      else
        match HostName(d[2..], m.serverName)
        case None => None
        case Some(name) => Some(m.(serverName := name))
    else if typ == NEXT_PROTO_NEG then
      if |d| > 0 then None else Some(m.(nextProtoNeg := true))
    else if typ == STATUS_REQUEST then Some(m.(ocspStapling := |d| > 0 && d[0] == 1))
    else if typ == SUPPORTED_CURVES then
      if |d| < 2 || ToWord(d[0], d[1]) % 2 == 1 || |d| != ToWord(d[0], d[1]) + 2 then None
      else Some(m.(supportedCurves := ToWords(d[2..])))
    else if typ == SUPPORTED_POINTS then
      if |d| < 1 || |d| - 1 != d[0] then None else Some(m.(supportedPoints := d[1..]))
    else if typ == SESSION_TICKET then Some(m.(ticketSupported := true, sessionTicket := d))
    else if typ == SIGNATURE_ALGORITHMS then
      if |d| < 2 || |d| % 2 != 0 || |d| - 2 != ToWord(d[0], d[1]) then None
      else Some(m.(signatureAndHashes := ToPairs(d[2..])))
    else if typ == RENEGOTIATION_INFO then
      if |d| == 0 || d[0] != |d| - 1 then None
      else Some(m.(secureRenegotiation := d[1..], secureRenegotiationSupported := true))
    else if typ == ALPN then
      if |d| < 2 || |d| - 2 != ToWord(d[0], d[1]) then None
      else
        match ToStrings(d[2..])
        case None => None
        case Some(ss) => Some(m.(alpnProtocols := m.alpnProtocols + ss))
    else if typ == SCT then
      if |d| != 0 then None else Some(m.(scts := true))
    else Some(m)
  }

  function ApplyAll(m: Hello, data: Data): Option<Hello>
    decreases |data|
  {
    if data == [] then Some(m)
    else if |data| < 4 then None
    else
      var n := ToWord(data[2], data[3]);
      if |data| - 4 < n then None
      else
        match Apply(m, ToWord(data[0], data[1]), data[4..4 + n])
        case None => None
        case Some(m') => ApplyAll(m', data[4 + n..])
  }

  function DecodeExtensions(m: Hello, data: Data): Option<Hello> {
    if data == [] then Some(m)
    else if |data| < 2 || ToWord(data[0], data[1]) != |data| - 2 then None
    else ApplyAll(m, data[2..])
  }

  function DecodeMethods(used: Hello, vers: word, random: Data, sessionID: Data, suites: seq<word>, data: Data)
    : Option<Hello>
  {
    if |data| < 1 || |data| - 1 < data[0] then None
    else DecodeExtensions(Blank(used, vers, random, sessionID, suites, data[1..1 + data[0]]), data[1 + data[0]..])
  }

  function DecodeSuites(used: Hello, vers: word, random: Data, sessionID: Data, data: Data): Option<Hello> {
    if |data| < 2 then None
    else
      var n := ToWord(data[0], data[1]);
      if n % 2 == 1 || |data| < 2 + n then None
      else DecodeMethods(used, vers, random, sessionID, ToWords(data[2..2 + n]), data[2 + n..])
  }

  /** unmarshal, into a message that may have been used before. */
  function DecodeInto(used: Hello, data: Data): Option<Hello> {
    if |data| < 42 || data[38] > 32 || |data| < 39 + data[38] then None
    else DecodeSuites(used, ToWord(data[4], data[5]), data[6..38], data[39..39 + data[38]], data[39 + data[38]..])
  }

  /** unmarshal, into a new message. */
  function Decode(data: Data): Option<Hello> {
    DecodeInto(New(), data)
  }

  // ----- When a message comes back

  /** What unmarshal can produce, whatever the bytes. */
  predicate Shaped(m: Hello) {
    && |m.random| == 32 && |m.sessionID| <= 32 && |m.cipherSuites| <= 0x7fff && |m.compressionMethods| <= 255
    && |m.supportedPoints| <= 255 && |m.secureRenegotiation| <= 255 && Short(m.alpnProtocols)
    && (m.sessionTicket != [] ==> m.ticketSupported)
    && (m.secureRenegotiation != [] ==> m.secureRenegotiationSupported)
    && (SCSV_RENEGOTIATION in m.cipherSuites ==> m.secureRenegotiationSupported)
  }

  /** The messages that marshal writes faithfully. */
  predicate Representable(m: Hello) {
    && Shaped(m)
    && |m.secureRenegotiation| <= 254
    && |From(0, m)| < 0x1_0000
  }

  /** `m` with only the first `i` extensions filled in. */
  function Known(i: nat, m: Hello): Hello {
    Hello(m.vers, m.random, m.sessionID, m.cipherSuites, m.compressionMethods,
          i > 0 && m.nextProtoNeg,
          if i > 1 then m.serverName else [],
          i > 2 && m.ocspStapling,
          if i > 3 then m.supportedCurves else [],
          if i > 4 then m.supportedPoints else [],
          i > 5 && m.ticketSupported,
          if i > 5 then m.sessionTicket else [],
          if i > 6 then m.signatureAndHashes else [],
          if i > 7 then m.secureRenegotiationSupported else SCSV_RENEGOTIATION in m.cipherSuites,
          if i > 7 then m.secureRenegotiation else [],
          if i > 8 then m.alpnProtocols else [],
          i > 9 && m.scts)
  }

  lemma ApplyAllExt(m: Hello, typ: word, body: Data, rest: Data)
    requires |body| < 0x1_0000
    ensures ApplyAll(m, Ext(typ, body) + rest) ==
            match Apply(m, typ, body) case None => None case Some(m') => ApplyAll(m', rest)
  {
    hide Apply, Ext, ToWord;
    ExtFront(typ, body, rest);
  }

  /** The `i`th extension fills in exactly its own fields. */
  lemma Fills(i: nat, m: Hello, rest: Data)
    requires i < 10 && Shaped(m) && (i == 7 ==> |m.secureRenegotiation| <= 254) && |E(i, m)| < 0x1_0000
    ensures ApplyAll(Known(i, m), E(i, m) + rest) == ApplyAll(Known(i + 1, m), rest)
  {
    hide ApplyAll, Shaped, Ext;
    assert [] + rest == rest;
    if i == 1 {
      FillsName(m, rest);
    } else if i == 3 {
      FillsCurves(m, rest);
    } else if i == 4 {
      FillsPoints(m, rest);
    } else if i == 6 {
      FillsAlgorithms(m, rest);
    } else if i == 7 {
      FillsRenegotiation(m, rest);
    } else if i == 8 {
      FillsProtocols(m, rest);
    } else {
      FillsSimple(i, m, rest);
    }
  }

  lemma FillsSimple(i: nat, m: Hello, rest: Data)
    requires Shaped(m) && i in {0, 2, 5, 9} && |E(i, m)| < 0x1_0000
    ensures ApplyAll(Known(i, m), E(i, m) + rest) == ApplyAll(Known(i + 1, m), rest)
  {
    hide ApplyAll, Short;
    assert [] + rest == rest;
    var m0 := Known(i, m);
    if i == 0 && m.nextProtoNeg {
      ApplyAllExt(m0, NEXT_PROTO_NEG, [], rest);
    } else if i == 2 && m.ocspStapling {
      ApplyAllExt(m0, STATUS_REQUEST, [1, 0, 0, 0, 0], rest);
    } else if i == 5 && m.ticketSupported {
      ApplyAllExt(m0, SESSION_TICKET, m.sessionTicket, rest);
    } else if i == 9 && m.scts {
      ApplyAllExt(m0, SCT, [], rest);
    }
  }

  lemma FillsName(m: Hello, rest: Data)
    requires |E(1, m)| < 0x1_0000
    ensures ApplyAll(Known(1, m), E(1, m) + rest) == ApplyAll(Known(2, m), rest)
  {
    hide ApplyAll, Word, ToWord;
    assert [] + rest == rest;
    var name := m.serverName;
    if name != [] {
      var list := [0] + Word(|name|) + name;
      var body := Word(|name| + 3) + [0] + Word(|name|) + name;
      assert body == Word(|name| + 3) + list;
      ApplyAllExt(Known(1, m), SERVER_NAME, body, rest);
      WordFront(|name| + 3, list);
      assert list[1..] == Word(|name|) + name;
      WordFront(|name|, name);
      assert list[3..] == name == list[3..3 + |name|];
    }
  }

  lemma FillsCurves(m: Hello, rest: Data)
    requires |E(3, m)| < 0x1_0000
    ensures ApplyAll(Known(3, m), E(3, m) + rest) == ApplyAll(Known(4, m), rest)
  {
    hide ApplyAll, Word, ToWord, Words, ToWords;
    assert [] + rest == rest;
    var ws := m.supportedCurves;
    if ws != [] {
      ApplyAllExt(Known(3, m), SUPPORTED_CURVES, Word(2 * |ws|) + Words(ws), rest);
      WordFront(2 * |ws|, Words(ws));
      WordsBack(ws);
    }
  }

  lemma FillsPoints(m: Hello, rest: Data)
    requires Shaped(m) && |E(4, m)| < 0x1_0000
    ensures ApplyAll(Known(4, m), E(4, m) + rest) == ApplyAll(Known(5, m), rest)
  {
    hide ApplyAll, Word;
    assert [] + rest == rest;
    var ps := m.supportedPoints;
    if ps != [] {
      var body := [|ps| % 256] + ps;
      ApplyAllExt(Known(4, m), SUPPORTED_POINTS, body, rest);
      assert body[1..] == ps;
    }
  }

  lemma FillsAlgorithms(m: Hello, rest: Data)
    requires |E(6, m)| < 0x1_0000
    ensures ApplyAll(Known(6, m), E(6, m) + rest) == ApplyAll(Known(7, m), rest)
  {
    hide ApplyAll, Word, ToWord, Pairs, ToPairs;
    assert [] + rest == rest;
    var ps := m.signatureAndHashes;
    if ps != [] {
      ApplyAllExt(Known(6, m), SIGNATURE_ALGORITHMS, Word(2 * |ps|) + Pairs(ps), rest);
      WordFront(2 * |ps|, Pairs(ps));
      PairsBack(ps);
    }
  }

  lemma FillsRenegotiation(m: Hello, rest: Data)
    requires Shaped(m) && |m.secureRenegotiation| <= 254
    ensures ApplyAll(Known(7, m), E(7, m) + rest) == ApplyAll(Known(8, m), rest)
  {
    hide ApplyAll, HostName;
    assert [] + rest == rest;
    var info := m.secureRenegotiation;
    if m.secureRenegotiationSupported {
      var body := [|info| % 256] + info;
      assert [0, (|info| + 1) % 256] == Word(|body|);
      assert Renegotiation(info) == Ext(RENEGOTIATION_INFO, body);
      ApplyAllExt(Known(7, m), RENEGOTIATION_INFO, body, rest);
      assert body[1..] == info;
    }
  }

  lemma FillsProtocols(m: Hello, rest: Data)
    requires Shaped(m) && |E(8, m)| < 0x1_0000
    ensures ApplyAll(Known(8, m), E(8, m) + rest) == ApplyAll(Known(9, m), rest)
  {
    hide ApplyAll, Word, ToWord, Strings, ToStrings, Short;
    assert [] + rest == rest;
    var ss := m.alpnProtocols;
    if ss != [] {
      ApplyAllExt(Known(8, m), ALPN, Word(|Strings(ss)|) + Strings(ss), rest);
      WordFront(|Strings(ss)|, Strings(ss));
      StringsBack(ss);
      assert [] + ss == ss;
    }
  }

  lemma {:induction false} FillsAll(i: nat, m: Hello)
    requires i <= 10 && Shaped(m) && |m.secureRenegotiation| <= 254 && |From(i, m)| < 0x1_0000
    ensures ApplyAll(Known(i, m), From(i, m)) == Some(m)
    decreases 10 - i
  {
    hide E, Shaped;
    if i < 10 {
      Fills(i, m, From(i + 1, m));
      FillsAll(i + 1, m);
    }
  }

  /** A renegotiation of 255 bytes is written with length zero, which no reader accepts. */
  lemma {:induction false} LongRenegotiationFails(i: nat, m: Hello)
    requires i <= 7 && Shaped(m) && |m.secureRenegotiation| == 255 && |From(i, m)| < 0x1_0000
    ensures ApplyAll(Known(i, m), From(i, m)) == None
    decreases 10 - i
  {
    hide Shaped, E, Known;
    if i == 7 {
      SameShape(m);
      NoRenegotiation(Known(7, m), m, From(8, m));
    } else {
      Fills(i, m, From(i + 1, m));
      LongRenegotiationFails(i + 1, m);
    }
  }

  lemma SameShape(m: Hello)
    requires Shaped(m)
    ensures m.secureRenegotiation != [] ==> m.secureRenegotiationSupported
  {
  }

  lemma NoRenegotiation(k: Hello, m: Hello, rest: Data)
    requires m.secureRenegotiationSupported && |m.secureRenegotiation| == 255
    ensures ApplyAll(k, E(7, m) + rest) == None
  {
    hide Apply;
    var s := E(7, m) + rest;
    WordBack(RENEGOTIATION_INFO);
    assert s[0] == Word(RENEGOTIATION_INFO)[0] && s[1] == Word(RENEGOTIATION_INFO)[1] && s[2] == 0 && s[3] == 0;
    assert s[4..4] == [];
    EmptyRenegotiation(k);
  }

  lemma EmptyRenegotiation(k: Hello)
    ensures Apply(k, RENEGOTIATION_INFO, []) == None
  {
  }

  /** The parser accepts the fixed part and goes on to the extensions. */
  lemma DecodesFields(m: Hello)
    requires Shaped(m)
    ensures Decode(Header(1, |Body(m)|) + Body(m)) == DecodeExtensions(Known(0, m), Extensions(m))
  {
    hide DecodeExtensions, DecodeSuites, Extensions, Word, ToWord, Words, ToWords, Short;
    var id, suites, methods, tail := m.sessionID, m.cipherSuites, m.compressionMethods, Extensions(m);
    var fourth := [|methods| % 256] + methods + tail;
    var third := Word(2 * |suites|) + (Words(suites) + fourth);
    assert Body(m) == Word(m.vers) + m.random + [|id| % 256] + id + third;
    Layout(Header(1, |Body(m)|), Word(m.vers), m.random, id, third);
    WordBack(m.vers);
    DecodesSuites(m, fourth);
    DecodesMethods(m, tail);
  }

  lemma DecodesMethods(m: Hello, rest: Data)
    requires |m.compressionMethods| <= 255
    ensures DecodeMethods(New(), m.vers, m.random, m.sessionID, m.cipherSuites, [|m.compressionMethods| % 256]
            + m.compressionMethods + rest)
            == DecodeExtensions(Known(0, m), rest)
  {
    hide DecodeExtensions;
    var methods := m.compressionMethods;
    var s := [|methods| % 256] + methods + rest;
    assert s[0] == |methods| && s[1..1 + |methods|] == methods && s[1 + |methods|..] == rest;
  }

  /** Where the parser finds the fixed fields. */
  lemma Layout(header: Data, vers: Data, random: Data, id: Data, rest: Data)
    requires |header| == 4 && |vers| == 2 && |random| == 32 && |id| <= 32 && |rest| >= 3
    ensures var data := header + (vers + random + [|id| % 256] + id + rest);
            && |data| >= 42 && data[4] == vers[0] && data[5] == vers[1] && data[6..38] == random && data[38] == |id|
            && |data| >= 39 + |id| && data[39..39 + |id|] == id && data[39 + |id|..] == rest
  {
    var data := header + (vers + random + [|id| % 256] + id + rest);
    assert data == header + vers + random + [|id| % 256] + id + rest;
  }

  lemma DecodesSuites(m: Hello, rest: Data)
    requires |m.cipherSuites| <= 0x7fff
    ensures DecodeSuites(New(), m.vers, m.random, m.sessionID,
                         Word(2 * |m.cipherSuites|) + (Words(m.cipherSuites) + rest))
            == DecodeMethods(New(), m.vers, m.random, m.sessionID, m.cipherSuites, rest)
  {
    hide DecodeMethods, Word, ToWord, Words, ToWords;
    var suites := m.cipherSuites;
    WordFront(2 * |suites|, Words(suites) + rest);
    WordsBack(suites);
    var s := Word(2 * |suites|) + (Words(suites) + rest);
    assert s[2..2 + 2 * |suites|] == s[2..][..2 * |suites|] == Words(suites);
    assert s[2 + 2 * |suites|..] == s[2..][2 * |suites|..] == rest;
  }

  /** What every single extension keeps, all of them together keep. */
  lemma {:induction false} ApplyAllKeeps(m: Hello, data: Data, kept: Hello -> bool)
    requires kept(m)
    requires forall m, typ, d | kept(m) && Apply(m, typ, d).Some? :: kept(Apply(m, typ, d).value)
    ensures ApplyAll(m, data).Some? ==> kept(ApplyAll(m, data).value)
    decreases |data|
  {
    hide Apply;
    if |data| >= 4 && |data| - 4 >= ToWord(data[2], data[3]) {
      var n := ToWord(data[2], data[3]);
      var m' := Apply(m, ToWord(data[0], data[1]), data[4..4 + n]);
      if m'.Some? {
        ApplyAllKeeps(m'.value, data[4 + n..], kept);
      }
    }
  }

  lemma ApplyAllShaped(m: Hello, data: Data)
    requires Shaped(m)
    ensures ApplyAll(m, data).Some? ==> Shaped(ApplyAll(m, data).value)
  {
    hide Shaped, Apply;
    forall m, typ, d | Shaped(m) && Apply(m, typ, d).Some? ensures Shaped(Apply(m, typ, d).value) {
      ApplyShaped(m, typ, d);
    }
    ApplyAllKeeps(m, data, Shaped);
  }

  lemma ApplyShaped(m: Hello, typ: word, d: Data)
    requires Shaped(m)
    ensures Apply(m, typ, d).Some? ==> Shaped(Apply(m, typ, d).value)
  {
    hide HostName, ToWords, ToWord, ToPairs, ToStrings, Short;
    if typ == ALPN && |d| >= 2 && ToStrings(d[2..]).Some? {
      ToStringsShort(d[2..]);
      ShortJoin(m.alpnProtocols, ToStrings(d[2..]).value);
    }
  }

  lemma ShortJoin(a: seq<Data>, b: seq<Data>)
    requires Short(a) && Short(b)
    ensures Short(a + b)
  {
  }

  lemma DecodeShaped(data: Data)
    ensures Decode(data).Some? ==> Shaped(Decode(data).value)
  {
    hide DecodeSuites, Shaped, ToWord;
    if |data| >= 42 && data[38] <= 32 && |data| >= 39 + data[38] {
      DecodeSuitesShaped(ToWord(data[4], data[5]), data[6..38], data[39..39 + data[38]], data[39 + data[38]..]);
    }
  }

  lemma DecodeSuitesShaped(vers: word, random: Data, id: Data, data: Data)
    requires |random| == 32 && |id| <= 32
    ensures var r := DecodeSuites(New(), vers, random, id, data); r.Some? ==> Shaped(r.value)
  {
    hide DecodeMethods, Shaped, ToWords;
    if |data| >= 2 {
      var n := ToWord(data[0], data[1]);
      if n % 2 == 0 && |data| - 2 >= n {
        DecodeMethodsShaped(vers, random, id, ToWords(data[2..2 + n]), data[2 + n..]);
      }
    }
  }

  lemma DecodeMethodsShaped(vers: word, random: Data, id: Data, suites: seq<word>, data: Data)
    requires |random| == 32 && |id| <= 32 && |suites| <= 0x7fff
    ensures var r := DecodeMethods(New(), vers, random, id, suites, data); r.Some? ==> Shaped(r.value)
  {
    hide ApplyAll, ToWord;
    if |data| >= 1 && |data| - 1 >= data[0] {
      var m := Blank(New(), vers, random, id, suites, data[1..1 + data[0]]);
      var rest := data[1 + data[0]..];
      if |rest| >= 2 {
        ApplyAllShaped(m, rest[2..]);
      }
    }
  }

  // ----- Into a message that was used before

  /** `m` is `blank`, but where `blank` has no curves, points or renegotiation data it may have those of `used`. */
  predicate KeepsOf(used: Hello, blank: Hello, m: Hello) {
    && m == blank.(supportedCurves := m.supportedCurves, supportedPoints := m.supportedPoints,
                   secureRenegotiation := m.secureRenegotiation,
                   secureRenegotiationSupported :=
                     blank.secureRenegotiationSupported || used.secureRenegotiationSupported)
    && (m.supportedCurves == blank.supportedCurves
        || (blank.supportedCurves == [] && m.supportedCurves == used.supportedCurves))
    && (m.supportedPoints == blank.supportedPoints
        || (blank.supportedPoints == [] && m.supportedPoints == used.supportedPoints))
    && (m.secureRenegotiation == blank.secureRenegotiation
        || (blank.secureRenegotiation == [] && m.secureRenegotiation == used.secureRenegotiation))
  }

  /** `m` with other curves, points and renegotiation data. */
  function Kept(m: Hello, curves: seq<word>, points: Data, renegotiation: Data, supported: bool): Hello {
    m.(supportedCurves := curves, supportedPoints := points, secureRenegotiation := renegotiation,
       secureRenegotiationSupported := supported)
  }

  predicate SameKept(a: Hello, b: Hello) {
    && a.supportedCurves == b.supportedCurves && a.supportedPoints == b.supportedPoints
    && a.secureRenegotiation == b.secureRenegotiation
    && a.secureRenegotiationSupported == b.secureRenegotiationSupported
  }

  predicate Other(typ: word) { typ !in {SUPPORTED_CURVES, SUPPORTED_POINTS, RENEGOTIATION_INFO} }

  /** The other extensions do not look at these fields. */
  lemma OtherCommutes(m: Hello, curves: seq<word>, points: Data, renegotiation: Data, supported: bool, typ: word,
      d: Data)
    requires Other(typ)
    ensures Apply(Kept(m, curves, points, renegotiation, supported), typ, d)
            == match Apply(m, typ, d)
               case None => None
               case Some(n) => Some(Kept(n, curves, points, renegotiation, supported))
  {
    hide ToWord, ToPairs, ToStrings, HostName;
  }

  /** The other extensions do not change these fields. */
  lemma OtherKeeps(m: Hello, typ: word, d: Data)
    requires Other(typ)
    ensures Apply(m, typ, d).Some? ==> SameKept(Apply(m, typ, d).value, m)
  {
    hide ToWord, ToPairs, ToStrings, HostName;
  }

  lemma KeptKeeps(used: Hello, blank: Hello, m: Hello, typ: word, d: Data)
    requires KeepsOf(used, blank, m) && !Other(typ)
    ensures Apply(blank, typ, d).Some? <==> Apply(m, typ, d).Some?
    ensures Apply(m, typ, d).Some? ==> KeepsOf(used, Apply(blank, typ, d).value, Apply(m, typ, d).value)
  {
    hide ToWord, ToWords, ToPairs, ToStrings, HostName;
  }

  lemma ApplyKeeps(used: Hello, blank: Hello, m: Hello, typ: word, d: Data)
    requires KeepsOf(used, blank, m)
    ensures Apply(blank, typ, d).Some? <==> Apply(m, typ, d).Some?
    ensures Apply(m, typ, d).Some? ==> KeepsOf(used, Apply(blank, typ, d).value, Apply(m, typ, d).value)
  {
    hide Apply;
    if Other(typ) {
      OtherCommutes(blank, m.supportedCurves, m.supportedPoints, m.secureRenegotiation,
          m.secureRenegotiationSupported, typ, d);
      OtherKeeps(blank, typ, d);
    } else {
      KeptKeeps(used, blank, m, typ, d);
    }
  }

  lemma {:induction false} ApplyAllUsed(used: Hello, blank: Hello, m: Hello, data: Data)
    requires KeepsOf(used, blank, m)
    ensures ApplyAll(blank, data).Some? <==> ApplyAll(m, data).Some?
    ensures ApplyAll(m, data).Some? ==> KeepsOf(used, ApplyAll(blank, data).value, ApplyAll(m, data).value)
    decreases |data|
  {
    hide Apply, KeepsOf;
    if |data| >= 4 && |data| - 4 >= ToWord(data[2], data[3]) {
      var n := ToWord(data[2], data[3]);
      var typ, d := ToWord(data[0], data[1]), data[4..4 + n];
      ApplyKeeps(used, blank, m, typ, d);
      if Apply(m, typ, d).Some? {
        ApplyAllUsed(used, Apply(blank, typ, d).value, Apply(m, typ, d).value, data[4 + n..]);
      }
    }
  }

  /**
   A used message accepts the same bytes as a new one; where they bring no curves, points or
   renegotiation data, it may end up with those of the message it held before, and in nothing else.
   */
  lemma IntoUsed(used: Hello, data: Data)
    ensures DecodeInto(used, data).Some? <==> Decode(data).Some?
    ensures Decode(data).Some? ==> KeepsOf(used, Decode(data).value, DecodeInto(used, data).value)
  {
    hide ApplyAll, ToWord, ToWords;
    if |data| >= 42 && data[38] <= 32 && |data| >= 39 + data[38] {
      var rest := data[39 + data[38]..];
      SuitesIntoUsed(used, ToWord(data[4], data[5]), data[6..38], data[39..39 + data[38]], rest);
    }
  }

  lemma SuitesIntoUsed(used: Hello, vers: word, random: Data, id: Data, data: Data)
    ensures var (a, b) := (DecodeSuites(New(), vers, random, id, data), DecodeSuites(used, vers, random, id, data));
            (b.Some? <==> a.Some?) && (a.Some? ==> KeepsOf(used, a.value, b.value))
  {
    hide ApplyAll, ToWord, ToWords;
    if |data| >= 2 && ToWord(data[0], data[1]) % 2 == 0 && |data| >= 2 + ToWord(data[0], data[1]) {
      var n := ToWord(data[0], data[1]);
      var suites, rest := ToWords(data[2..2 + n]), data[2 + n..];
      if |rest| >= 1 && |rest| - 1 >= rest[0] {
        var methods, tail := rest[1..1 + rest[0]], rest[1 + rest[0]..];
        var blank, m := Blank(New(), vers, random, id, suites, methods), Blank(used, vers, random, id, suites, methods);
        assert KeepsOf(used, blank, m);
        if |tail| >= 2 {
          ApplyAllUsed(used, blank, m, tail[2..]);
        }
      }
    }
  }

  /** unmarshal(marshal(m)) is m exactly for the representable messages; the rest panic or come back different. */
  lemma RoundTrip(m: Hello)
    ensures (Encode(m).Some? && Decode(Encode(m).value) == Some(m)) <==> Representable(m)
  {
    hide Shaped, Decode, Body, From, Short, ApplyAll, E;
    if Representable(m) {
      ShapedShort(m);
      DecodesFields(m);
      ExtensionsBack(m);
    } else if Encode(m).Some? {
      DecodeShaped(Encode(m).value);
      if Shaped(m) {
        DecodesFields(m);
        TooLong(m);
      }
    }
  }

  lemma ShapedShort(m: Hello)
    requires Shaped(m)
    ensures Short(m.alpnProtocols)
  {
  }

  lemma ExtensionsBack(m: Hello)
    requires Representable(m)
    ensures DecodeExtensions(Known(0, m), Extensions(m)) == Some(m)
  {
    hide Shaped, From, E, ApplyAll, Word, ToWord, Known;
    FillsAll(0, m);
    WordFront(|From(0, m)|, From(0, m));
    NothingKnown(m);
  }

  lemma NothingKnown(m: Hello)
    ensures From(0, m) == [] ==> ApplyAll(Known(0, m), From(0, m)) == Some(Known(0, m))
  {
    hide From;
  }

  /** The length field of too many extensions does not match what follows. */
  lemma TooLong(m: Hello)
    requires Shaped(m) && !Representable(m)
    ensures DecodeExtensions(Known(0, m), Extensions(m)) == None
  {
    hide Shaped, From, E, ApplyAll, Known;
    var s := Extensions(m);
    if |From(0, m)| >= 0x1_0000 {
      assert s[0] == Word(|From(0, m)|)[0] && s[1] == Word(|From(0, m)|)[1];
    } else {
      ShapedLimits(m);
      LongRenegotiationFails(0, m);
      WordFront(|From(0, m)|, From(0, m));
      NothingKnown(m);
    }
  }

  lemma ShapedLimits(m: Hello)
    requires Shaped(m)
    ensures |m.secureRenegotiation| <= 255
  {
  }
}
