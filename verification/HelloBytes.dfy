/**
 The hellos as another peer reads them, RFC 5246 sections 7.4.1.2 to 7.4.1.4: every place in the bytes and every
 extension number written out.
 */
module HelloBytes {
  import opened Bytes
  import opened Encoding
  import C = ClientHello
  import S = ServerHello

  type Entry = (nat, Data)

  // ----- Lists of extensions

  function Two(n: nat): Data {
    [n / 256 % 256, n % 256]
  }

  function At(d: Data, i: nat): nat
    requires i + 2 <= |d|
  {
    d[i] as nat * 256 + d[i + 1] as nat
  }

  /** Number and content of each extension. */
  function Listed(block: Data): Option<seq<Entry>>
    decreases |block|
  {
    if block == [] then Some([])
    else if |block| < 4 || 4 + At(block, 2) > |block| then None
    else
      var n := 4 + At(block, 2);
      match Listed(block[n..])
      case None => None
      case Some(rest) => Some([(At(block, 0), block[4..n])] + rest)
  }

  function Before(es: seq<Entry>, r: Option<seq<Entry>>): Option<seq<Entry>> {
    match r
    case None => None
    case Some(rest) => Some(es + rest)
  }

  lemma ListedFront(typ: nat, body: Data, rest: Data)
    requires typ < 0x1_0000 && |body| < 0x1_0000
    ensures Listed(Ext(typ, body) + rest) == Before([(typ, body)], Listed(rest))
  {
    var s := Ext(typ, body) + rest;
    assert s[0] == typ / 256 && s[1] == typ % 256 && s[2] == |body| / 256 && s[3] == |body| % 256;
    assert At(s, 0) == typ && At(s, 2) == |body|;
    assert s[4..4 + |body|] == body && s[4 + |body|..] == rest;
  }

  lemma ListedNone(rest: Data)
    ensures [] + rest == rest && Before([], Listed(rest)) == Listed(rest)
  {
    if Listed(rest).Some? {
      assert [] + Listed(rest).value == Listed(rest).value;
    }
  }

  lemma BeforeTwice(a: seq<Entry>, b: seq<Entry>, r: Option<seq<Entry>>)
    ensures Before(a, Before(b, r)) == Before(a + b, r)
  {
    if r.Some? {
      assert a + (b + r.value) == a + b + r.value;
    }
  }

  // ----- Lists in them

  /** Numbers of two bytes each. */
  function Each(ws: seq<word>): (d: Data)
    ensures |d| == 2 * |ws|
  {
    seq(2 * |ws|, k requires 0 <= k < 2 * |ws| => if k % 2 == 0 then ws[k / 2] / 256 else ws[k / 2] % 256)
  }

  lemma {:induction false} WordsAre(ws: seq<word>)
    ensures Words(ws) == Each(ws)
  {
    if ws != [] {
      WordsAre(ws[1..]);
      var d := Word(ws[0]) + Each(ws[1..]);
      assert forall k | 2 <= k < |d| :: d[k] == Each(ws)[k];
      assert d == Each(ws);
    }
  }

  function Algorithms(ps: seq<Pair>): (d: Data)
    ensures |d| == 2 * |ps|
  {
    seq(2 * |ps|, k requires 0 <= k < 2 * |ps| => if k % 2 == 0 then ps[k / 2].hash else ps[k / 2].signature)
  }

  lemma {:induction false} PairsAre(ps: seq<Pair>)
    ensures Pairs(ps) == Algorithms(ps)
  {
    if ps != [] {
      PairsAre(ps[1..]);
      var d := [ps[0].hash, ps[0].signature] + Algorithms(ps[1..]);
      assert forall k | 2 <= k < |d| :: d[k] == Algorithms(ps)[k];
      assert d == Algorithms(ps);
    }
  }

  /** Texts with the length of each in a byte in front. */
  function Texts(ss: seq<Data>): Data {
    if ss == [] then [] else Texts(ss[..|ss| - 1]) + [|ss[|ss| - 1]| % 256] + ss[|ss| - 1]
  }

  lemma {:induction false} StringsAre(ss: seq<Data>)
    ensures Strings(ss) == Texts(ss)
  {
    if ss != [] {
      var (init, last) := (ss[..|ss| - 1], ss[|ss| - 1]);
      StringsAre(init);
      StringsAppend(init, last);
      assert init + [last] == ss;
    }
  }

  /** Byte strings with the length of each in two bytes in front. */
  function Stamps(ss: seq<Data>): Data {
    if ss == [] then [] else Stamps(ss[..|ss| - 1]) + Two(|ss[|ss| - 1]|) + ss[|ss| - 1]
  }

  lemma {:induction false} BlobsAre(ss: seq<Data>)
    ensures Blobs(ss) == Stamps(ss)
  {
    if ss != [] {
      var (init, last) := (ss[..|ss| - 1], ss[|ss| - 1]);
      BlobsAre(init);
      BlobsAppend(init, last);
      assert init + [last] == ss;
    }
  }

  function If(cond: bool, typ: nat, body: Data): seq<Entry> {
    if cond then [(typ, body)] else []
  }

  // ----- The client's hello

  /** What the client says of itself, the `i`th thing. */
  function ClientSays(i: nat, m: C.Hello): seq<Entry> {
    var n := |m.serverName|;
    if i == 0 then If(m.nextProtoNeg, 13172, [])
    else if i == 1 then If(n > 0, 0, Two(n + 3) + [0] + Two(n) + m.serverName)
    else if i == 2 then If(m.ocspStapling, 5, [1, 0, 0, 0, 0])
    else if i == 3 then If(m.supportedCurves != [], 10, Two(2 * |m.supportedCurves|) + Each(m.supportedCurves))
    else if i == 4 then If(m.supportedPoints != [], 11, [|m.supportedPoints| % 256] + m.supportedPoints)
    else if i == 5 then If(m.ticketSupported, 35, m.sessionTicket)
    else if i == 6 then
      If(m.signatureAndHashes != [], 13, Two(2 * |m.signatureAndHashes|) + Algorithms(m.signatureAndHashes))
    else if i == 7 then
      If(m.secureRenegotiationSupported, 0xff01, [|m.secureRenegotiation| % 256] + m.secureRenegotiation)
    else if i == 8 then If(m.alpnProtocols != [], 16, Two(|Texts(m.alpnProtocols)|) + Texts(m.alpnProtocols))
    else if i == 9 then If(m.scts, 18, [])
    else []
  }

  function AllClientSays(i: nat, m: C.Hello): seq<Entry>
    decreases 10 - i
  {
    if i >= 10 then [] else ClientSays(i, m) + AllClientSays(i + 1, m)
  }

  /** How a list of at most one extension is written. */
  function Written(es: seq<Entry>): Data
    requires forall e | e in es :: e.0 < 0x1_0000
  {
    if es == [] then [] else Ext(es[0].0, es[0].1)
  }

  lemma WrittenListed(es: seq<Entry>, rest: Data)
    requires |es| <= 1 && (forall e | e in es :: e.0 < 0x1_0000) && |Written(es)| < 0x1_0000
    ensures Listed(Written(es) + rest) == Before(es, Listed(rest))
  {
    hide Listed;
    if es == [] {
      ListedNone(rest);
    } else {
      ListedFront(es[0].0, es[0].1, rest);
      assert es == [(es[0].0, es[0].1)];
    }
  }

  lemma RenegotiationIs(info: Data)
    requires |info| <= 254
    ensures C.Renegotiation(info) == Ext(0xff01, [|info| % 256] + info)
  {
    assert Word(|info| + 1) == [0, (|info| + 1) % 256];
    assert C.Renegotiation(info) == Word(0xff01) + [0, (|info| + 1) % 256] + ([|info| % 256] + info);
  }

  lemma ClientSaysIt(i: nat, m: C.Hello)
    requires i < 10 && |m.secureRenegotiation| <= 254
    ensures |ClientSays(i, m)| <= 1 && (forall e | e in ClientSays(i, m) :: e.0 < 0x1_0000)
    ensures C.E(i, m) == Written(ClientSays(i, m))
  {
    hide Ext, Words, Strings, Pairs, Each, Algorithms, Texts, C.Renegotiation;
    WordsAre(m.supportedCurves);
    PairsAre(m.signatureAndHashes);
    StringsAre(m.alpnProtocols);
    RenegotiationIs(m.secureRenegotiation);
  }

  /** The extensions of a client's hello, in order. */
  lemma {:induction false} ClientListed(i: nat, m: C.Hello)
    requires i <= 10 && |C.From(i, m)| < 0x1_0000 && |m.secureRenegotiation| <= 254
    ensures Listed(C.From(i, m)) == Some(AllClientSays(i, m))
    decreases 10 - i
  {
    hide Listed, C.E, ClientSays, Written;
    if i < 10 {
      ClientSaysIt(i, m);
      ClientListed(i + 1, m);
      WrittenListed(ClientSays(i, m), C.From(i + 1, m));
    } else {
      assert Listed([]) == Some([]) by {
        NothingListed();
      }
    }
  }

  lemma NothingListed()
    ensures Listed([]) == Some([])
  {
  }

  function ClientBody(m: C.Hello, block: Data): Data {
    Two(m.vers) + m.random + [|m.sessionID| % 256] + m.sessionID + Two(2 * |m.cipherSuites|) + Each(m.cipherSuites)
    + [|m.compressionMethods| % 256] + m.compressionMethods + if block == [] then [] else Two(|block|) + block
  }

  lemma WordIs(n: nat)
    ensures Word(n) == Two(n)
  {
  }

  lemma ClientBodyIs(m: C.Hello)
    requires |m.random| == 32
    ensures C.Body(m) == ClientBody(m, C.From(0, m))
  {
    hide C.From, Words, Each, Word, Two;
    WordsAre(m.cipherSuites);
    WordIs(m.vers);
    WordIs(2 * |m.cipherSuites|);
    WordIs(|C.From(0, m)|);
  }

  /** All of a client's hello: lengths, fixed fields, and a block of extensions that is left out if it is empty. */
  lemma ClientHelloIs(m: C.Hello)
    requires Short(m.alpnProtocols) && |m.random| == 32 && |m.secureRenegotiation| <= 254
    requires |C.From(0, m)| < 0x1_0000
    ensures exists block ::
              && Listed(block) == Some(AllClientSays(0, m))
              && var n := |ClientBody(m, block)|;
                 C.Encode(m) == Some([1, n / 0x1_0000 % 256, n / 256 % 256, n % 256] + ClientBody(m, block))
  {
    hide C.From, AllClientSays, Listed, ClientBody, C.Body, Short;
    ClientListed(0, m);
    ClientBodyIs(m);
    assert Listed(C.From(0, m)) == Some(AllClientSays(0, m));
  }

  // ----- The server's hello

  function ServerSays(i: nat, m: S.Hello): seq<Entry> {
    var n := |m.alpnProtocol|;
    if i == 0 then If(m.nextProtoNeg, 13172, Texts(m.nextProtos))
    else if i == 1 then If(m.ocspStapling, 5, [])
    else if i == 2 then If(m.ticketSupported, 35, [])
    else if i == 3 then
      If(m.secureRenegotiationSupported, 0xff01, [|m.secureRenegotiation| % 256] + m.secureRenegotiation)
    else if i == 4 then If(n > 0, 16, Two(n + 1) + [n % 256] + m.alpnProtocol)
    else if i == 5 then If(m.scts != [], 18, Two(|Stamps(m.scts)|) + Stamps(m.scts))
    else []
  }

  function AllServerSays(i: nat, m: S.Hello): seq<Entry>
    decreases 6 - i
  {
    if i >= 6 then [] else ServerSays(i, m) + AllServerSays(i + 1, m)
  }

  lemma ServerSaysIt(i: nat, m: S.Hello)
    requires i < 6 && |m.secureRenegotiation| <= 254 && Short(m.nextProtos)
    ensures |ServerSays(i, m)| <= 1 && (forall e | e in ServerSays(i, m) :: e.0 < 0x1_0000)
    ensures S.E(i, m) == Written(ServerSays(i, m))
  {
    hide Word, Strings, Blobs, Texts, Stamps, C.Renegotiation, S.CutStrings, Short;
    S.CutLength(m.nextProtos);
    StringsLength(m.nextProtos);
    StringsAre(m.nextProtos);
    BlobsAre(m.scts);
    RenegotiationIs(m.secureRenegotiation);
    WordIs(|m.alpnProtocol| + 1);
    WordIs(|Stamps(m.scts)|);
  }

  lemma {:induction false} ServerListed(i: nat, m: S.Hello)
    requires i <= 6 && |S.From(i, m)| < 0x1_0000 && |m.secureRenegotiation| <= 254 && Short(m.nextProtos)
    ensures Listed(S.From(i, m)) == Some(AllServerSays(i, m))
    decreases 6 - i
  {
    hide Listed, S.E, ServerSays, Written;
    if i < 6 {
      ServerSaysIt(i, m);
      ServerListed(i + 1, m);
      WrittenListed(ServerSays(i, m), S.From(i + 1, m));
    } else {
      NothingListed();
    }
  }

  function ServerBody(m: S.Hello, block: Data): Data {
    Two(m.vers) + m.random + [|m.sessionID| % 256] + m.sessionID + Two(m.cipherSuite) + [m.compressionMethod]
    + if block == [] then [] else Two(|block|) + block
  }

  lemma ServerBodyIs(m: S.Hello)
    requires |m.random| == 32 && S.Unreached(m) == 0
    ensures S.Body(m) == ServerBody(m, S.From(0, m))
  {
    hide S.From, Word, Two;
    WordIs(m.vers);
    WordIs(m.cipherSuite);
    WordIs(|S.From(0, m)|);
    assert Two(|S.From(0, m)|) + S.From(0, m) + [] == Two(|S.From(0, m)|) + S.From(0, m);
  }

  /** All of a server's hello. */
  lemma ServerHelloIs(m: S.Hello)
    requires |m.random| == 32 && |m.secureRenegotiation| <= 254 && |m.alpnProtocol| < 256
    requires Short(m.nextProtos) && |S.From(0, m)| < 0x1_0000
    ensures exists block ::
              && Listed(block) == Some(AllServerSays(0, m))
              && var n := |ServerBody(m, block)|;
                 S.Encode(m) == Some([2, n / 0x1_0000 % 256, n / 256 % 256, n % 256] + ServerBody(m, block))
  {
    hide S.From, AllServerSays, Listed, ServerBody, S.Body;
    ServerListed(0, m);
    S.CutLength(m.nextProtos);
    assert forall s | s in m.nextProtos :: |s| <= 255;
    ServerBodyIs(m);
    assert Listed(S.From(0, m)) == Some(AllServerSays(0, m));
  }
}
