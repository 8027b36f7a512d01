/**
 What client and server make of a hello, whatever the bytes: which ones they accept, and what they then take each
 field to be, told by the places in the bytes and the numbers of the extensions.
 */
module HelloReads {
  import opened Bytes
  import opened Encoding
  import opened HelloBytes
  import C = ClientHello
  import S = ServerHello

  // ----- Where the parts lie

  /** Where suites, compression methods and extensions of a client's hello begin. */
  function ClientFrame(d: Data): (r: Option<(nat, nat, nat)>)
    ensures r.Some? ==> 39 <= r.value.0 && r.value.0 + 2 <= r.value.1 && r.value.1 + 1 <= r.value.2 <= |d|
  {
    if |d| < 42 || d[38] > 32 || 39 + d[38] as nat + 2 > |d| then None
    else
      var b := 39 + d[38] as nat;
      var c := b + 2 + At(d, b);
      if At(d, b) % 2 == 1 || c + 1 > |d| || c + 1 + d[c] as nat > |d| then None else Some((b, c, c + 1 + d[c] as nat))
  }

  /** The extensions that begin at `e`: nothing, or two bytes that count all the others. */
  function Block(d: Data, e: nat): Option<Data>
    requires e <= |d|
  {
    if e == |d| then Some([])
    else if e + 2 > |d| || At(d, e) != |d| - e - 2 then None
    else Some(d[e + 2..])
  }

  predicate Counted(b: Data) {
    |b| >= 2 && At(b, 0) == |b| - 2
  }

  /** What the last extension of a number says. */
  function Last(es: seq<Entry>, typ: nat): Option<Data> {
    if es == [] then None
    else if Last(es[1..], typ).Some? then Last(es[1..], typ)
    else if es[0].0 == typ then Some(es[0].1)
    else None
  }

  predicate TextsOf(ss: seq<Data>, d: Data) {
    d == Texts(ss) && forall s | s in ss :: 1 <= |s| <= 255
  }

  lemma {:induction false} ToStringsIs(d: Data)
    ensures match ToStrings(d)
            case Some(ss) => TextsOf(ss, d)
            case None => forall ss :: !TextsOf(ss, d)
    decreases |d|
  {
    hide Texts;
    if ToStrings(d).Some? {
      StringsExact(d);
      StringsAre(ToStrings(d).value);
      ToStringsShort(d);
    } else {
      forall ss ensures !TextsOf(ss, d) {
        if TextsOf(ss, d) {
          StringsBack(ss);
          StringsAre(ss);
        }
      }
    }
  }

  lemma {:induction false} StringsExact(d: Data)
    requires ToStrings(d).Some?
    ensures Strings(ToStrings(d).value) == d
    decreases |d|
  {
    hide ToStrings, Strings;
    FirstString(d);
    if d != [] {
      var n := d[0] as nat;
      StringsExact(d[1 + n..]);
      StringsFront(d[1..1 + n], ToStrings(d[1 + n..]).value);
      assert d == [d[0]] + d[1..1 + n] + d[1 + n..];
    }
  }

  lemma FirstString(d: Data)
    requires ToStrings(d).Some?
    ensures d == [] ==> ToStrings(d).value == [] && Strings([]) == []
    ensures d != [] ==>
              var n := d[0] as nat;
              && 1 + n <= |d| && ToStrings(d[1 + n..]).Some?
              && ToStrings(d).value == [d[1..1 + n]] + ToStrings(d[1 + n..]).value
  {
  }

  lemma StringsFront(t: Data, rest: seq<Data>)
    ensures Strings([t] + rest) == [|t| % 256] + t + Strings(rest)
  {
    assert ([t] + rest)[1..] == rest;
  }

  lemma {:induction false} TextsJoin(a: seq<Data>, b: seq<Data>)
    ensures Texts(a + b) == Texts(a) + Texts(b)
  {
    if b == [] {
      assert a + b == a;
    } else {
      var (init, last) := (b[..|b| - 1], b[|b| - 1]);
      TextsJoin(a, init);
      assert (a + b)[..|a + b| - 1] == a + init && (a + b)[|a + b| - 1] == last;
    }
  }

  lemma {:induction false} WordsRead(d: Data)
    requires |d| % 2 == 0
    ensures Each(ToWords(d)) == d
  {
    if d != [] {
      WordsRead(d[2..]);
      var (w, ws) := (ToWord(d[0], d[1]), ToWords(d[2..]));
      assert ToWords(d) == [w] + ws && w / 256 == d[0] && w % 256 == d[1];
      forall k | 0 <= k < |d| ensures Each([w] + ws)[k] == d[k] {
        if k >= 2 {
          assert d[k] == d[2..][k - 2] == Each(ws)[k - 2];
        }
      }
    }
  }

  lemma {:induction false} PairsRead(d: Data)
    requires |d| % 2 == 0
    ensures Algorithms(ToPairs(d)) == d
  {
    if d != [] {
      PairsRead(d[2..]);
      var (p, ps) := (Pair(d[0], d[1]), ToPairs(d[2..]));
      forall k | 0 <= k < |d| ensures Algorithms([p] + ps)[k] == d[k] {
        if k >= 2 {
          assert d[k] == d[2..][k - 2] == Algorithms(ps)[k - 2];
        }
      }
    }
  }

  // ----- The client's hello

  /** The first host name in a list of names, if there is one; None where the list is malformed before that. */
  function Host(d: Data): Option<Option<Data>>
    decreases |d|
  {
    if d == [] then Some(None)
    else if |d| < 3 || 3 + At(d, 1) > |d| then None
    else if d[0] == 0 then Some(Some(d[3..3 + At(d, 1)]))
    else Host(d[3 + At(d, 1)..])
  }

  lemma {:induction false} HostIs(d: Data, name: Data)
    ensures C.HostName(d, name) ==
            match Host(d) case None => None case Some(h) => Some(if h.Some? then h.value else name)
    decreases |d|
  {
    if |d| >= 3 && 3 + At(d, 1) <= |d| {
      HostIs(d[3 + At(d, 1)..], name);
    }
  }

  /** The extensions that a server accepts. */
  ghost predicate ClientGood(typ: nat, b: Data) {
    if typ == 0 then Counted(b) && Host(b[2..]).Some?
    else if typ == 13172 || typ == 18 then b == []
    else if typ == 10 || typ == 13 then Counted(b) && |b| % 2 == 0
    else if typ == 11 || typ == 0xff01 then b != [] && b[0] as nat == |b| - 1
    else if typ == 16 then Counted(b) && exists ss :: TextsOf(ss, b[2..])
    else true
  }

  /** The host name that stands after all extensions. */
  function LastHost(es: seq<Entry>): Option<Data> {
    if es == [] then None
    else if LastHost(es[1..]).Some? then LastHost(es[1..])
    else if es[0].0 == 0 && Counted(es[0].1) && Host(es[0].1[2..]).Some? then Host(es[0].1[2..]).value
    else None
  }

  /** The protocols of all the extensions that bring some, in order. */
  function Protocols(es: seq<Entry>): Data {
    if es == [] then [] else (if es[0].0 == 16 && Counted(es[0].1) then es[0].1[2..] else []) + Protocols(es[1..])
  }

  /** A flag is set by an extension of its number. */
  predicate Flag(before: bool, es: seq<Entry>, typ: nat, after: bool) {
    after == (before || Last(es, typ).Some?)
  }

  /** A field is that of the last extension of its number, without the first `k` bytes. */
  predicate Value(before: Data, es: seq<Entry>, typ: nat, k: nat, after: Data) {
    match Last(es, typ)
    case None => after == before
    case Some(b) => |b| >= k && after == b[k..]
  }

  predicate Flags(m0: C.Hello, es: seq<Entry>, m: C.Hello) {
    && Flag(m0.nextProtoNeg, es, 13172, m.nextProtoNeg) && Flag(m0.scts, es, 18, m.scts)
    && Flag(m0.ticketSupported, es, 35, m.ticketSupported)
    && Flag(m0.secureRenegotiationSupported, es, 0xff01, m.secureRenegotiationSupported)
    && (match Last(es, 5)
        case None => m.ocspStapling == m0.ocspStapling
        case Some(b) => m.ocspStapling == (b != [] && b[0] == 1))
  }

  predicate Values(m0: C.Hello, es: seq<Entry>, m: C.Hello) {
    && Value(m0.sessionTicket, es, 35, 0, m.sessionTicket) && Value(m0.supportedPoints, es, 11, 1, m.supportedPoints)
    && Value(m0.secureRenegotiation, es, 0xff01, 1, m.secureRenegotiation)
    && Value(Each(m0.supportedCurves), es, 10, 2, Each(m.supportedCurves))
    && Value(Algorithms(m0.signatureAndHashes), es, 13, 2, Algorithms(m.signatureAndHashes))
  }

  predicate Names(m0: C.Hello, es: seq<Entry>, m: C.Hello) {
    && m.serverName == (if LastHost(es).Some? then LastHost(es).value else m0.serverName)
    && Texts(m.alpnProtocols) == Texts(m0.alpnProtocols) + Protocols(es)
  }

  predicate Kept(m0: C.Hello, m: C.Hello) {
    && (m.vers, m.random, m.sessionID) == (m0.vers, m0.random, m0.sessionID)
    && (m.cipherSuites, m.compressionMethods) == (m0.cipherSuites, m0.compressionMethods)
  }

  /** What extensions add to a hello. */
  predicate Told(m0: C.Hello, es: seq<Entry>, m: C.Hello) {
    Flags(m0, es, m) && Values(m0, es, m) && Names(m0, es, m) && Kept(m0, m)
  }

  /** One extension more in front of others, for a flag. */
  lemma FlagFront(before: bool, e: Entry, now: bool, es: seq<Entry>, typ: nat, after: bool)
    requires now == (before || e.0 == typ) && Flag(now, es, typ, after)
    ensures Flag(before, [e] + es, typ, after)
  {
    assert ([e] + es)[1..] == es;
  }

  predicate ValueNow(before: Data, e: Entry, typ: nat, k: nat, now: Data) {
    if e.0 == typ then |e.1| >= k && now == e.1[k..] else now == before
  }

  lemma ValueFront(before: Data, e: Entry, now: Data, es: seq<Entry>, typ: nat, k: nat, after: Data)
    requires ValueNow(before, e, typ, k, now) && Value(now, es, typ, k, after)
    ensures Value(before, [e] + es, typ, k, after)
  {
    assert ([e] + es)[1..] == es;
  }

  // What a single extension does, by its number.

  lemma ApplyName(m: C.Hello, b: Data)
    ensures C.Apply(m, 0, b) ==
            if !Counted(b) || Host(b[2..]) == None then None
            else Some(m.(serverName := if Host(b[2..]).value.Some? then Host(b[2..]).value.value else m.serverName))
  {
    hide Host, C.HostName;
    if |b| >= 2 {
      HostIs(b[2..], m.serverName);
    }
  }

  lemma ApplyFlags(m: C.Hello, b: Data)
    ensures C.Apply(m, 13172, b) == if b == [] then Some(m.(nextProtoNeg := true)) else None
    ensures C.Apply(m, 18, b) == if b == [] then Some(m.(scts := true)) else None
    ensures C.Apply(m, 5, b) == Some(m.(ocspStapling := b != [] && b[0] == 1))
    ensures C.Apply(m, 35, b) == Some(m.(ticketSupported := true, sessionTicket := b))
  {
  }

  lemma ApplyValues(m: C.Hello, b: Data)
    ensures C.Apply(m, 11, b) ==
            if b == [] || b[0] as nat != |b| - 1 then None else Some(m.(supportedPoints := b[1..]))
    ensures C.Apply(m, 0xff01, b) ==
            if b == [] || b[0] as nat != |b| - 1 then None
            else Some(m.(secureRenegotiation := b[1..], secureRenegotiationSupported := true))
  {
  }

  lemma ApplyLists(m: C.Hello, b: Data)
    ensures C.Apply(m, 10, b) ==
            if !Counted(b) || |b| % 2 != 0 then None else Some(m.(supportedCurves := ToWords(b[2..])))
    ensures C.Apply(m, 13, b) ==
            if !Counted(b) || |b| % 2 != 0 then None else Some(m.(signatureAndHashes := ToPairs(b[2..])))
  {
    hide ToWords, ToPairs;
  }

  lemma ApplyProtocols(m: C.Hello, b: Data)
    ensures C.Apply(m, 16, b) ==
            if !Counted(b) || ToStrings(b[2..]) == None then None
            else Some(m.(alpnProtocols := m.alpnProtocols + ToStrings(b[2..]).value))
  {
    hide ToStrings;
  }

  predicate Known(typ: nat) {
    typ in {0, 5, 10, 11, 13, 16, 18, 35, 13172, 0xff01}
  }

  lemma ApplyOther(m: C.Hello, typ: word, b: Data)
    requires !Known(typ)
    ensures C.Apply(m, typ, b) == Some(m)
  {
  }

  /** Acceptance and effect of a single extension are as told. */
  ghost predicate Right(m: C.Hello, typ: word, b: Data) {
    && (C.Apply(m, typ, b).Some? <==> ClientGood(typ, b))
    && (C.Apply(m, typ, b).Some? ==> OneTold(m, (typ, b), C.Apply(m, typ, b).value))
  }

  lemma RightName(m: C.Hello, typ: word, b: Data)
    requires typ == 0
    ensures Right(m, typ, b)
  {
    hide C.Apply, Host, Texts, Each, Algorithms, TextsOf, ToStrings, ToWords, ToPairs;
    ApplyName(m, b);
  }

  lemma RightFlags(m: C.Hello, typ: word, b: Data)
    requires typ == 5 || typ == 18 || typ == 13172
    ensures Right(m, typ, b)
  {
    hide C.Apply, Host, Texts, Each, Algorithms, TextsOf, ToStrings, ToWords, ToPairs;
    ApplyFlags(m, b);
  }

  lemma RightTicket(m: C.Hello, typ: word, b: Data)
    requires typ == 35
    ensures Right(m, typ, b)
  {
    hide C.Apply, Host, Texts, Each, Algorithms, TextsOf, ToStrings, ToWords, ToPairs;
    assert b[0..] == b;
    ApplyFlags(m, b);
  }

  lemma RightValues(m: C.Hello, typ: word, b: Data)
    requires typ == 11 || typ == 0xff01
    ensures Right(m, typ, b)
  {
    hide C.Apply, Host, Texts, Each, Algorithms, TextsOf, ToStrings, ToWords, ToPairs;
    ApplyValues(m, b);
  }

  lemma RightLists(m: C.Hello, typ: word, b: Data)
    requires typ == 10 || typ == 13
    ensures Right(m, typ, b)
  {
    hide C.Apply, Host, Texts, Each, Algorithms, TextsOf, ToStrings, ToWords, ToPairs;
    ApplyLists(m, b);
    ListsRead(b);
  }

  lemma RightProtocols(m: C.Hello, typ: word, b: Data)
    requires typ == 16
    ensures Right(m, typ, b)
  {
    hide C.Apply, Host, Texts, Each, Algorithms, TextsOf, ToStrings, ToWords, ToPairs;
    ApplyProtocols(m, b);
    ProtocolsRead(m, b);
  }

  lemma RightOther(m: C.Hello, typ: word, b: Data)
    requires !Known(typ)
    ensures Right(m, typ, b)
  {
    hide C.Apply, Host, Texts, Each, Algorithms, TextsOf, ToStrings, ToWords, ToPairs;
    ApplyOther(m, typ, b);
  }

  lemma ApplyIs(m: C.Hello, typ: word, b: Data)
    ensures Right(m, typ, b)
  {
    hide Right;
    if typ == 0 {
      RightName(m, typ, b);
    } else if typ == 5 || typ == 18 || typ == 13172 {
      RightFlags(m, typ, b);
    } else if typ == 35 {
      RightTicket(m, typ, b);
    } else if typ == 11 || typ == 0xff01 {
      RightValues(m, typ, b);
    } else if typ == 10 || typ == 13 {
      RightLists(m, typ, b);
    } else if typ == 16 {
      RightProtocols(m, typ, b);
    } else {
      RightOther(m, typ, b);
    }
  }

  lemma ListsRead(b: Data)
    ensures Counted(b) && |b| % 2 == 0 ==> Each(ToWords(b[2..])) == b[2..] && Algorithms(ToPairs(b[2..])) == b[2..]
  {
    if Counted(b) && |b| % 2 == 0 {
      WordsRead(b[2..]);
      PairsRead(b[2..]);
    }
  }

  lemma ProtocolsRead(m: C.Hello, b: Data)
    ensures Counted(b) ==>
              && (ToStrings(b[2..]).Some? <==> exists ss :: TextsOf(ss, b[2..]))
              && (ToStrings(b[2..]).Some? ==>
                   Texts(m.alpnProtocols + ToStrings(b[2..]).value) == Texts(m.alpnProtocols) + b[2..])
  {
    hide Texts;
    if Counted(b) {
      ToStringsIs(b[2..]);
      if ToStrings(b[2..]).Some? {
        TextsJoin(m.alpnProtocols, ToStrings(b[2..]).value);
      }
    }
  }

  /** What a single extension adds. */
  predicate OneTold(m0: C.Hello, e: Entry, m: C.Hello) {
    && FlagsNow(m0, e, m) && ValuesNow(m0, e, m) && NamesNow(m0, e, m) && Kept(m0, m)
  }

  predicate FlagsNow(m0: C.Hello, e: Entry, m: C.Hello) {
    && m.nextProtoNeg == (m0.nextProtoNeg || e.0 == 13172) && m.scts == (m0.scts || e.0 == 18)
    && m.ticketSupported == (m0.ticketSupported || e.0 == 35)
    && m.secureRenegotiationSupported == (m0.secureRenegotiationSupported || e.0 == 0xff01)
    && m.ocspStapling == if e.0 == 5 then e.1 != [] && e.1[0] == 1 else m0.ocspStapling
  }

  predicate ValuesNow(m0: C.Hello, e: Entry, m: C.Hello) {
    && ValueNow(m0.sessionTicket, e, 35, 0, m.sessionTicket)
    && ValueNow(m0.supportedPoints, e, 11, 1, m.supportedPoints)
    && ValueNow(m0.secureRenegotiation, e, 0xff01, 1, m.secureRenegotiation)
    && ValueNow(Each(m0.supportedCurves), e, 10, 2, Each(m.supportedCurves))
    && ValueNow(Algorithms(m0.signatureAndHashes), e, 13, 2, Algorithms(m.signatureAndHashes))
  }

  predicate NamesNow(m0: C.Hello, e: Entry, m: C.Hello) {
    && (if e.0 == 0 then
         && Counted(e.1) && Host(e.1[2..]).Some?
         && var h := Host(e.1[2..]).value; m.serverName == if h.Some? then h.value else m0.serverName
       else m.serverName == m0.serverName)
    && (if e.0 == 16 then Counted(e.1) && Texts(m.alpnProtocols) == Texts(m0.alpnProtocols) + e.1[2..]
        else m.alpnProtocols == m0.alpnProtocols)
  }

  lemma FlagsFront(m0: C.Hello, e: Entry, m1: C.Hello, es: seq<Entry>, m: C.Hello)
    requires FlagsNow(m0, e, m1) && Flags(m1, es, m)
    ensures Flags(m0, [e] + es, m)
  {
    hide Flag;
    FlagFront(m0.nextProtoNeg, e, m1.nextProtoNeg, es, 13172, m.nextProtoNeg);
    FlagFront(m0.scts, e, m1.scts, es, 18, m.scts);
    FlagFront(m0.ticketSupported, e, m1.ticketSupported, es, 35, m.ticketSupported);
    FlagFront(m0.secureRenegotiationSupported, e, m1.secureRenegotiationSupported, es, 0xff01,
        m.secureRenegotiationSupported);
    assert ([e] + es)[1..] == es;
  }

  lemma ValuesFront(m0: C.Hello, e: Entry, m1: C.Hello, es: seq<Entry>, m: C.Hello)
    requires ValuesNow(m0, e, m1) && Values(m1, es, m)
    ensures Values(m0, [e] + es, m)
  {
    hide Value, ValueNow, Each, Algorithms;
    ValueFront(m0.sessionTicket, e, m1.sessionTicket, es, 35, 0, m.sessionTicket);
    ValueFront(m0.supportedPoints, e, m1.supportedPoints, es, 11, 1, m.supportedPoints);
    ValueFront(m0.secureRenegotiation, e, m1.secureRenegotiation, es, 0xff01, 1, m.secureRenegotiation);
    ValueFront(Each(m0.supportedCurves), e, Each(m1.supportedCurves), es, 10, 2, Each(m.supportedCurves));
    ValueFront(Algorithms(m0.signatureAndHashes), e, Algorithms(m1.signatureAndHashes), es, 13, 2,
        Algorithms(m.signatureAndHashes));
  }

  lemma NamesFront(m0: C.Hello, e: Entry, m1: C.Hello, es: seq<Entry>, m: C.Hello)
    requires NamesNow(m0, e, m1) && Names(m1, es, m)
    ensures Names(m0, [e] + es, m)
  {
    hide Host, Texts;
    assert ([e] + es)[1..] == es;
    if e.0 == 16 {
      assert Texts(m0.alpnProtocols) + e.1[2..] + Protocols(es)
          == Texts(m0.alpnProtocols) + (e.1[2..] + Protocols(es));
    } else {
      assert [] + Protocols(es) == Protocols(es);
    }
  }

  /** The list of extensions has a first one, with all the bytes it announces. */
  predicate HasFirst(data: Data) {
    |data| >= 4 && 4 + At(data, 2) <= |data|
  }

  function First(data: Data): (e: Entry)
    requires HasFirst(data)
    ensures e.0 < 0x1_0000
  {
    (At(data, 0), data[4..4 + At(data, 2)])
  }

  function Others(data: Data): (rest: Data)
    requires HasFirst(data)
    ensures |rest| < |data|
  {
    data[4 + At(data, 2)..]
  }

  lemma ListedStep(data: Data)
    requires data != []
    ensures !HasFirst(data) ==> Listed(data) == None
    ensures HasFirst(data) ==> Listed(data) == Before([First(data)], Listed(Others(data)))
  {
  }

  lemma ClientStep(m: C.Hello, data: Data)
    requires data != []
    ensures !HasFirst(data) ==> C.ApplyAll(m, data) == None
    ensures HasFirst(data) ==>
              var r := C.Apply(m, First(data).0, First(data).1);
              C.ApplyAll(m, data) == if r == None then None else C.ApplyAll(r.value, Others(data))
  {
    hide C.Apply;
  }

  ghost predicate AllGood(es: seq<Entry>, good: (nat, Data) -> bool) {
    forall e | e in es :: good(e.0, e.1)
  }

  lemma AllGoodFront(e: Entry, es: seq<Entry>, good: (nat, Data) -> bool)
    ensures AllGood([e] + es, good) <==> good(e.0, e.1) && AllGood(es, good)
  {
    assert ([e] + es)[0] == e && forall i | 0 <= i < |es| :: ([e] + es)[i + 1] == es[i];
  }

  /** All extensions, one after the other. */
  lemma {:induction false} ClientListRead(m0: C.Hello, data: Data)
    ensures C.ApplyAll(m0, data).Some? <==> Listed(data).Some? && AllGood(Listed(data).value, ClientGood)
    ensures C.ApplyAll(m0, data).Some? ==> Told(m0, Listed(data).value, C.ApplyAll(m0, data).value)
    decreases |data|
  {
    hide C.Apply, C.ApplyAll, ClientGood, Flags, Values, Names, FlagsNow, ValuesNow, NamesNow, Listed, AllGood, First,
         Others, HasFirst, Kept;
    if data == [] {
      ToldNothing(m0);
      NoneGood();
    } else {
      ListedStep(data);
      ClientStep(m0, data);
      if HasFirst(data) {
        var (e, rest) := (First(data), Others(data));
        ApplyIs(m0, e.0, e.1);
        if Listed(rest).Some? {
          AllGoodFront(e, Listed(rest).value, ClientGood);
        }
        if C.Apply(m0, e.0, e.1).Some? {
          var m1 := C.Apply(m0, e.0, e.1).value;
          ClientListRead(m1, rest);
          if C.ApplyAll(m1, rest).Some? {
            ToldFront(m0, e, m1, Listed(rest).value, C.ApplyAll(m1, rest).value);
          }
        }
      }
    }
  }

  lemma NoneGood()
    ensures AllGood([], ClientGood) && AllGood([], ServerGood)
  {
  }

  lemma ToldFront(m0: C.Hello, e: Entry, m1: C.Hello, es: seq<Entry>, m: C.Hello)
    requires OneTold(m0, e, m1) && Told(m1, es, m)
    ensures Told(m0, [e] + es, m)
  {
    hide Flags, Values, Names, FlagsNow, ValuesNow, NamesNow;
    FlagsFront(m0, e, m1, es, m);
    ValuesFront(m0, e, m1, es, m);
    NamesFront(m0, e, m1, es, m);
  }

  lemma ToldNothing(m: C.Hello)
    ensures Told(m, [], m) && C.ApplyAll(m, []) == Some(m) && Listed([]) == Some([])
  {
  }

  /** The fixed fields, read off their places. */
  predicate ClientFields(d: Data, m: C.Hello)
    requires ClientFrame(d).Some?
  {
    var (b, c, e) := ClientFrame(d).value;
    && m.vers == At(d, 4) && m.random == d[6..38] && m.sessionID == d[39..b]
    && Each(m.cipherSuites) == d[b + 2..c] && m.compressionMethods == d[c + 1..e]
  }

  /** The hello as it is before its extensions are read; a suite may signal secure renegotiation. */
  function Bare(m: C.Hello): C.Hello {
    C.Hello(m.vers, m.random, m.sessionID, m.cipherSuites, m.compressionMethods, false, [], false, [], [], false, [],
        [], 0x00ff in m.cipherSuites, [], [], false)
  }

  /**
   A client's hello is accepted exactly if its parts lie within it and each of its extensions is well formed, and
   then it says this.
   */
  lemma ClientDecides(d: Data)
    ensures C.Decode(d).Some? <==>
            && ClientFrame(d).Some? && Block(d, ClientFrame(d).value.2).Some?
            && var es := Listed(Block(d, ClientFrame(d).value.2).value);
               es.Some? && AllGood(es.value, ClientGood)
    ensures C.Decode(d).Some? ==>
              var m := C.Decode(d).value;
              && ClientFields(d, m)
              && Told(Bare(m), Listed(Block(d, ClientFrame(d).value.2).value).value, m)
  {
    hide C.ApplyAll, Listed, ClientGood, Flags, Values, Names, Each, C.Decode, ToWords, ClientFrame, Block;
    ClientParts(d);
    if ClientFrame(d).Some? {
      var (b, c, e) := ClientFrame(d).value;
      WordsRead(d[b + 2..c]);
      var m0 := C.Blank(C.New(), At(d, 4), d[6..38], d[39..b], ToWords(d[b + 2..c]), d[c + 1..e]);
      if Block(d, e).Some? {
        ClientListRead(m0, Block(d, e).value);
        if C.Decode(d).Some? {
          assert Kept(m0, C.Decode(d).value);
          assert m0 == Bare(C.Decode(d).value);
        }
      }
    }
  }

  /** The parts of a hello, in their places. */
  lemma ClientParts(d: Data)
    ensures ClientFrame(d) == None ==> C.Decode(d) == None
    ensures ClientFrame(d).Some? ==>
              var (b, c, e) := ClientFrame(d).value;
              && |d| >= 42 && (c - (b + 2)) % 2 == 0
              && C.Decode(d) == if Block(d, e) == None then None
                 else C.ApplyAll(C.Blank(C.New(), At(d, 4), d[6..38], d[39..b], ToWords(d[b + 2..c]), d[c + 1..e]),
                                 Block(d, e).value)
  {
    hide C.ApplyAll, ToWords, C.Blank, C.New, Block, C.DecodeSuites;
    if |d| >= 42 && d[38] <= 32 {
      var b := 39 + d[38] as nat;
      if b <= |d| {
        SuitesParts(C.New(), At(d, 4), d[6..38], d[39..b], d, b);
      }
    }
  }

  lemma SuitesParts(used: C.Hello, vers: word, random: Data, sessionID: Data, d: Data, b: nat)
    requires b <= |d|
    ensures C.DecodeSuites(used, vers, random, sessionID, d[b..]) ==
            if b + 2 > |d| || At(d, b) % 2 == 1 || b + 2 + At(d, b) + 1 > |d| then None
            else
              var c := b + 2 + At(d, b);
              var e := c + 1 + d[c] as nat;
              if e > |d| || Block(d, e) == None then None
              else C.ApplyAll(C.Blank(used, vers, random, sessionID, ToWords(d[b + 2..c]), d[c + 1..e]),
                              Block(d, e).value)
  {
    hide C.ApplyAll, ToWords, C.Blank, Block, C.DecodeMethods;
    if b + 2 <= |d| && At(d, b) % 2 == 0 && b + 2 + At(d, b) <= |d| {
      var (c, suites) := (b + 2 + At(d, b), d[b..]);
      assert suites[2..2 + At(d, b)] == d[b + 2..c] && suites[2 + At(d, b)..] == d[c..];
      MethodsParts(used, vers, random, sessionID, ToWords(d[b + 2..c]), d, c);
    }
  }

  lemma MethodsParts(used: C.Hello, vers: word, random: Data, sessionID: Data, suites: seq<word>, d: Data, c: nat)
    requires c <= |d|
    ensures C.DecodeMethods(used, vers, random, sessionID, suites, d[c..]) ==
            if c + 1 > |d| then None
            else
              var e := c + 1 + d[c] as nat;
              if e > |d| || Block(d, e) == None then None
              else C.ApplyAll(C.Blank(used, vers, random, sessionID, suites, d[c + 1..e]), Block(d, e).value)
  {
    hide C.ApplyAll, C.Blank, Block, C.DecodeExtensions;
    if c + 1 <= |d| && c + 1 + d[c] as nat <= |d| {
      var (e, methods) := (c + 1 + d[c] as nat, d[c..]);
      assert methods[1..1 + methods[0]] == d[c + 1..e] && methods[1 + methods[0]..] == d[e..];
      ClientBlock(C.Blank(used, vers, random, sessionID, suites, d[c + 1..e]), d, e);
    }
  }

  lemma ClientBlock(m: C.Hello, d: Data, e: nat)
    requires e <= |d|
    ensures C.DecodeExtensions(m, d[e..]) ==
            if Block(d, e) == None then None else C.ApplyAll(m, Block(d, e).value)
  {
    ToldNothing(m);
    hide C.ApplyAll;
    if e + 2 <= |d| {
      assert d[e..][2..] == d[e + 2..];
    }
  }

  // ----- The server's hello

  ghost predicate BlobsOf(ss: seq<Data>, d: Data) {
    d == Stamps(ss) && forall s | s in ss :: 1 <= |s| < 0x1_0000
  }

  lemma {:induction false} ToBlobsIs(d: Data)
    ensures match ToBlobs(d)
            case Some(ss) => BlobsOf(ss, d)
            case None => forall ss :: !BlobsOf(ss, d)
  {
    hide Stamps;
    if ToBlobs(d).Some? {
      BlobsExact(d);
      BlobsAre(ToBlobs(d).value);
      ToBlobsSized(d);
    } else {
      forall ss ensures !BlobsOf(ss, d) {
        if BlobsOf(ss, d) {
          BlobsBack(ss);
          BlobsAre(ss);
        }
      }
    }
  }

  lemma {:induction false} BlobsExact(d: Data)
    requires ToBlobs(d).Some?
    ensures Blobs(ToBlobs(d).value) == d
    decreases |d|
  {
    hide Word, ToWord, ToBlobs, Blobs;
    FirstBlob(d);
    if d != [] {
      var n := ToWord(d[0], d[1]);
      BlobsExact(d[2 + n..]);
      BlobsFront(d[2..2 + n], ToBlobs(d[2 + n..]).value);
      WordRead(d[0], d[1]);
      SplitBlob(d, n);
    }
  }

  lemma FirstBlob(d: Data)
    requires ToBlobs(d).Some?
    ensures d == [] ==> ToBlobs(d).value == [] && Blobs([]) == []
    ensures d != [] ==>
              && |d| >= 2
              && var n := ToWord(d[0], d[1]);
                 && 2 + n <= |d| && ToBlobs(d[2 + n..]).Some?
                 && ToBlobs(d).value == [d[2..2 + n]] + ToBlobs(d[2 + n..]).value
  {
  }

  lemma BlobsFront(t: Data, rest: seq<Data>)
    ensures Blobs([t] + rest) == Word(|t|) + t + Blobs(rest)
  {
    assert ([t] + rest)[1..] == rest;
  }

  lemma WordRead(a: byte, b: byte)
    ensures Word(ToWord(a, b)) == [a, b]
  {
  }

  lemma SplitBlob(d: Data, n: nat)
    requires 2 + n <= |d|
    ensures d == [d[0], d[1]] + d[2..2 + n] + d[2 + n..]
  {
  }

  /** The extensions that a client accepts. */
  ghost predicate ServerGood(typ: nat, b: Data) {
    if typ == 13172 then exists ss :: TextsOf(ss, b)
    else if typ == 5 || typ == 35 then b == []
    else if typ == 0xff01 then b != [] && b[0] as nat == |b| - 1
    else if typ == 16 then |b| >= 4 && Counted(b) && b[2] as nat == |b| - 3
    else if typ == 18 then |b| >= 3 && Counted(b) && exists ss :: BlobsOf(ss, b[2..])
    else true
  }

  /** The protocols of all the extensions that bring some, in order. */
  function NextProtocols(es: seq<Entry>): Data {
    if es == [] then [] else (if es[0].0 == 13172 then es[0].1 else []) + NextProtocols(es[1..])
  }

  /** What extensions add to a server's hello. */
  predicate ServerTold(m0: S.Hello, es: seq<Entry>, m: S.Hello) {
    && Flag(m0.nextProtoNeg, es, 13172, m.nextProtoNeg) && Flag(m0.ocspStapling, es, 5, m.ocspStapling)
    && Flag(m0.ticketSupported, es, 35, m.ticketSupported)
    && Flag(m0.secureRenegotiationSupported, es, 0xff01, m.secureRenegotiationSupported)
    && Value(m0.secureRenegotiation, es, 0xff01, 1, m.secureRenegotiation)
    && Value(m0.alpnProtocol, es, 16, 3, m.alpnProtocol) && Value(Stamps(m0.scts), es, 18, 2, Stamps(m.scts))
    && Texts(m.nextProtos) == Texts(m0.nextProtos) + NextProtocols(es) && ServerKept(m0, m)
  }

  predicate ServerKept(m0: S.Hello, m: S.Hello) {
    && (m.vers, m.random, m.sessionID) == (m0.vers, m0.random, m0.sessionID)
    && (m.cipherSuite, m.compressionMethod) == (m0.cipherSuite, m0.compressionMethod)
  }

  /** What a single extension adds. */
  predicate ServerNow(m0: S.Hello, e: Entry, m: S.Hello) {
    && m.nextProtoNeg == (m0.nextProtoNeg || e.0 == 13172) && m.ocspStapling == (m0.ocspStapling || e.0 == 5)
    && m.ticketSupported == (m0.ticketSupported || e.0 == 35)
    && m.secureRenegotiationSupported == (m0.secureRenegotiationSupported || e.0 == 0xff01)
    && ValueNow(m0.secureRenegotiation, e, 0xff01, 1, m.secureRenegotiation)
    && ValueNow(m0.alpnProtocol, e, 16, 3, m.alpnProtocol) && ValueNow(Stamps(m0.scts), e, 18, 2, Stamps(m.scts))
    && Texts(m.nextProtos) == Texts(m0.nextProtos) + (if e.0 == 13172 then e.1 else []) && ServerKept(m0, m)
  }

  ghost predicate ServerRight(m: S.Hello, typ: word, b: Data) {
    && (S.Apply(m, typ, b).Some? <==> ServerGood(typ, b))
    && (S.Apply(m, typ, b).Some? ==> ServerNow(m, (typ, b), S.Apply(m, typ, b).value))
  }

  lemma ServerFlagsRight(m: S.Hello, typ: word, b: Data)
    requires typ == 5 || typ == 35
    ensures ServerRight(m, typ, b)
  {
    hide Stamps, Texts, TextsOf, BlobsOf, ToStrings, ToBlobs;
    assert Texts(m.nextProtos) + [] == Texts(m.nextProtos);
  }

  lemma ServerValuesRight(m: S.Hello, typ: word, b: Data)
    requires typ == 16 || typ == 0xff01
    ensures ServerRight(m, typ, b)
  {
    hide Stamps, Texts, TextsOf, BlobsOf, ToStrings, ToBlobs;
    assert Texts(m.nextProtos) + [] == Texts(m.nextProtos);
  }

  lemma ServerListsRight(m: S.Hello, typ: word, b: Data)
    requires typ == 13172 || typ == 18
    ensures ServerRight(m, typ, b)
  {
    hide Stamps, Texts, ToStrings, ToBlobs;
    assert Texts(m.nextProtos) + [] == Texts(m.nextProtos);
    if typ == 13172 {
      ToStringsIs(b);
      if ToStrings(b).Some? {
        TextsJoin(m.nextProtos, ToStrings(b).value);
      }
    } else if |b| >= 2 {
      ToBlobsIs(b[2..]);
    }
  }

  lemma ServerOtherRight(m: S.Hello, typ: word, b: Data)
    requires typ !in {5, 16, 18, 35, 13172, 0xff01}
    ensures ServerRight(m, typ, b)
  {
    hide Stamps, Texts, TextsOf, BlobsOf, ToStrings, ToBlobs;
    assert Texts(m.nextProtos) + [] == Texts(m.nextProtos);
  }

  lemma ServerApplyIs(m: S.Hello, typ: word, b: Data)
    ensures ServerRight(m, typ, b)
  {
    hide ServerRight;
    if typ == 5 || typ == 35 {
      ServerFlagsRight(m, typ, b);
    } else if typ == 16 || typ == 0xff01 {
      ServerValuesRight(m, typ, b);
    } else if typ == 13172 || typ == 18 {
      ServerListsRight(m, typ, b);
    } else {
      ServerOtherRight(m, typ, b);
    }
  }

  lemma ServerFront(m0: S.Hello, e: Entry, m1: S.Hello, es: seq<Entry>, m: S.Hello)
    requires ServerNow(m0, e, m1) && ServerTold(m1, es, m)
    ensures ServerTold(m0, [e] + es, m)
  {
    hide Flag, Value, ValueNow, Texts, Stamps;
    FlagFront(m0.nextProtoNeg, e, m1.nextProtoNeg, es, 13172, m.nextProtoNeg);
    FlagFront(m0.ocspStapling, e, m1.ocspStapling, es, 5, m.ocspStapling);
    FlagFront(m0.ticketSupported, e, m1.ticketSupported, es, 35, m.ticketSupported);
    FlagFront(m0.secureRenegotiationSupported, e, m1.secureRenegotiationSupported, es, 0xff01,
        m.secureRenegotiationSupported);
    ValueFront(m0.secureRenegotiation, e, m1.secureRenegotiation, es, 0xff01, 1, m.secureRenegotiation);
    ValueFront(m0.alpnProtocol, e, m1.alpnProtocol, es, 16, 3, m.alpnProtocol);
    ValueFront(Stamps(m0.scts), e, Stamps(m1.scts), es, 18, 2, Stamps(m.scts));
    assert ([e] + es)[1..] == es;
    var now := if e.0 == 13172 then e.1 else [];
    assert Texts(m0.nextProtos) + now + NextProtocols(es) == Texts(m0.nextProtos) + (now + NextProtocols(es));
  }

  lemma ServerStep(m: S.Hello, data: Data)
    requires data != []
    ensures !HasFirst(data) ==> S.ApplyAll(m, data) == None
    ensures HasFirst(data) ==>
              var r := S.Apply(m, First(data).0, First(data).1);
              S.ApplyAll(m, data) == if r == None then None else S.ApplyAll(r.value, Others(data))
  {
    hide S.Apply;
  }

  lemma {:induction false} ServerListRead(m0: S.Hello, data: Data)
    ensures S.ApplyAll(m0, data).Some? <==> Listed(data).Some? && AllGood(Listed(data).value, ServerGood)
    ensures S.ApplyAll(m0, data).Some? ==> ServerTold(m0, Listed(data).value, S.ApplyAll(m0, data).value)
    decreases |data|
  {
    hide S.Apply, S.ApplyAll, ServerGood, ServerTold, ServerNow, Listed, AllGood, First, Others, HasFirst;
    if data == [] {
      ServerToldNothing(m0);
      NoneGood();
    } else {
      ListedStep(data);
      ServerStep(m0, data);
      if HasFirst(data) {
        var (e, rest) := (First(data), Others(data));
        ServerApplyIs(m0, e.0, e.1);
        if Listed(rest).Some? {
          AllGoodFront(e, Listed(rest).value, ServerGood);
        }
        if S.Apply(m0, e.0, e.1).Some? {
          var m1 := S.Apply(m0, e.0, e.1).value;
          ServerListRead(m1, rest);
          if S.ApplyAll(m1, rest).Some? {
            ServerFront(m0, e, m1, Listed(rest).value, S.ApplyAll(m1, rest).value);
          }
        }
      }
    }
  }

  lemma ServerToldNothing(m: S.Hello)
    ensures ServerTold(m, [], m) && S.ApplyAll(m, []) == Some(m) && Listed([]) == Some([])
  {
  }

  /** Where the suite of a server's hello lies; its extensions begin three bytes later. */
  function ServerFrame(d: Data): (r: Option<nat>)
    ensures r.Some? ==> 39 <= r.value && r.value + 3 <= |d|
  {
    if |d| < 42 || d[38] > 32 || 39 + d[38] as nat + 3 > |d| then None else Some(39 + d[38] as nat)
  }

  /** The hello as it is before its extensions are read. */
  function ServerBare(m: S.Hello): S.Hello {
    S.Hello(m.vers, m.random, m.sessionID, m.cipherSuite, m.compressionMethod, false, [], false, false, false, [], [],
        [])
  }

  lemma ServerParts(d: Data)
    ensures ServerFrame(d) == None ==> S.Decode(d) == None
    ensures ServerFrame(d).Some? ==>
              var b := ServerFrame(d).value;
              && |d| >= 42
              && S.Decode(d) == if Block(d, b + 3) == None then None
                 else S.ApplyAll(S.Blank(S.New(), At(d, 4), d[6..38], d[39..b], At(d, b), d[b + 2]),
                                 Block(d, b + 3).value)
  {
    hide S.ApplyAll, S.Blank, S.New, Block;
    if ServerFrame(d).Some? {
      var b := ServerFrame(d).value;
      assert d[b..][3..] == d[b + 3..];
      ServerBlock(S.Blank(S.New(), At(d, 4), d[6..38], d[39..b], At(d, b), d[b + 2]), d, b + 3);
    }
  }

  lemma ServerBlock(m: S.Hello, d: Data, e: nat)
    requires e <= |d|
    ensures S.DecodeExtensions(m, d[e..]) ==
            if Block(d, e) == None then None else S.ApplyAll(m, Block(d, e).value)
  {
    ServerToldNothing(m);
    hide S.ApplyAll;
    if e + 2 <= |d| {
      assert d[e..][2..] == d[e + 2..];
    }
  }

  /**
   A server's hello is accepted exactly if its parts lie within it and each of its extensions is well formed, and
   then it says this.
   */
  lemma ServerDecides(d: Data)
    ensures S.Decode(d).Some? <==>
            && ServerFrame(d).Some? && Block(d, ServerFrame(d).value + 3).Some?
            && var es := Listed(Block(d, ServerFrame(d).value + 3).value);
               es.Some? && AllGood(es.value, ServerGood)
    ensures S.Decode(d).Some? ==>
              var (b, m) := (ServerFrame(d).value, S.Decode(d).value);
              && m.vers == At(d, 4) && m.random == d[6..38] && m.sessionID == d[39..b]
              && m.cipherSuite == At(d, b) && m.compressionMethod == d[b + 2]
              && ServerTold(ServerBare(m), Listed(Block(d, b + 3).value).value, m)
  {
    hide S.ApplyAll, Listed, ServerGood, S.Decode, ServerFrame, Block, Flag, Value, Texts, Stamps;
    ServerParts(d);
    if ServerFrame(d).Some? {
      var b := ServerFrame(d).value;
      var m0 := S.Blank(S.New(), At(d, 4), d[6..38], d[39..b], At(d, b), d[b + 2]);
      if Block(d, b + 3).Some? {
        ServerListRead(m0, Block(d, b + 3).value);
        if S.Decode(d).Some? {
          assert ServerKept(m0, S.Decode(d).value);
          assert m0 == ServerBare(S.Decode(d).value);
        }
      }
    }
  }
}
