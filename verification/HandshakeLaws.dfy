/**
 What holds in every joint run of client and server: records open under the keys and numbers
 they were sealed with, and the two sides end up with the same transcript, secret and keys.
 */
module HandshakeLaws {
  import opened Bytes
  import opened Handshake

  /**
   Two sides of this package: key agreement and tickets give both the same secret whenever both accept.
   Nothing is said about whether they accept: either side may refuse the other at any point.
   */
  ghost predicate Honest(w: World) {
    && Expands(w)
    && (Responds(w) && w.accept(Response(w).1).Some? ==> w.accept(Response(w).1) == Some(Response(w).0))
    && w.sessionId != [] && w.opens([]) == None
    && (w.session.Some? && w.opens(w.session.value.0).Some? ==>
       w.opens(w.session.value.0).value.0 == w.session.value.1)
  }

  /** The client accepts the server's part of the key agreement. */
  predicate Responds(w: World) {
    w.respond(w.skx).Some?
  }

  /** The secret the client computes, and what it sends for the server to compute it too. */
  function Response(w: World): (Data, Data)
    requires Responds(w)
  {
    w.respond(w.skx).value
  }

  // ----- Queues

  function Past(d: Half, p: Packet): Half {
    match p.content
    case Message(_) => d.(seqNo := d.seqNo + p.records)
    case ChangeCipherSpec(to) => Half(Some(to), 0, None)
  }

  predicate SameState(d: Half, e: Half) {
    d.keys == e.keys && d.seqNo == e.seqNo
  }

  /** From the reader's state the queue leads, record by record, to the writer's state. */
  predicate Linked(d: Half, queue: seq<Packet>, e: Half)
    decreases |queue|
  {
    if queue == [] then SameState(d, e)
    else queue[0].keys == d.keys && queue[0].seqNo == d.seqNo && Linked(Past(d, queue[0]), queue[1..], e)
  }

  lemma {:induction false} LinkedJoin(d: Half, a: seq<Packet>, e: Half, b: seq<Packet>, f: Half)
    requires Linked(d, a, e) && Linked(e, b, f)
    ensures Linked(d, a + b, f)
    decreases |a|
  {
    if a == [] {
      assert a + b == b;
      LinkedSame(e, d, b, f);
    } else {
      assert (a + b)[1..] == a[1..] + b;
      LinkedJoin(Past(d, a[0]), a[1..], e, b, f);
    }
  }

  lemma {:induction false} LinkedSame(e: Half, d: Half, b: seq<Packet>, f: Half)
    requires SameState(d, e) && Linked(e, b, f)
    ensures Linked(d, b, f)
    decreases |b|
  {
    if b != [] {
      LinkedSame(Past(e, b[0]), Past(d, b[0]), b[1..], f);
    }
  }

  lemma LinkedOne(d: Half, p: Packet)
    requires p.keys == d.keys && p.seqNo == d.seqNo
    ensures Linked(d, [p], Past(d, p))
  {
    assert [p][1..] == [];
  }

  function Contents(queue: seq<Packet>): (cs: seq<Content>)
    ensures |cs| == |queue|
  {
    if queue == [] then [] else [queue[0].content] + Contents(queue[1..])
  }

  lemma {:induction false} ContentsJoin(a: seq<Packet>, b: seq<Packet>)
    ensures Contents(a + b) == Contents(a) + Contents(b)
  {
    if a == [] {
      assert a + b == b && Contents(a) + Contents(b) == Contents(b);
    } else {
      assert (a + b)[1..] == a[1..] + b;
      ContentsJoin(a[1..], b);
    }
  }

  lemma Head(queue: seq<Packet>, c: Content, rest: seq<Content>)
    requires Contents(queue) == [c] + rest
    ensures queue != [] && queue[0].content == c && Contents(queue[1..]) == rest
  {
    assert |queue| == 1 + |rest|;
    assert ([c] + rest)[0] == c && ([c] + rest)[1..] == rest;
    assert ([queue[0].content] + Contents(queue[1..]))[1..] == Contents(queue[1..]);
  }

  /** The messages among the contents. */
  function Plain(cs: seq<Content>): seq<Msg> {
    if cs == [] then []
    else
      match cs[0]
      case Message(m) => [m] + Plain(cs[1..])
      case ChangeCipherSpec(_) => Plain(cs[1..])
  }

  lemma PlainMessage(t: seq<Msg>, m: Msg, rest: seq<Content>)
    ensures t + Plain([Message(m)] + rest) == (t + [m]) + Plain(rest)
  {
    assert ([Message(m)] + rest)[1..] == rest;
  }

  lemma PlainChange(k: Keys, rest: seq<Content>)
    ensures Plain([ChangeCipherSpec(k)] + rest) == Plain(rest)
  {
    assert ([ChangeCipherSpec(k)] + rest)[1..] == rest;
  }

  // ----- Writing keeps the queue linked

  /** `e` has written `cs` since it was `e0`. */
  predicate Wrote(e0: End, cs: seq<Content>, e: End) {
    && e.inn == e0.inn && e.master == e0.master
    && |e0.sendBuf| <= |e.sendBuf| && e.sendBuf[..|e0.sendBuf|] == e0.sendBuf
    && Contents(e.sendBuf[|e0.sendBuf|..]) == cs
    && Linked(e0.out, e.sendBuf[|e0.sendBuf|..], e.out)
    && e.transcript == e0.transcript + Plain(cs)
  }

  lemma WroteNothing(e: End)
    ensures Wrote(e, [], e)
  {
    assert e.transcript + [] == e.transcript;
  }

  lemma WroteJoin(e0: End, a: seq<Content>, e1: End, b: seq<Content>, e2: End)
    requires Wrote(e0, a, e1) && Wrote(e1, b, e2)
    ensures Wrote(e0, a + b, e2)
  {
    hide Linked, Contents, Plain;
    var n, m := |e0.sendBuf|, |e1.sendBuf|;
    assert e2.sendBuf[n..] == e1.sendBuf[n..] + e2.sendBuf[m..];
    assert e2.sendBuf[..n] == e2.sendBuf[..m][..n];
    ContentsJoin(e1.sendBuf[n..], e2.sendBuf[m..]);
    LinkedJoin(e0.out, e1.sendBuf[n..], e1.out, e2.sendBuf[m..], e2.out);
    PlainJoin(a, b);
    assert e0.transcript + Plain(a) + Plain(b) == e0.transcript + (Plain(a) + Plain(b));
  }

  lemma {:induction false} PlainJoin(a: seq<Content>, b: seq<Content>)
    ensures Plain(a + b) == Plain(a) + Plain(b)
  {
    if a == [] {
      assert a + b == b;
    } else {
      assert (a + b)[1..] == a[1..] + b;
      PlainJoin(a[1..], b);
    }
  }

  lemma SayWrites(w: World, e: End, m: Msg)
    ensures Wrote(e, [Message(m)], Say(w, e, m))
    ensures Say(w, e, m).out.next == e.out.next && Say(w, e, m).out.keys == e.out.keys
    ensures Say(w, e, m).transcript == e.transcript + [m]
  {
    var e' := Say(w, e, m);
    var p := Packet(Message(m), w.records(m), e.out.keys, e.out.seqNo);
    assert e'.sendBuf[|e.sendBuf|..] == [p];
    LinkedOne(e.out, p);
    assert [p][1..] == [];
    assert Plain([Message(m)]) == [m] by { assert [Message(m)][1..] == []; }
  }

  lemma SayIfWrites(w: World, cond: bool, e: End, m: Msg)
    ensures Wrote(e, if cond then [Message(m)] else [], SayIf(w, cond, e, m))
    ensures SayIf(w, cond, e, m).out.next == e.out.next && SayIf(w, cond, e, m).out.keys == e.out.keys
    ensures SayIf(w, cond, e, m).transcript == e.transcript + if cond then [m] else []
  {
    if cond {
      SayWrites(w, e, m);
    } else {
      WroteNothing(e);
      assert e.transcript + [] == e.transcript;
    }
  }

  lemma ChangeWrites(e: End)
    requires e.out.next.Some?
    ensures Wrote(e, [ChangeCipherSpec(e.out.next.value)], Change(e))
    ensures Change(e).out.keys == e.out.next && Change(e).transcript == e.transcript
  {
    var k := e.out.next.value;
    var p := Packet(ChangeCipherSpec(k), 1, e.out.keys, e.out.seqNo);
    assert Change(e).sendBuf[|e.sendBuf|..] == [p];
    LinkedOne(e.out, p);
    assert [p][1..] == [] && [ChangeCipherSpec(k)][1..] == [];
    assert e.transcript + [] == e.transcript;
  }

  // ----- What is still to be read

  function FinishedToServer(w: World, master: Data, t: seq<Msg>): seq<Content> {
    [Message(Finished(w.clientSum(master, t)))]
  }

  function NextToServer(w: World, sh: Msg, master: Data, t: seq<Msg>): seq<Content>
    requires sh.ServerHello?
  {
    if sh.npn then [Message(NextProtocol(w.proto))] + FinishedToServer(w, master, t + [NextProtocol(w.proto)])
    else FinishedToServer(w, master, t)
  }

  function ChangeToServer(w: World, sh: Msg, master: Data, t: seq<Msg>): seq<Content>
    requires Expands(w) && sh.ServerHello?
  {
    [ChangeCipherSpec(ClientKeys(w, sh, master).0)] + NextToServer(w, sh, master, t)
  }

  function VerifyToServer(w: World, sh: Msg, master: Data, t: seq<Msg>): seq<Content>
    requires Expands(w) && sh.ServerHello?
  {
    var m := CertificateVerify(w.sign(t));
    [Message(m)] + ChangeToServer(w, sh, master, t + [m])
  }

  function KeyToServer(w: World, sh: Msg, certs: seq<Data>, master: Data, t: seq<Msg>): seq<Content>
    requires Expands(w) && Responds(w) && sh.ServerHello?
  {
    var m := ClientKeyExchange(Response(w).1);
    [Message(m)] + if certs != [] then VerifyToServer(w, sh, master, t + [m])
        else ChangeToServer(w, sh, master, t + [m])
  }

  function CertificateToServer(w: World, sh: Msg, master: Data, t: seq<Msg>): seq<Content>
    requires Expands(w) && Responds(w) && sh.ServerHello?
  {
    var m := Certificate(w.clientChain);
    [Message(m)] + KeyToServer(w, sh, w.clientChain, master, t + [m])
  }

  function FinishedToClient(w: World, master: Data, t: seq<Msg>): seq<Content> {
    [Message(Finished(w.serverSum(master, t)))]
  }

  function ChangeToClient(w: World, sh: Msg, master: Data, t: seq<Msg>): seq<Content>
    requires Expands(w) && sh.ServerHello?
  {
    [ChangeCipherSpec(ClientKeys(w, sh, master).1)] + FinishedToClient(w, master, t)
  }

  function TicketToClient(w: World, sh: Msg, certs: seq<Data>, master: Data, t: seq<Msg>): seq<Content>
    requires Expands(w) && sh.ServerHello?
  {
    var m := NewSessionTicket(w.seal(Session(w.vers, sh.suite, master, certs)));
    if sh.ticketSupported then [Message(m)] + ChangeToClient(w, sh, master, t + [m])
        else ChangeToClient(w, sh, master, t)
  }

  function DoneToClient(): seq<Content> {
    [Message(ServerHelloDone)]
  }

  function RequestToClient(w: World): seq<Content> {
    if w.requestsCert then [Message(CertificateRequest)] + DoneToClient() else DoneToClient()
  }

  function KeyToClient(w: World): seq<Content> {
    if w.skx.Some? then [Message(ServerKeyExchange(w.skx.value))] + RequestToClient(w) else RequestToClient(w)
  }

  function StatusToClient(w: World, sh: Msg): seq<Content>
    requires sh.ServerHello?
  {
    if sh.ocspStapling then [Message(CertificateStatus(w.staple))] + KeyToClient(w) else KeyToClient(w)
  }

  function FirstToClient(w: World, sh: Msg): seq<Content>
    requires sh.ServerHello?
  {
    if !w.noCerts(sh.suite) then [Message(Certificate(w.serverChain))] + StatusToClient(w, sh)
        else StatusToClient(w, sh)
  }

  // ----- What the flights consist of

  lemma ClientFinishWrites(w: World, sh: Msg, e: End)
    requires sh.ServerHello? && e.out.next.Some?
    ensures var e' := ClientFinish(w, sh, e);
            && Wrote(e, [ChangeCipherSpec(e.out.next.value)] + NextToServer(w, sh, e.master, e.transcript), e')
            && e'.out.keys == e.out.next
  {
    hide Wrote, Change, Say, SayIf;
    var e1 := Change(e);
    ChangeWrites(e);
    var e2 := SayIf(w, sh.npn, e1, NextProtocol(w.proto));
    SayIfWrites(w, sh.npn, e1, NextProtocol(w.proto));
    var fin := Finished(w.clientSum(e2.master, e2.transcript));
    SayWrites(w, e2, fin);
    WroteMaster(e, [ChangeCipherSpec(e.out.next.value)], e1);
    WroteMaster(e1, if sh.npn then [Message(NextProtocol(w.proto))] else [], e2);
    WroteJoin(e1, if sh.npn then [Message(NextProtocol(w.proto))] else [], e2, [Message(fin)], Say(w, e2, fin));
    assert e.transcript + [] == e.transcript;
    assert NextToServer(w, sh, e.master, e.transcript) == (if sh.npn then [Message(NextProtocol(w.proto))] else [])
        + [Message(fin)];
    WroteJoin(e, [ChangeCipherSpec(e.out.next.value)], e1, NextToServer(w, sh, e.master, e.transcript),
        Say(w, e2, fin));
  }

  lemma WroteMaster(e0: End, cs: seq<Content>, e: End)
    requires Wrote(e0, cs, e)
    ensures e.master == e0.master && e.inn == e0.inn
  {
  }

  lemma ServerFinishWrites(w: World, sh: Msg, certs: seq<Data>, e: End)
    requires Expands(w) && sh.ServerHello? && e.out.next == Some(ClientKeys(w, sh, e.master).1)
    ensures var e' := ServerFinish(w, sh, certs, e);
            && Wrote(e, TicketToClient(w, sh, certs, e.master, e.transcript), e')
            && e'.out.keys == e.out.next
  {
    hide Wrote, Change, Say, SayIf, ClientKeys;
    var m := NewSessionTicket(w.seal(Session(w.vers, sh.suite, e.master, certs)));
    var e1 := SayIf(w, sh.ticketSupported, e, m);
    SayIfWrites(w, sh.ticketSupported, e, m);
    var first: seq<Content> := if sh.ticketSupported then [Message(m)] else [];
    WroteMaster(e, first, e1);
    var e2 := Change(e1);
    ChangeWrites(e1);
    var change := [ChangeCipherSpec(e1.out.next.value)];
    WroteMaster(e1, change, e2);
    var fin := Finished(w.serverSum(e2.master, e2.transcript));
    SayWrites(w, e2, fin);
    WroteJoin(e1, change, e2, [Message(fin)], Say(w, e2, fin));
    WroteJoin(e, first, e1, change + [Message(fin)], Say(w, e2, fin));
    assert e.transcript + [] == e.transcript;
    assert TicketToClient(w, sh, certs, e.master, e.transcript) == first + (change + [Message(fin)]);
  }

  lemma FirstFlightWrites(w: World, sh: Msg, e: End)
    requires sh.ServerHello?
    ensures Wrote(e, FirstToClient(w, sh), FirstFlight(w, sh, e))
    ensures FirstFlight(w, sh, e).out.next == e.out.next && FirstFlight(w, sh, e).out.keys == e.out.keys
  {
    hide Wrote, Say, SayIf;
    var cert, status := Certificate(w.serverChain), CertificateStatus(w.staple);
    var e1 := SayIf(w, !w.noCerts(sh.suite), e, cert);
    SayIfWrites(w, !w.noCerts(sh.suite), e, cert);
    var e2 := SayIf(w, sh.ocspStapling, e1, status);
    SayIfWrites(w, sh.ocspStapling, e1, status);
    var e3 := if w.skx.Some? then Say(w, e2, ServerKeyExchange(w.skx.value)) else e2;
    var key: seq<Content> := if w.skx.Some? then [Message(ServerKeyExchange(w.skx.value))] else [];
    if w.skx.Some? {
      SayWrites(w, e2, ServerKeyExchange(w.skx.value));
    } else {
      WroteNothing(e2);
    }
    var e4 := SayIf(w, w.requestsCert, e3, CertificateRequest);
    SayIfWrites(w, w.requestsCert, e3, CertificateRequest);
    var e5 := Say(w, e4, ServerHelloDone);
    SayWrites(w, e4, ServerHelloDone);
    WroteJoin(e3, if w.requestsCert then [Message(CertificateRequest)] else [], e4, DoneToClient(), e5);
    assert RequestToClient(w) == (if w.requestsCert then [Message(CertificateRequest)] else []) + DoneToClient();
    WroteJoin(e2, key, e3, RequestToClient(w), e5);
    assert KeyToClient(w) == key + RequestToClient(w);
    WroteJoin(e1, if sh.ocspStapling then [Message(status)] else [], e2, KeyToClient(w), e5);
    assert StatusToClient(w, sh) == (if sh.ocspStapling then [Message(status)] else []) + KeyToClient(w);
    WroteJoin(e, if !w.noCerts(sh.suite) then [Message(cert)] else [], e1, StatusToClient(w, sh), e5);
    assert FirstToClient(w, sh) == (if !w.noCerts(sh.suite) then [Message(cert)] else []) + StatusToClient(w, sh);
  }

  lemma {:induction false} LinkedNext(d: Half, queue: seq<Packet>, e: Half, f: Half)
    requires Linked(d, queue, e) && SameState(e, f)
    ensures Linked(d, queue, f)
    decreases |queue|
  {
    if queue != [] {
      LinkedNext(Past(d, queue[0]), queue[1..], e, f);
    }
  }

  /** Secrets and prepared keys may change between two writes. */
  lemma WroteRebased(e0: End, cs: seq<Content>, e: End, master: Data, inn: Half, next: Option<Keys>)
    requires Wrote(e0, cs, e)
    ensures Wrote(e0.(master := master, inn := inn), cs, e.(master := master, inn := inn, out := e.out.(next := next)))
  {
    LinkedNext(e0.out, e.sendBuf[|e0.sendBuf|..], e.out, e.out.(next := next));
  }

  /** What the server has to read after its first flight. */
  function SecondToServer(w: World, sh: Msg, master: Data, t: seq<Msg>): seq<Content>
    requires Expands(w) && Responds(w) && sh.ServerHello?
  {
    if w.requestsCert then CertificateToServer(w, sh, master, t) else KeyToServer(w, sh, [], master, t)
  }

  function Agreed(w: World, sh: Msg): Data
    requires Expands(w) && Responds(w) && sh.ServerHello?
  {
    w.masterOf(Response(w).0, w.clientRandom, sh.random)
  }

  /** `e` with the secrets a full handshake agrees on. */
  function WithSecrets(w: World, sh: Msg, e: End): End
    requires Expands(w) && Responds(w) && sh.ServerHello?
  {
    e.(master := Agreed(w, sh), inn := e.inn.(next := Some(ClientKeys(w, sh, Agreed(w, sh)).1)))
  }

  lemma SecondFlightWrites(w: World, sh: Msg, e: End)
    requires Expands(w) && Responds(w) && sh.ServerHello?
    ensures var e' := SecondFlight(w, sh, Response(w), w.requestsCert, e);
            && Wrote(WithSecrets(w, sh, e), SecondToServer(w, sh, Agreed(w, sh), e.transcript), e')
            && e'.out.keys == Some(ClientKeys(w, sh, Agreed(w, sh)).0)
  {
    hide Wrote, Change, Say, SayIf, ClientKeys, ClientFinish, Contents, Linked, Plain;
    var master := Agreed(w, sh);
    var (ck, sk) := ClientKeys(w, sh, master);
    var agreed := Response(w);
    var cert := Certificate(w.clientChain);
    var e1 := SayIf(w, w.requestsCert, e, cert);
    SayIfWrites(w, w.requestsCert, e, cert);
    var a: seq<Content> := if w.requestsCert then [Message(cert)] else [];
    var ckx := ClientKeyExchange(agreed.1);
    var e2 := Say(w, e1, ckx);
    SayWrites(w, e1, ckx);
    var cv := CertificateVerify(w.sign(e2.transcript));
    var verified := w.requestsCert && w.clientChain != [];
    var e3 := SayIf(w, verified, e2, cv);
    SayIfWrites(w, verified, e2, cv);
    var b: seq<Content> := if verified then [Message(cv)] else [];
    WroteMaster(e, a, e1);
    WroteMaster(e1, [Message(ckx)], e2);
    WroteMaster(e2, b, e3);
    var e5 := ClientEstablish(w, sh, e3.(master := master));
    var e6 := ClientFinish(w, sh, e5);
    ClientFinishWrites(w, sh, e5);
    var c := [ChangeCipherSpec(ck)] + NextToServer(w, sh, master, e5.transcript);
    WroteRebased(e2, b, e3, master, e5.inn, Some(ck));
    WroteRebased(e1, [Message(ckx)], e2, master, e5.inn, e2.out.next);
    WroteRebased(e, a, e1, master, e5.inn, e1.out.next);
    Unchanged(e2);
    Unchanged(e1);
    WroteJoin(e2.(master := master, inn := e5.inn), b, e5, c, e6);
    WroteJoin(e1.(master := master, inn := e5.inn), [Message(ckx)], e2.(master := master, inn := e5.inn), b + c, e6);
    WroteJoin(e.(master := master, inn := e5.inn), a, e1.(master := master, inn := e5.inn), [Message(ckx)] + (b + c),
        e6);
    assert e.transcript + [] == e.transcript && e2.transcript + [] == e2.transcript;
    assert b + c == if verified then VerifyToServer(w, sh, master, e2.transcript)
        else ChangeToServer(w, sh, master, e2.transcript);
    assert a + ([Message(ckx)] + (b + c)) == SecondToServer(w, sh, master, e.transcript);
  }

  lemma Unchanged(e: End)
    ensures e.out.(next := e.out.next) == e.out && e.(out := e.out) == e
  {
  }
}
