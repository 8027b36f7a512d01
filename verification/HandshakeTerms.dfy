/**
 What a joint run of the handshake comes to, told by the two configurations alone: when it resumes, which
 suite it uses, every message of it in order, the secret, the keys, and when it completes at all.
 */
module HandshakeTerms {
  import opened Bytes
  import opened Handshake
  import opened HandshakeLaws
  import opened HandshakeRuns

  // ----- What is negotiated

  /** The session of the client's ticket, if the server takes tickets, opens this one and can use what is in it. */
  function Tried(w: World): Option<(Session, bool)> {
    if w.session == None || !w.serverTickets || w.opens(w.session.value.0) == None then None
    else
      var (session, older) := w.opens(w.session.value.0).value;
      if session.vers == w.vers && session.suite in w.suites && w.supports(session.suite) then Some((session, older))
      else None
  }

  /** The session has client certificates exactly where the server's configuration allows and asks for that. */
  predicate Resumes(w: World) {
    && w.choose(w.suites).Some? && Tried(w).Some?
    && var certificates := Tried(w).value.0.certificates;
       if certificates == [] then !w.requiresCert else w.requestsCert
  }

  function Suite(w: World): Option<nat> {
    if w.choose(w.suites) == None then None
    else if Tried(w).Some? then Some(Tried(w).value.0.suite)
    else w.choose(w.suites)
  }

  predicate NextProto(w: World) { !w.clientAlpn && w.clientNpn && w.serverNpn }

  function TheOffer(w: World): Msg {
    ClientHello(w.clientRandom, if w.session == None then [] else w.sessionId, w.suites, w.clientNpn, w.clientAlpn,
        w.clientTickets, if w.session == None then [] else w.session.value.0)
  }

  function TheAnswer(w: World): (m: Msg)
    requires Suite(w).Some?
    ensures m.ServerHello?
  {
    if Resumes(w) then
      ServerHello(w.serverRandom, w.sessionId, Tried(w).value.0.suite, false, Tried(w).value.1, NextProto(w))
    else
      ServerHello(w.serverRandom, [], Suite(w).value, w.staple != [], w.clientTickets && w.serverTickets, NextProto(w))
  }

  /** The hellos are these. */
  lemma HellosAre(w: World)
    requires Honest(w)
    ensures Offer(w) == TheOffer(w)
    ensures FullSuite(w, Offer(w)) == Suite(w)
    ensures Suite(w).Some? ==>
              && (Resumption(w, Offer(w)).Some? <==> Resumes(w)) && ServerHelloOf(w) == TheAnswer(w)
              && (Resumes(w) ==> Resumption(w, Offer(w)) == Tried(w) && w.session.Some?
                                 && Tried(w).value.0 == w.session.value.1)
  {
  }

  // ----- What is said

  function If(cond: bool, m: Msg): seq<Msg> {
    if cond then [m] else []
  }

  /** A full handshake up to the client's key exchange: what a client with a certificate signs. */
  function ToKeyExchange(w: World): seq<Msg>
    requires Suite(w).Some? && Responds(w)
  {
    [TheOffer(w), TheAnswer(w)]
    + If(!w.noCerts(Suite(w).value), Certificate(w.serverChain))
    + If(w.staple != [], CertificateStatus(w.staple))
    + (if w.skx.Some? then [ServerKeyExchange(w.skx.value)] else [])
    + If(w.requestsCert, CertificateRequest)
    + [ServerHelloDone]
    + If(w.requestsCert, Certificate(w.clientChain))
    + [ClientKeyExchange(Response(w).1)]
  }

  /** The client's last messages after `t`. */
  function ClientEnds(w: World, master: Data, t: seq<Msg>): seq<Msg> {
    var u := t + If(NextProto(w), NextProtocol(w.proto));
    u + [Finished(w.clientSum(master, u))]
  }

  /** The server's last messages after `t`, with a ticket for this session if it has announced one. */
  function ServerEnds(w: World, ticket: bool, session: Session, t: seq<Msg>): seq<Msg> {
    var u := t + If(ticket, NewSessionTicket(w.seal(session)));
    u + [Finished(w.serverSum(session.master, u))]
  }

  function FullMaster(w: World): Data
    requires Responds(w)
  {
    w.masterOf(Response(w).0, w.clientRandom, w.serverRandom)
  }

  function FullMessages(w: World): seq<Msg>
    requires Suite(w).Some? && Responds(w)
  {
    var certificates := if w.requestsCert then w.clientChain else [];
    var t := ToKeyExchange(w);
    var u := t + If(certificates != [], CertificateVerify(w.sign(t)));
    ServerEnds(w, w.clientTickets && w.serverTickets, Session(w.vers, Suite(w).value, FullMaster(w), certificates),
        ClientEnds(w, FullMaster(w), u))
  }

  function ResumedMessages(w: World): seq<Msg>
    requires Resumes(w)
  {
    var (session, older) := Tried(w).value;
    ClientEnds(w, session.master, ServerEnds(w, older, session, [TheOffer(w), TheAnswer(w)]))
  }

  lemma PlainFront(m: Msg, rest: seq<Content>)
    ensures Plain([Message(m)] + rest) == [m] + Plain(rest)
  {
    assert ([Message(m)] + rest)[1..] == rest;
  }

  lemma PlainOne(m: Msg)
    ensures Plain([Message(m)]) == [m]
  {
    assert [Message(m)][1..] == [];
  }

  /** The server's first flight. */
  lemma FirstFlightSays(w: World, sh: Msg)
    requires sh.ServerHello?
    ensures Plain([Message(sh)] + FirstToClient(w, sh)) ==
            [sh] + If(!w.noCerts(sh.suite), Certificate(w.serverChain))
            + If(sh.ocspStapling, CertificateStatus(w.staple))
            + (if w.skx.Some? then [ServerKeyExchange(w.skx.value)] else [])
            + If(w.requestsCert, CertificateRequest) + [ServerHelloDone]
  {
    hide Plain, FirstToClient, If;
    PlainFront(sh, FirstToClient(w, sh));
    KeySays(w);
    StatusSays(w, sh);
    var k := if w.skx.Some? then [ServerKeyExchange(w.skx.value)] else [];
    Grouped([sh], If(!w.noCerts(sh.suite), Certificate(w.serverChain)),
        If(sh.ocspStapling, CertificateStatus(w.staple)), k, If(w.requestsCert, CertificateRequest), [ServerHelloDone]);
  }

  lemma StatusSays(w: World, sh: Msg)
    requires sh.ServerHello?
    ensures Plain(FirstToClient(w, sh))
            == If(!w.noCerts(sh.suite), Certificate(w.serverChain))
               + (If(sh.ocspStapling, CertificateStatus(w.staple)) + Plain(KeyToClient(w)))
  {
    hide Plain, KeyToClient;
    PlainFront(Certificate(w.serverChain), StatusToClient(w, sh));
    PlainFront(CertificateStatus(w.staple), KeyToClient(w));
  }

  lemma KeySays(w: World)
    ensures Plain(KeyToClient(w))
            == (if w.skx.Some? then [ServerKeyExchange(w.skx.value)] else [])
               + (If(w.requestsCert, CertificateRequest) + [ServerHelloDone])
  {
    hide Plain;
    if w.skx.Some? {
      PlainFront(ServerKeyExchange(w.skx.value), RequestToClient(w));
    }
    PlainFront(CertificateRequest, DoneToClient());
    PlainOne(ServerHelloDone);
  }

  lemma Grouped(a: seq<Msg>, b: seq<Msg>, c: seq<Msg>, d: seq<Msg>, e: seq<Msg>, f: seq<Msg>)
    ensures a + (b + (c + (d + (e + f)))) == a + b + c + d + e + f
  {
  }

  /** The client's last flight, and the server's. */
  lemma LastFlightsSay(w: World, sh: Msg, certs: seq<Data>, master: Data, t: seq<Msg>)
    requires Expands(w) && sh.ServerHello? && sh.npn == NextProto(w)
    ensures t + Plain(ChangeToServer(w, sh, master, t)) == ClientEnds(w, master, t)
    ensures t + Plain(TicketToClient(w, sh, certs, master, t))
            == ServerEnds(w, sh.ticketSupported, Session(w.vers, sh.suite, master, certs), t)
  {
    hide Plain, ClientKeys, Expands;
    var (ck, sk) := ClientKeys(w, sh, master);
    PlainChange(ck, NextToServer(w, sh, master, t));
    var np := NextProtocol(w.proto);
    PlainFront(np, FinishedToServer(w, master, t + [np]));
    PlainOne(Finished(w.clientSum(master, t + [np])));
    PlainOne(Finished(w.clientSum(master, t)));
    assert t + [] == t && t + [np] + [Finished(w.clientSum(master, t + [np]))]
        == t + ([np] + [Finished(w.clientSum(master, t + [np]))]);
    var nst := NewSessionTicket(w.seal(Session(w.vers, sh.suite, master, certs)));
    PlainFront(nst, ChangeToClient(w, sh, master, t + [nst]));
    PlainChange(sk, FinishedToClient(w, master, t + [nst]));
    PlainChange(sk, FinishedToClient(w, master, t));
    PlainOne(Finished(w.serverSum(master, t + [nst])));
    PlainOne(Finished(w.serverSum(master, t)));
    assert t + [nst] + [Finished(w.serverSum(master, t + [nst]))]
        == t + ([nst] + [Finished(w.serverSum(master, t + [nst]))]);
  }

  lemma SignedIs(w: World)
    requires Honest(w) && Suite(w).Some? && !Resumes(w) && Responds(w)
    ensures Signed(w, ServerHelloOf(w)) == ToKeyExchange(w)
  {
    hide Plain, FirstToClient, Suite, Resumes, ServerHelloOf, Expands, TheAnswer, TheOffer, If, Honest, Resumption,
         FullSuite;
    HellosAre(w);
    AnswerFields(w);
    FirstFlightSays(w, ServerHelloOf(w));
    Front(TheOffer(w), TheAnswer(w), If(!w.noCerts(Suite(w).value), Certificate(w.serverChain)),
        If(w.staple != [], CertificateStatus(w.staple)),
        if w.skx.Some? then [ServerKeyExchange(w.skx.value)] else [],
        If(w.requestsCert, CertificateRequest), [ServerHelloDone]);
    IfIs(w.requestsCert, Certificate(w.clientChain));
  }

  lemma IfIs(cond: bool, m: Msg)
    ensures If(cond, m) == if cond then [m] else []
  {
  }

  lemma Front(x: Msg, y: Msg, a: seq<Msg>, b: seq<Msg>, c: seq<Msg>, d: seq<Msg>, e: seq<Msg>)
    ensures [x] + ([y] + a + b + c + d + e) == [x, y] + a + b + c + d + e
  {
  }

  lemma AnswerFields(w: World)
    requires Suite(w).Some?
    ensures var sh := TheAnswer(w);
            && sh.npn == NextProto(w) && sh.random == w.serverRandom
            && (!Resumes(w) ==>
              sh.suite == Suite(w).value && sh.ocspStapling == (w.staple != [])
              && sh.ticketSupported == (w.clientTickets && w.serverTickets))
            && (Resumes(w) ==> sh.suite == Tried(w).value.0.suite && sh.ticketSupported == Tried(w).value.1)
  {
  }

  lemma FullEndIs(w: World)
    requires Honest(w) && Suite(w).Some? && !Resumes(w) && Responds(w)
    ensures FullEnd(w, ServerHelloOf(w)) == Words(FullMaster(w), FullMessages(w))
  {
    hide Plain, Suite, Resumes, ServerHelloOf, Expands, TheAnswer, TheOffer, Signed, ToKeyExchange, TicketToClient,
         ChangeToServer, ClientEnds, ServerEnds;
    HellosAre(w);
    AnswerFields(w);
    SignedIs(w);
    var sh := ServerHelloOf(w);
    var x := FullStart(w, sh);
    LastFlightsSay(w, sh, [], x.master, x.said);
    var y := ClientSays(w, sh, x);
    LastFlightsSay(w, sh, ClientCerts(w), x.master, y.said);
  }

  lemma ResumedEndIs(w: World)
    requires Honest(w) && Suite(w).Some? && Resumes(w)
    ensures ResumedEnd(w, ServerHelloOf(w), Tried(w).value.0) == Words(Tried(w).value.0.master, ResumedMessages(w))
  {
    hide Plain, Suite, Tried, ServerHelloOf, Expands, TheAnswer, TheOffer, TicketToClient, ChangeToServer, ClientEnds,
         ServerEnds;
    HellosAre(w);
    AnswerFields(w);
    SessionShape(w);
    var (sh, session) := (ServerHelloOf(w), Tried(w).value.0);
    var start := [Offer(w), sh];
    LastFlightsSay(w, sh, session.certificates, session.master, start);
    LastFlightsSay(w, sh, [], session.master, ResumedFirst(w, sh, session).said);
  }

  lemma SessionShape(w: World)
    requires Resumes(w)
    ensures var s := Tried(w).value.0; s == Session(w.vers, s.suite, s.master, s.certificates)
  {
  }

  // ----- The keys

  /** The keys cut from the block that the secret expands to, the server's random first. */
  function KeysOf(w: World, suite: nat, master: Data): (Keys, Keys)
    requires Expands(w)
  {
    var (m, k, i) := w.lengths(suite);
    var block := w.expand(master, w.serverRandom + w.clientRandom, 2 * m + 2 * k + 2 * i);
    var (a, b) := (2 * m, 2 * m + 2 * k);
    (Keys(block[..m], block[a..a + k], block[b..b + i]),
     Keys(block[m..a], block[a + k..b], block[b + i..]))
  }

  lemma KeysAre(w: World, sh: Msg, master: Data)
    requires Expands(w) && sh.ServerHello? && sh.random == w.serverRandom
    ensures ClientKeys(w, sh, master) == KeysOf(w, sh.suite, master)
  {
    var (m, k, i) := w.lengths(sh.suite);
    SlicesAre(w.expand(master, w.serverRandom + w.clientRandom, 2 * m + 2 * k + 2 * i), m, k, i);
  }

  lemma SlicesAre(s: Data, m: nat, k: nat, i: nat)
    requires |s| == 2 * m + 2 * k + 2 * i
    ensures var t := s[2 * m..];
            var u := t[2 * k..];
            var (a, b) := (2 * m, 2 * m + 2 * k);
            && t[..k] == s[a..a + k] && t[k..2 * k] == s[a + k..b]
            && u[..i] == s[b..b + i] && u[i..2 * i] == s[b + i..]
  {
    Slices(s, 2 * m, 0, k);
    Slices(s, 2 * m, k, 2 * k);
    var u := s[2 * m..][2 * k..];
    assert u == s[2 * m + 2 * k..];
    Slices(s, 2 * m + 2 * k, 0, i);
    Slices(s, 2 * m + 2 * k, i, 2 * i);
  }

  lemma Slices(s: Data, from: nat, a: nat, b: nat)
    requires a <= b && from + b <= |s|
    ensures s[from..][a..b] == s[from + a..from + b]
  {
  }

  // ----- The end of a run

  /** What both sides have when both are done. */
  lemma DoneTerms(w: World, run: seq<State>)
    requires Honest(w) && Reachable(w, run)
    requires run[|run| - 1].cpc.ClientDone? && run[|run| - 1].spc.ServerDone?
    ensures Suite(w).Some? && (!Resumes(w) ==> Responds(w))
    ensures var s := run[|run| - 1];
            var (master, suite, said) :=
              if Resumes(w) then (Tried(w).value.0.master, Tried(w).value.0.suite, ResumedMessages(w))
              else (FullMaster(w), Suite(w).value, FullMessages(w));
            && s.cpc == ClientDone(TheAnswer(w), Resumes(w)) && s.spc == ServerDone(TheAnswer(w), Resumes(w))
            && s.client.master == s.server.master == master
            && s.client.transcript == s.server.transcript == said
            && (s.client.out.keys, s.client.inn.keys)
               == (Some(KeysOf(w, suite, master).0), Some(KeysOf(w, suite, master).1))
            && s.server.inn.keys == s.client.out.keys && s.server.out.keys == s.client.inn.keys
  {
    hide Phase, Suite, Resumes, Tried, TheAnswer, FullMessages, ResumedMessages, FullMaster, FullEnd, ResumedEnd,
         KeysOf, ClientKeys, Expands, Resumption, ServerHelloOf, BothAccept, FullSuite, Connected;
    var s := run[|run| - 1];
    Always(w, run);
    HellosAre(w);
    DoneOn(w, s);
    AnswerFields(w);
    KeysAre(w, ServerHelloOf(w), s.client.master);
    if Resumes(w) {
      ResumedEndIs(w);
    } else {
      FullEndIs(w);
    }
  }

  /** Both sides done, they agree on what the phase says. */
  lemma DoneOn(w: World, s: State)
    requires Honest(w) && Phase(w, s) && s.cpc.ClientDone? && s.spc.ServerDone?
    ensures FullSuite(w, Offer(w)).Some?
    ensures var sh := ServerHelloOf(w);
            if Resumption(w, Offer(w)).Some? then
              AgreeOn(w, s, sh, true, ResumedEnd(w, sh, Resumption(w, Offer(w)).value.0))
            else Responds(w) && AgreeOn(w, s, sh, false, FullEnd(w, sh))
  {
    hide Expands, Contents, Plain, ClientKeys, FlightRest, TicketToClient, FullSuite, Resumption, ServerHelloOf,
         AfterHello, AfterFlight, BothAccept, SessionAccepted, FullEnd, FullReply, ResumedFirst, ResumedEnd;
  }

  /** Both sides accept each other, told by their configurations. */
  predicate Accepts(w: World) {
    && Suite(w).Some?
    && if Resumes(w) then
         Tried(w).value.0.certificates == [] || w.trustsClient(Tried(w).value.0.certificates)
       else
         && w.staple == [] && Suite(w).value in w.suites
         && (w.noCerts(Suite(w).value) || (w.serverChain != [] && w.trustsServer(w.serverChain)))
         && (w.skx.Some? ==> w.takesKey(w.skx.value)) && w.respond(w.skx).Some?
         && w.accept(w.respond(w.skx).value.1).Some?
         && (w.requestsCert && w.clientChain == [] ==> !w.requiresCert)
         && (w.requestsCert && w.clientChain != [] ==>
           w.trustsClient(w.clientChain) && w.verifies(w.sign(ToKeyExchange(w)), ToKeyExchange(w)))
  }

  lemma AcceptsIs(w: World)
    requires Honest(w)
    ensures Accepts(w) <==> Succeeds(w)
  {
    hide Expands, Suite, Resumes, Tried, TheAnswer, TheOffer, FullSuite, Resumption, ServerHelloOf, Signed,
         ToKeyExchange;
    HellosAre(w);
    if Suite(w).Some? {
      AnswerFields(w);
      if !Resumes(w) && Responds(w) {
        SignedIs(w);
      }
    }
  }

  /** A run that can go no further has completed exactly where they do. */
  lemma CompletesExactly(w: World, run: seq<State>)
    requires Honest(w) && Reachable(w, run) && !CanMove(w, run[|run| - 1])
    ensures Agree(w, run[|run| - 1]) <==> Accepts(w)
  {
    hide Agree, CanMove, Succeeds, Accepts, Reachable, Expands;
    AcceptsIs(w);
    Completes(w, run);
  }
}
