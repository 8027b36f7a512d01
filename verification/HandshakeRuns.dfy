/** Invariants of joint runs of the handshake, and what they come to. */
module HandshakeRuns {
  import opened Bytes
  import opened Handshake
  import opened HandshakeLaws

  // ----- The shape of a run

  function Offer(w: World): (m: Msg)
    ensures m.ClientHello?
  {
    Hello(w)
  }

  /** Nothing has been sent. */
  ghost predicate Fresh(s: State) {
    s == Init()
  }

  /** The client has sent its hello. */
  ghost predicate Offered(w: World, s: State) {
    && s.cpc == AwaitHello && s.spc == AwaitClientHello && s.toClient == []
    && Contents(s.toServer) == [Message(Offer(w))]
    && s.client.transcript == [] && s.server.transcript == []
  }

  function ServerHelloOf(w: World): (m: Msg)
    requires FullSuite(w, Offer(w)).Some?
    ensures m.ServerHello?
  {
    if Resumption(w, Offer(w)).Some? then
      var (session, usedOldKey) := Resumption(w, Offer(w)).value;
      ResumeHello(w, Offer(w), session, usedOldKey)
    else FullHello(w, Offer(w), FullSuite(w, Offer(w)).value)
  }

  function ClientCerts(w: World): seq<Data> {
    if w.requestsCert then w.clientChain else []
  }

  // ----- When each side accepts the other

  /** What has been said when the server's first flight ends. */
  function FirstFlightTranscript(w: World, sh: Msg): seq<Msg>
    requires sh.ServerHello?
  {
    [Offer(w)] + Plain([Message(sh)] + FirstToClient(w, sh))
  }

  /** What has been said, besides, when the server reads the client's key exchange. */
  function BeforeKey(w: World, sh: Msg): seq<Msg>
    requires sh.ServerHello?
  {
    FirstFlightTranscript(w, sh) + if w.requestsCert then [Certificate(w.clientChain)] else []
  }

  /** What a client with a certificate signs. */
  function Signed(w: World, sh: Msg): seq<Msg>
    requires Responds(w) && sh.ServerHello?
  {
    BeforeKey(w, sh) + [ClientKeyExchange(Response(w).1)]
  }

  predicate ChainTrusted(w: World, sh: Msg)
    requires sh.ServerHello?
  {
    w.noCerts(sh.suite) || (w.serverChain != [] && w.trustsServer(w.serverChain))
  }

  predicate KeyTaken(w: World) {
    w.skx.Some? ==> w.takesKey(w.skx.value)
  }

  /** The client accepts the server's first flight. */
  predicate ClientAccepts(w: World, sh: Msg)
    requires sh.ServerHello?
  {
    sh.suite in w.suites && ChainTrusted(w, sh) && KeyTaken(w) && Responds(w)
  }

  /** The server accepts the certificate that it has asked for, or that there is none. */
  predicate CertificateAccepted(w: World) {
    !w.requestsCert || if w.clientChain == [] then !w.requiresCert else w.trustsClient(w.clientChain)
  }

  /** The server accepts the client's second flight. */
  predicate ServerAccepts(w: World, sh: Msg)
    requires Responds(w) && sh.ServerHello?
  {
    && CertificateAccepted(w) && w.accept(Response(w).1).Some?
    && (ClientCerts(w) != [] ==> w.verifies(w.sign(Signed(w, sh)), Signed(w, sh)))
  }

  predicate BothAccept(w: World, sh: Msg): (accepted: bool)
    requires sh.ServerHello?
    ensures accepted ==> Responds(w)
  {
    ClientAccepts(w, sh) && ServerAccepts(w, sh)
  }

  /** The server accepts the certificates kept in the session it resumes. */
  predicate SessionAccepted(w: World, session: Session) {
    session.certificates == [] || w.trustsClient(session.certificates)
  }

  /** The condition, readable from both configurations, under which a handshake completes. */
  predicate Succeeds(w: World) {
    && FullSuite(w, Offer(w)).Some?
    && if Resumption(w, Offer(w)).Some? then SessionAccepted(w, Resumption(w, Offer(w)).value.0)
       else w.staple == [] && BothAccept(w, ServerHelloOf(w))
  }

  /** One side has refused the other, which waits with nothing to read. */
  predicate Stopped(s: State) {
    || (s.cpc.ClientFailed? && s.toServer == [] && !s.spc.ServerDone?)
    || (s.spc.ServerFailed? && s.toClient == [] && !s.cpc.Start? && !s.cpc.ClientDone?)
  }

  /** A message that is not the offer. */
  predicate Later(c: Content) { c.Message? && !c.m.ClientHello? }

  predicate OneMessage(cs: seq<Content>) { |cs| == 1 && Later(cs[0]) }

  /** One side has refused the other, which has a last message of it to read. */
  predicate Parting(s: State) {
    || (s.cpc.AwaitHello? && s.spc.ServerFailed? && s.toServer == []
        && OneMessage(Contents(s.toClient)))
    || (s.cpc.ClientFailed? && s.spc.AwaitClientCertificate? && s.toClient == []
        && OneMessage(Contents(s.toServer)))
  }

  /** One side has refused the other. */
  predicate Refused(s: State) {
    Stopped(s) || Parting(s)
  }

  // ----- The phases of a run

  /** The rest of the server's first flight, by where the client stands. */
  function FlightRest(w: World, sh: Msg, pc: ClientPc): seq<Content>
    requires sh.ServerHello?
  {
    match pc
    case AwaitHello => [Message(sh)] + FirstToClient(w, sh)
    case AwaitCertificate(_) => FirstToClient(w, sh)
    case AwaitAfterCertificate(_) => StatusToClient(w, sh)
    case AwaitAfterKey(_, _) => RequestToClient(w)
    case _ => DoneToClient()
  }

  predicate InFlight(w: World, sh: Msg, pc: ClientPc) {
    match pc
    case AwaitHello => true
    case AwaitCertificate(h) => h == sh
    case AwaitAfterCertificate(h) => h == sh
    case AwaitAfterKey(h, key) => h == sh && w.skx == Some(key)
    case AwaitAfterRequest(h, skx) => h == sh && w.skx == skx && w.requestsCert
    case _ => false
  }

  /** Where the server waits after its first flight. */
  function AfterHello(w: World, sh: Msg): ServerPc {
    if w.requestsCert then AwaitClientCertificate(sh, w.clientRandom) else AwaitClientKey(sh, w.clientRandom, [])
  }

  /** What the client has accepted by the time it waits at `pc` in the first flight. */
  predicate AcceptedSoFar(w: World, sh: Msg, pc: ClientPc)
    requires sh.ServerHello?
  {
    match pc
    case AwaitHello => true
    case AwaitCertificate(_) => sh.suite in w.suites
    case AwaitAfterCertificate(_) => sh.suite in w.suites && ChainTrusted(w, sh)
    case _ => sh.suite in w.suites && ChainTrusted(w, sh) && KeyTaken(w)
  }

  /** The server's first flight is on its way or partly read, with no stapled status in it. */
  ghost predicate Flight(w: World, sh: Msg, s: State)
    requires sh.ServerHello?
  {
    && InFlight(w, sh, s.cpc) && AcceptedSoFar(w, sh, s.cpc) && s.spc == AfterHello(w, sh) && s.toServer == []
    && Contents(s.toClient) == FlightRest(w, sh, s.cpc)
    && s.server.transcript == FirstFlightTranscript(w, sh)
    && s.server.transcript == (if s.cpc.AwaitHello? then [Offer(w)] else s.client.transcript)
       + Plain(FlightRest(w, sh, s.cpc))
    && (s.cpc.AwaitHello? ==> s.client.transcript == [])
  }

  /** A stapled status is on its way; the client will stumble over it. */
  ghost predicate Stapled(w: World, sh: Msg, s: State)
    requires sh.ServerHello?
  {
    && s.spc == AfterHello(w, sh) && s.toServer == []
    && (forall c | c in Contents(s.toClient) :: Later(c))
    && match s.cpc
       case AwaitHello => Contents(s.toClient) == [Message(sh)] + FirstToClient(w, sh)
       case AwaitCertificate(h) => h == sh
       case AwaitAfterCertificate(h) => h == sh
       case AwaitStatus(h) => h == sh
       case ClientFailed => true
       case _ => false
  }

  /** The client waits for the server's last flight, and the server reads the client's certificate and keys. */
  ghost predicate Replying(w: World, sh: Msg, s: State)
    requires Expands(w) && sh.ServerHello?
  {
    && ClientAccepts(w, sh)
    && var master := s.client.master;
    && s.cpc == AfterFlight(sh, false) && s.toClient == []
    && s.client.out.keys == Some(ClientKeys(w, sh, master).0) && s.client.inn.next == Some(ClientKeys(w, sh, master).1)
    && master == Agreed(w, sh)
    && s.client.transcript == s.server.transcript + Plain(Contents(s.toServer))
    && match s.spc
       case AwaitClientCertificate(h, r) =>
         && h == sh && r == w.clientRandom && w.requestsCert
         && s.server.transcript == FirstFlightTranscript(w, sh)
         && Contents(s.toServer) == CertificateToServer(w, sh, master, s.server.transcript)
       case AwaitClientKey(h, r, certs) =>
         && h == sh && r == w.clientRandom && certs == ClientCerts(w) && CertificateAccepted(w)
         && s.server.transcript == BeforeKey(w, sh)
         && Contents(s.toServer) == KeyToServer(w, sh, certs, master, s.server.transcript)
       case AwaitVerify(h, r, certs) =>
         && h == sh && r == w.clientRandom && certs == ClientCerts(w) && certs != [] && s.server.master == master
         && CertificateAccepted(w) && w.accept(Response(w).1).Some?
         && s.server.transcript == Signed(w, sh)
         && Contents(s.toServer) == VerifyToServer(w, sh, master, s.server.transcript)
       case _ => false
  }

  /** The secret, and all that the side that has written last has said and heard. */
  datatype Words = Words(master: Data, said: seq<Msg>)

  /** ... after the client's last flight. */
  function ClientSays(w: World, sh: Msg, x: Words): Words
    requires Expands(w) && sh.ServerHello?
  {
    Words(x.master, x.said + Plain(ChangeToServer(w, sh, x.master, x.said)))
  }

  /** ... after the server's last flight. */
  function ServerSays(w: World, sh: Msg, certs: seq<Data>, x: Words): Words
    requires Expands(w) && sh.ServerHello?
  {
    Words(x.master, x.said + Plain(TicketToClient(w, sh, certs, x.master, x.said)))
  }

  /** Before the keys are switched in a full handshake. */
  function FullStart(w: World, sh: Msg): Words
    requires Expands(w) && Responds(w) && sh.ServerHello?
  {
    Words(Agreed(w, sh), Signed(w, sh)
                         + if ClientCerts(w) != [] then [CertificateVerify(w.sign(Signed(w, sh)))] else [])
  }

  function FullReply(w: World, sh: Msg): Words
    requires Expands(w) && Responds(w) && sh.ServerHello?
  {
    ClientSays(w, sh, FullStart(w, sh))
  }

  function FullEnd(w: World, sh: Msg): Words
    requires Expands(w) && Responds(w) && sh.ServerHello?
  {
    ServerSays(w, sh, ClientCerts(w), FullReply(w, sh))
  }

  function ResumedFirst(w: World, sh: Msg, session: Session): Words
    requires Expands(w) && sh.ServerHello?
  {
    ServerSays(w, sh, session.certificates, Words(session.master, [Offer(w), sh]))
  }

  function ResumedEnd(w: World, sh: Msg, session: Session): Words
    requires Expands(w) && sh.ServerHello?
  {
    ClientSays(w, sh, ResumedFirst(w, sh, session))
  }

  /** The server reads what the client sends last; nothing is on its way to the client. */
  ghost predicate ServerTail(w: World, sh: Msg, resume: bool, certs: seq<Data>, x: Words, s: State)
    requires Expands(w) && sh.ServerHello?
  {
    var master := x.master;
    var (ck, sk) := ClientKeys(w, sh, master);
    && s.toClient == [] && s.server.master == s.client.master == master && s.client.transcript == x.said
    && s.client.transcript == s.server.transcript + Plain(Contents(s.toServer))
    && s.client.out.keys == Some(ck)
    && (if resume then s.cpc == ClientDone(sh, true) && s.client.inn.keys == Some(sk) && s.server.out.keys == Some(sk)
        else s.cpc == AfterFlight(sh, false) && s.client.inn.next == Some(sk) && s.server.out.next == Some(sk))
    && match s.spc
       case AwaitClientChange(h, r, c) =>
         h == sh && r == resume && c == certs && s.server.inn.next == Some(ck)
         && Contents(s.toServer) == ChangeToServer(w, sh, master, s.server.transcript)
       case AwaitNextProtocol(h, r, c) =>
         h == sh && r == resume && c == certs && s.server.inn.keys == Some(ck) && sh.npn
         && Contents(s.toServer) == NextToServer(w, sh, master, s.server.transcript)
       case AwaitClientFinished(h, r, c) =>
         h == sh && r == resume && c == certs && s.server.inn.keys == Some(ck)
         && Contents(s.toServer) == FinishedToServer(w, master, s.server.transcript)
       case _ => false
  }

  /** The client reads what the server sends last; nothing is on its way to the server. */
  ghost predicate ClientTail(w: World, sh: Msg, resume: bool, certs: seq<Data>, x: Words, s: State)
    requires Expands(w) && sh.ServerHello?
  {
    var master := x.master;
    var (ck, sk) := ClientKeys(w, sh, master);
    && s.toServer == [] && s.server.master == s.client.master == master && s.server.transcript == x.said
    && s.server.transcript == s.client.transcript + Plain(Contents(s.toClient))
    && s.server.out.keys == Some(sk)
    && (if resume then
          && s.spc == AwaitClientChange(sh, true, certs)
          && s.server.inn.next == Some(ck) && s.client.out.next == Some(ck)
        else s.spc == ServerDone(sh, false) && s.server.inn.keys == Some(ck) && s.client.out.keys == Some(ck))
    && match s.cpc
       case AwaitTicket(h, r) =>
         h == sh && r == resume && s.client.inn.next == Some(sk) && sh.ticketSupported
         && Contents(s.toClient) == TicketToClient(w, sh, certs, master, s.client.transcript)
       case AwaitServerChange(h, r) =>
         h == sh && r == resume && s.client.inn.next == Some(sk)
         && Contents(s.toClient) == ChangeToClient(w, sh, master, s.client.transcript)
       case AwaitServerFinished(h, r) =>
         h == sh && r == resume && s.client.inn.keys == Some(sk)
         && Contents(s.toClient) == FinishedToClient(w, master, s.client.transcript)
       case _ => false
  }

  /** A resumption's hello and the server's last flight are on their way. */
  ghost predicate Resuming(w: World, sh: Msg, session: Session, s: State)
    requires Expands(w) && sh.ServerHello?
  {
    var (ck, sk) := ClientKeys(w, sh, session.master);
    var rest := TicketToClient(w, sh, session.certificates, session.master, [Offer(w), sh]);
    && s.cpc == AwaitHello && s.toServer == [] && s.client.transcript == []
    && s.spc == AwaitClientChange(sh, true, session.certificates)
    && s.server.master == session.master
    && s.server.out.keys == Some(sk) && s.server.inn.next == Some(ck)
    && Contents(s.toClient) == [Message(sh)] + rest
    && s.server.transcript == [Offer(w), sh] + Plain(rest)
  }

  /** Both sides are done, with the same transcript and secret and with each other's keys. */
  ghost predicate Agree(w: World, s: State)
    requires Expands(w)
  {
    && s.cpc.ClientDone? && s.spc.ServerDone? && s.cpc.sh == s.spc.hello && s.cpc.resume == s.spc.resume
    && s.cpc.sh.ServerHello?
    && s.toClient == [] && s.toServer == []
    && s.client.transcript == s.server.transcript && s.client.master == s.server.master
    && (s.client.out.keys, s.server.out.keys)
       == (Some(ClientKeys(w, s.cpc.sh, s.client.master).0), Some(ClientKeys(w, s.cpc.sh, s.client.master).1))
    && s.server.inn.keys == s.client.out.keys && s.client.inn.keys == s.server.out.keys
  }

  /** ... after these hellos, and this is what they have said. */
  ghost predicate AgreeOn(w: World, s: State, sh: Msg, resume: bool, x: Words)
    requires Expands(w)
  {
    Agree(w, s) && s.cpc == ClientDone(sh, resume) && s.client.master == x.master && s.client.transcript == x.said
  }

  /** A full handshake that neither side has refused. */
  ghost predicate Full(w: World, s: State)
    requires Expands(w) && FullSuite(w, Offer(w)).Some?
  {
    var sh := ServerHelloOf(w);
    if sh.ocspStapling then Stapled(w, sh, s)
    else
      || Flight(w, sh, s) || Replying(w, sh, s)
      || (BothAccept(w, sh) && (|| ServerTail(w, sh, false, ClientCerts(w), FullReply(w, sh), s)
                                || ClientTail(w, sh, false, ClientCerts(w), FullEnd(w, sh), s)
                                || AgreeOn(w, s, sh, false, FullEnd(w, sh))))
  }

  /** A resumption that the server has not refused. */
  ghost predicate Abbreviated(w: World, s: State)
    requires Expands(w) && FullSuite(w, Offer(w)).Some? && Resumption(w, Offer(w)).Some?
  {
    var sh, session := ServerHelloOf(w), Resumption(w, Offer(w)).value.0;
    && SessionAccepted(w, session)
    && (|| Resuming(w, sh, session, s)
        || ClientTail(w, sh, true, session.certificates, ResumedFirst(w, sh, session), s)
        || ServerTail(w, sh, true, session.certificates, ResumedEnd(w, sh, session), s)
        || AgreeOn(w, s, sh, true, ResumedEnd(w, sh, session)))
  }

  ghost predicate Phase(w: World, s: State)
    requires Expands(w)
  {
    || Fresh(s)
    || Offered(w, s)
    || (Refused(s) && !Succeeds(w))
    || (FullSuite(w, Offer(w)).Some? && if Resumption(w, Offer(w)).Some? then Abbreviated(w, s) else Full(w, s))
  }

  /** Each queue leads from its reader's state to its writer's, and nothing waits unflushed. */
  ghost predicate Connected(s: State) {
    && s.client.sendBuf == [] && s.server.sendBuf == []
    && Linked(s.client.inn, s.toClient, s.server.out)
    && Linked(s.server.inn, s.toServer, s.client.out)
  }

  ghost predicate Inv(w: World, s: State)
    requires Honest(w)
  {
    Phase(w, s) && Connected(s)
  }

  // ----- Reading

  /** The end after it has opened `p`. */
  function Opened(e: End, p: Packet): End {
    e.(inn := match p.content
              case Message(_) => e.inn.(seqNo := e.inn.seqNo + p.records)
              case ChangeCipherSpec(_) => Half(e.inn.next, 0, None))
  }

  lemma ReadsMessage(e: End, queue: seq<Packet>, f: Half, m: Msg, rest: seq<Content>)
    requires Linked(e.inn, queue, f) && Contents(queue) == [Message(m)] + rest
    ensures queue != [] && Receive(e, queue) == Got(Message(m), Opened(e, queue[0]))
    ensures Contents(queue[1..]) == rest && Linked(Opened(e, queue[0]).inn, queue[1..], f)
    ensures Opened(e, queue[0]).(inn := e.inn) == e
    ensures Opened(e, queue[0]).inn.keys == e.inn.keys && Opened(e, queue[0]).inn.next == e.inn.next
  {
    Head(queue, Message(m), rest);
  }

  lemma ReadsChange(e: End, queue: seq<Packet>, f: Half, k: Keys, rest: seq<Content>)
    requires Linked(e.inn, queue, f) && Contents(queue) == [ChangeCipherSpec(k)] + rest && e.inn.next == Some(k)
    ensures queue != [] && Receive(e, queue) == Got(ChangeCipherSpec(k), Opened(e, queue[0]))
    ensures Contents(queue[1..]) == rest && Linked(Opened(e, queue[0]).inn, queue[1..], f)
    ensures Opened(e, queue[0]).(inn := e.inn) == e
    ensures Opened(e, queue[0]).inn.keys == Some(k)
  {
    Head(queue, ChangeCipherSpec(k), rest);
  }

  /** A client step that takes `m` and writes nothing. */
  lemma ClientTakes(w: World, s: State, t: State, m: Msg, rest: seq<Content>) returns (e: End)
    requires Expands(w) && Connected(s) && ClientMoves(w, s, t)
    requires !s.cpc.Start? && Contents(s.toClient) == [Message(m)] + rest
    ensures e.(inn := s.client.inn) == s.client && e.inn.keys == s.client.inn.keys && e.inn.next == s.client.inn.next
    ensures (t.cpc, t.client) == (ClientTake(w, s.cpc, m, e).0, ClientTake(w, s.cpc, m, e).1.(sendBuf := []))
    ensures t.toServer == s.toServer + ClientTake(w, s.cpc, m, e).1.sendBuf
    ensures t.spc == s.spc && t.server == s.server
    ensures Contents(t.toClient) == rest && Linked(e.inn, t.toClient, t.server.out)
    ensures forall inn: Half {:trigger SameState(e.inn, inn)} | SameState(e.inn, inn) :: Linked(inn, t.toClient,
            t.server.out)
  {
    hide Linked, Contents, ClientTake;
    ReadsMessage(s.client, s.toClient, s.server.out, m, rest);
    e := Opened(s.client, s.toClient[0]);
    forall inn: Half | SameState(e.inn, inn) ensures Linked(inn, t.toClient, t.server.out) {
      LinkedSame(e.inn, inn, t.toClient, t.server.out);
    }
  }

  lemma ServerTakes(w: World, s: State, t: State, m: Msg, rest: seq<Content>) returns (e: End)
    requires Expands(w) && Connected(s) && ServerMoves(w, s, t)
    requires Contents(s.toServer) == [Message(m)] + rest
    ensures e.(inn := s.server.inn) == s.server && e.inn.keys == s.server.inn.keys && e.inn.next == s.server.inn.next
    ensures (t.spc, t.server) == (ServerTake(w, s.spc, m, e).0, ServerTake(w, s.spc, m, e).1.(sendBuf := []))
    ensures t.toClient == s.toClient + ServerTake(w, s.spc, m, e).1.sendBuf
    ensures t.cpc == s.cpc && t.client == s.client
    ensures Contents(t.toServer) == rest && Linked(e.inn, t.toServer, t.client.out)
    ensures forall inn: Half {:trigger SameState(e.inn, inn)} | SameState(e.inn, inn) :: Linked(inn, t.toServer,
            t.client.out)
  {
    hide Linked, Contents, ServerTake;
    ReadsMessage(s.server, s.toServer, s.client.out, m, rest);
    e := Opened(s.server, s.toServer[0]);
    forall inn: Half | SameState(e.inn, inn) ensures Linked(inn, t.toServer, t.client.out) {
      LinkedSame(e.inn, inn, t.toServer, t.client.out);
    }
  }

  lemma Nothing(queue: seq<Packet>)
    requires Contents(queue) == []
    ensures queue == []
  {
  }

  /** What the client wrote in one step links its queue to its new state. */
  lemma ClientWrote(s: State, t: State, e0: End, cs: seq<Content>, e: End)
    requires Connected(s) && s.toServer == [] && t.toServer == s.toServer + e.sendBuf && t.client.out == e.out
    requires SameState(e0.out, s.client.out) && e0.sendBuf == [] && Wrote(e0, cs, e) && t.server == s.server
    ensures Contents(t.toServer) == cs && Linked(t.server.inn, t.toServer, t.client.out)
  {
    hide Contents;
    assert e.sendBuf[0..] == e.sendBuf && [] + e.sendBuf == e.sendBuf;
    assert SameState(e0.out, t.server.inn);
    LinkedSame(e0.out, t.server.inn, e.sendBuf, e.out);
  }

  lemma ServerWrote(s: State, t: State, e0: End, cs: seq<Content>, e: End)
    requires Connected(s) && s.toClient == [] && t.toClient == s.toClient + e.sendBuf && t.server.out == e.out
    requires SameState(e0.out, s.server.out) && e0.sendBuf == [] && Wrote(e0, cs, e) && t.client == s.client
    ensures Contents(t.toClient) == cs && Linked(t.client.inn, t.toClient, t.server.out)
  {
    hide Contents;
    assert e.sendBuf[0..] == e.sendBuf && [] + e.sendBuf == e.sendBuf;
    assert SameState(e0.out, t.client.inn);
    LinkedSame(e0.out, t.client.inn, e.sendBuf, e.out);
  }

  // ----- The full handshake, step by step

  lemma FlightHello(w: World, sh: Msg, s: State, t: State)
    requires Honest(w) && sh.ServerHello? && sh.sessionId == [] && (sh.npn ==> w.clientNpn)
    requires Flight(w, sh, s) && Connected(s) && ClientMoves(w, s, t) && s.cpc == AwaitHello
    ensures Connected(t) && if sh.suite in w.suites then Flight(w, sh, t) else Stopped(t)
  {
    hide Linked, Contents, Plain, FirstToClient, FirstFlightTranscript;
    var e := ClientTakes(w, s, t, sh, FirstToClient(w, sh));
    assert t.toServer == [] + [] == [];
    PlainMessage([Offer(w)], sh, FirstToClient(w, sh));
    assert [] + [Offer(w)] + [sh] == [Offer(w)] + [sh];
  }

  /** What the client makes of a message of the first flight, up to the last. */
  lemma FlightTake(w: World, sh: Msg, pc: ClientPc, m: Msg, rest: seq<Content>, e: End)
    requires Expands(w) && sh.ServerHello? && !sh.ocspStapling
    requires pc != AwaitHello && InFlight(w, sh, pc) && AcceptedSoFar(w, sh, pc)
    requires FlightRest(w, sh, pc) == [Message(m)] + rest && m != ServerHelloDone
    ensures var (pc', e') := ClientTake(w, pc, m, e);
            if pc'.ClientFailed? then !ClientAccepts(w, sh) && e' == e
            else
              && pc' != AwaitHello && InFlight(w, sh, pc') && AcceptedSoFar(w, sh, pc')
              && FlightRest(w, sh, pc') == rest && e' == Hash(e, m)
  {
    assert FlightRest(w, sh, pc)[0] == Message(m) && FlightRest(w, sh, pc)[1..] == rest;
  }

  lemma FlightOne(w: World, sh: Msg, s: State, t: State, m: Msg, rest: seq<Content>)
    requires Honest(w) && sh.ServerHello? && !sh.ocspStapling
    requires Flight(w, sh, s) && Connected(s) && ClientMoves(w, s, t) && s.cpc != AwaitHello
    requires Contents(s.toClient) == [Message(m)] + rest && m != ServerHelloDone
    ensures Connected(t) && (Flight(w, sh, t) || (Stopped(t) && !ClientAccepts(w, sh)))
  {
    hide Expands, Linked, Contents, Plain, FirstFlightTranscript, ClientTake, FlightRest, AcceptedSoFar,
         ClientAccepts;
    var e := ClientTakes(w, s, t, m, rest);
    FlightTake(w, sh, s.cpc, m, rest, e);
    assert t.toServer == [] + [] == [];
    PlainMessage(s.client.transcript, m, rest);
  }

  lemma FlightDone(w: World, sh: Msg, s: State, t: State, rest: seq<Content>)
    requires Honest(w) && Responds(w) && sh.ServerHello? && !sh.ocspStapling
    requires Flight(w, sh, s) && Connected(s) && ClientMoves(w, s, t) && s.cpc != AwaitHello
    requires Contents(s.toClient) == [Message(ServerHelloDone)] + rest
    ensures Replying(w, sh, t) && Connected(t)
  {
    hide Linked, Contents, Plain, SecondFlight, Wrote, ClientKeys, KeyToServer, CertificateToServer,
         FirstFlightTranscript;
    var e := ClientTakes(w, s, t, ServerHelloDone, rest);
    assert FlightRest(w, sh, s.cpc)[0] == Message(ServerHelloDone) && FlightRest(w, sh, s.cpc)[1..] == rest;
    assert rest == [];
    Nothing(t.toClient);
    var e1 := Hash(e, ServerHelloDone);
    PlainMessage(s.client.transcript, ServerHelloDone, rest);
    PlainNothing(e1.transcript);
    assert ClientTake(w, s.cpc, ServerHelloDone, e)
        == (AfterFlight(sh, false), SecondFlight(w, sh, Response(w), w.requestsCert, e1));
    var e2 := SecondFlight(w, sh, Response(w), w.requestsCert, e1);
    SecondFlightWrites(w, sh, e1);
    ClientWrote(s, t, WithSecrets(w, sh, e1), SecondToServer(w, sh, Agreed(w, sh), e1.transcript), e2);
    WroteFacts(WithSecrets(w, sh, e1), SecondToServer(w, sh, Agreed(w, sh), e1.transcript), e2);
    assert SameState(e.inn, t.client.inn);
    PlainNothing(FirstFlightTranscript(w, sh));
  }

  /** A client that cannot answer the server's key exchange stops there; its certificate, if asked for, is sent. */
  lemma FlightEnds(w: World, sh: Msg, s: State, t: State, rest: seq<Content>)
    requires Honest(w) && !Responds(w) && sh.ServerHello? && !sh.ocspStapling
    requires Flight(w, sh, s) && Connected(s) && ClientMoves(w, s, t) && s.cpc != AwaitHello
    requires Contents(s.toClient) == [Message(ServerHelloDone)] + rest
    ensures Refused(t) && Connected(t)
    ensures t.cpc.ClientFailed?
            && Contents(t.toServer) == if w.requestsCert then [Message(Certificate(w.clientChain))] else []
  {
    hide Linked, Contents, Plain, FirstFlightTranscript, Wrote, SayIf;
    var e := ClientTakes(w, s, t, ServerHelloDone, rest);
    assert FlightRest(w, sh, s.cpc)[0] == Message(ServerHelloDone) && FlightRest(w, sh, s.cpc)[1..] == rest;
    Nothing(t.toClient);
    var e1, m := Hash(e, ServerHelloDone), Certificate(w.clientChain);
    assert ClientTake(w, s.cpc, ServerHelloDone, e) == (ClientFailed, SayIf(w, w.requestsCert, e1, m));
    var cs := if w.requestsCert then [Message(m)] else [];
    SayIfWrites(w, w.requestsCert, e1, m);
    WroteFacts(e1, cs, SayIf(w, w.requestsCert, e1, m));
    ClientWrote(s, t, e1, cs, SayIf(w, w.requestsCert, e1, m));
    assert SameState(e.inn, t.client.inn);
  }

  lemma WroteFacts(e0: End, cs: seq<Content>, e: End)
    requires Wrote(e0, cs, e)
    ensures e.inn == e0.inn && e.master == e0.master && e.transcript == e0.transcript + Plain(cs)
  {
  }

  lemma PlainNothing(t: seq<Msg>)
    ensures t + Plain([]) == t
  {
  }

  /** The client asks for the next message of the first flight. */
  lemma FlightStep(w: World, sh: Msg, s: State, t: State)
    requires Honest(w) && sh.ServerHello? && !sh.ocspStapling && sh.sessionId == [] && (sh.npn ==> w.clientNpn)
    requires Flight(w, sh, s) && Connected(s) && ClientMoves(w, s, t)
    ensures Connected(t)
    ensures Flight(w, sh, t) || Replying(w, sh, t) || (Refused(t) && !ClientAccepts(w, sh))
  {
    hide Flight, Replying, Connected, ClientMoves, Stopped, Parting;
    FlightHead(w, sh, s);
    var rest := FlightRest(w, sh, s.cpc);
    if s.cpc == AwaitHello {
      FlightHello(w, sh, s, t);
    } else {
      assert rest == [rest[0]] + rest[1..];
      if rest[0] != Message(ServerHelloDone) {
        FlightOne(w, sh, s, t, rest[0].m, rest[1..]);
      } else if Responds(w) {
        FlightDone(w, sh, s, t, rest[1..]);
      } else {
        FlightEnds(w, sh, s, t, rest[1..]);
      }
    }
  }

  lemma FlightHead(w: World, sh: Msg, s: State)
    requires sh.ServerHello? && Flight(w, sh, s)
    ensures Contents(s.toClient) == FlightRest(w, sh, s.cpc) && FlightRest(w, sh, s.cpc) != []
            && Later(FlightRest(w, sh, s.cpc)[0])
  {
  }

  lemma StapledStep(w: World, sh: Msg, s: State, t: State)
    requires Honest(w) && sh.ServerHello? && sh.ocspStapling && sh.sessionId == []
    requires Stapled(w, sh, s) && Connected(s) && ClientMoves(w, s, t)
    ensures Stapled(w, sh, t) && Connected(t)
  {
    hide Linked, Contents, FirstToClient;
    var cs := Contents(s.toClient);
    if s.toClient != [] {
      assert cs == [cs[0]] + cs[1..] && cs[0] in cs && forall c | c in cs[1..] :: c in cs;
      if s.cpc == AwaitHello {
        assert cs[0] == Message(sh) && cs[1..] == FirstToClient(w, sh);
      }
      var e := ClientTakes(w, s, t, cs[0].m, cs[1..]);
      StapledTake(w, sh, s.cpc, cs[0].m, e);
      assert s.toServer + [] == s.toServer;
    }
  }

  /** With a stapled status announced, no message gets the client to its second flight. */
  lemma StapledTake(w: World, sh: Msg, pc: ClientPc, m: Msg, e: End)
    requires Expands(w) && sh.ServerHello? && sh.ocspStapling && (w.session.Some? ==> sh.sessionId != w.sessionId)
    requires pc in {AwaitCertificate(sh), AwaitAfterCertificate(sh), AwaitStatus(sh)} || (pc == AwaitHello && m == sh)
    ensures var (pc', e') := ClientTake(w, pc, m, e);
            && pc' in {AwaitCertificate(sh), AwaitAfterCertificate(sh), AwaitStatus(sh), ClientFailed}
            && e'.(transcript := e.transcript) == e
  {
  }

  // ----- The server's side

  lemma OfferStep(w: World, s: State, t: State)
    requires Honest(w) && Fresh(s) && Steps(w, s, t)
    ensures Offered(w, t) && Connected(t)
  {
    hide Wrote;
    assert ClientMoves(w, s, t);
    var e := Say(w, s.client, Hello(w));
    SayWrites(w, s.client, Hello(w));
    ClientWrote(s, t, s.client, [Message(Hello(w))], e);
  }

  lemma AnswerStep(w: World, s: State, t: State)
    requires Honest(w) && Offered(w, s) && Connected(s) && ServerMoves(w, s, t)
    ensures Connected(t)
    ensures FullSuite(w, Offer(w)) == None ==> Stopped(t)
    ensures FullSuite(w, Offer(w)).Some? && Resumption(w, Offer(w)).Some? ==>
              var session := Resumption(w, Offer(w)).value.0;
              if SessionAccepted(w, session) then Resuming(w, ServerHelloOf(w), session, t)
              else Parting(t) && Contents(t.toClient) == [Message(ServerHelloOf(w))]
    ensures FullSuite(w, Offer(w)).Some? && Resumption(w, Offer(w)) == None ==>
              var sh := ServerHelloOf(w);
              if sh.ocspStapling then Stapled(w, sh, t) else Flight(w, sh, t)
  {
    hide Linked, Contents, Plain, Resuming, Flight, Stapled, FirstFlight, ServerFinish, FullSuite, Resumption;
    var e := ServerTakes(w, s, t, Offer(w), []);
    Nothing(t.toServer);
    if FullSuite(w, Offer(w)) == None {
      assert t.toClient == [] + [];
    } else if Resumption(w, Offer(w)) == None {
      AnswerFull(w, s, t, e);
    } else if SessionAccepted(w, Resumption(w, Offer(w)).value.0) {
      AnswerResume(w, s, t, e);
    } else {
      AnswerRefused(w, s, t, e);
    }
  }

  /** A server that does not accept the kept certificates gives up, but its hello has been written. */
  lemma AnswerRefused(w: World, s: State, t: State, e: End)
    requires Honest(w) && Offered(w, s) && Connected(s)
    requires FullSuite(w, Offer(w)).Some? && Resumption(w, Offer(w)).Some?
    requires !SessionAccepted(w, Resumption(w, Offer(w)).value.0)
    requires e.(inn := s.server.inn) == s.server && e.inn.keys == s.server.inn.keys && e.inn.next == s.server.inn.next
    requires t.toServer == [] && t.cpc == s.cpc && t.client == s.client && Linked(e.inn, [], s.client.out)
    requires (t.spc, t.server) == (TakeClientHello(w, Offer(w), e).0, TakeClientHello(w, Offer(w), e).1.(sendBuf := []))
    requires t.toClient == s.toClient + TakeClientHello(w, Offer(w), e).1.sendBuf
    ensures Connected(t) && Parting(t) && Contents(t.toClient) == [Message(ServerHelloOf(w))]
  {
    hide Linked, Contents, Plain, FullSuite, Resumption, Say, Wrote;
    var sh := ServerHelloOf(w);
    var e0 := Hash(e, Offer(w));
    SayWrites(w, e0, sh);
    WroteFacts(e0, [Message(sh)], Say(w, e0, sh));
    ServerWrote(s, t, e0, [Message(sh)], Say(w, e0, sh));
    LinkedNothing(e.inn, s.client.out, t.server.inn);
  }

  lemma AnswerFull(w: World, s: State, t: State, e: End)
    requires Honest(w) && Offered(w, s) && Connected(s)
    requires FullSuite(w, Offer(w)).Some? && Resumption(w, Offer(w)) == None
    requires e.(inn := s.server.inn) == s.server && e.inn.keys == s.server.inn.keys && e.inn.next == s.server.inn.next
    requires t.toServer == [] && t.cpc == s.cpc && t.client == s.client && Linked(e.inn, [], s.client.out)
    requires (t.spc, t.server) == (TakeClientHello(w, Offer(w), e).0, TakeClientHello(w, Offer(w), e).1.(sendBuf := []))
    requires t.toClient == s.toClient + TakeClientHello(w, Offer(w), e).1.sendBuf
    ensures Connected(t)
            && if ServerHelloOf(w).ocspStapling then Stapled(w, ServerHelloOf(w), t) else Flight(w, ServerHelloOf(w), t)
  {
    hide Linked, Contents, Plain, FirstFlight, FullSuite, Resumption, FirstToClient, Say, Wrote;
    var sh := ServerHelloOf(w);
    var e0 := Hash(e, Offer(w));
    var e1 := Say(w, e0, sh);
    SayWrites(w, e0, sh);
    var e2 := FirstFlight(w, sh, e1);
    FirstFlightWrites(w, sh, e1);
    var cs := [Message(sh)] + FirstToClient(w, sh);
    WroteJoin(e0, [Message(sh)], e1, FirstToClient(w, sh), e2);
    WroteFacts(e0, cs, e2);
    ServerWrote(s, t, e0, cs, e2);
    OnlyMessages(w, sh);
    assert [] + [Offer(w)] == [Offer(w)];
    LinkedNothing(e.inn, s.client.out, t.server.inn);
  }

  lemma OnlyMessages(w: World, sh: Msg)
    requires sh.ServerHello?
    ensures forall c | c in [Message(sh)] + FirstToClient(w, sh) :: Later(c)
  {
  }

  lemma LinkedNothing(d: Half, e: Half, f: Half)
    requires Linked(d, [], e) && SameState(d, f)
    ensures Linked(f, [], e)
  {
  }

  lemma AnswerResume(w: World, s: State, t: State, e: End)
    requires Honest(w) && Offered(w, s) && Connected(s)
    requires FullSuite(w, Offer(w)).Some? && Resumption(w, Offer(w)).Some?
    requires SessionAccepted(w, Resumption(w, Offer(w)).value.0)
    requires e.(inn := s.server.inn) == s.server && e.inn.keys == s.server.inn.keys && e.inn.next == s.server.inn.next
    requires t.toServer == [] && t.cpc == s.cpc && t.client == s.client && Linked(e.inn, [], s.client.out)
    requires (t.spc, t.server) == (TakeClientHello(w, Offer(w), e).0, TakeClientHello(w, Offer(w), e).1.(sendBuf := []))
    requires t.toClient == s.toClient + TakeClientHello(w, Offer(w), e).1.sendBuf
    ensures Connected(t) && Resuming(w, ServerHelloOf(w), Resumption(w, Offer(w)).value.0, t)
  {
    hide Linked, Contents, Plain, ServerFinish, FullSuite, Resumption, TicketToClient, Say, Wrote, ClientKeys;
    var sh := ServerHelloOf(w);
    var session := Resumption(w, Offer(w)).value.0;
    ResumptionKept(w);
    var (ck, sk) := ClientKeys(w, sh, session.master);
    KeysOfHello(w, sh, session.master);
    var e0 := Hash(e, Offer(w));
    var e1 := Say(w, e0, sh);
    SayWrites(w, e0, sh);
    WroteMaster(e0, [Message(sh)], e1);
    var e2 := ServerEstablish(w, sh, Offer(w).random, e1.(master := session.master));
    var e3 := ServerFinish(w, sh, session.certificates, e2);
    ServerFinishWrites(w, sh, session.certificates, e2);
    WroteRebased(e0, [Message(sh)], e1, session.master, e2.inn, e2.out.next);
    var rest := TicketToClient(w, sh, session.certificates, session.master, e2.transcript);
    var from := e0.(master := session.master, inn := e2.inn);
    WroteJoin(from, [Message(sh)], e2, rest, e3);
    WroteFacts(from, [Message(sh)] + rest, e3);
    ServerWrote(s, t, from, [Message(sh)] + rest, e3);
    assert [] + [Offer(w)] == [Offer(w)] && [Offer(w)] + [sh] == [Offer(w), sh];
    PlainMessage([Offer(w)], sh, rest);
    LinkedNothing(e.inn, s.client.out, t.server.inn);
  }

  /** The server's view of the keys is the client's. */
  lemma KeysOfHello(w: World, sh: Msg, master: Data)
    requires Expands(w) && sh.ServerHello?
    ensures KeysFromMasterSecret(w, sh.suite, master, w.clientRandom, sh.random) == ClientKeys(w, sh, master)
  {
  }

  /** A session the server resumes is the one the client has kept. */
  lemma ResumptionKept(w: World)
    requires Honest(w) && Resumption(w, Offer(w)).Some?
    ensures w.session.Some? && Resumption(w, Offer(w)).value.0 == w.session.value.1
    ensures w.session.value.1.vers == w.vers && w.session.value.1.suite in w.suites
  {
  }

  // ----- The last flights

  /** The server reads the client's certificate, key exchange and signature. */
  lemma ReplyStep(w: World, sh: Msg, s: State, t: State)
    requires Honest(w) && sh.ServerHello? && Replying(w, sh, s) && Connected(s) && ServerMoves(w, s, t)
    ensures Connected(t)
    ensures || Replying(w, sh, t)
            || (if BothAccept(w, sh) then ServerTail(w, sh, false, ClientCerts(w), FullReply(w, sh), t) else Stopped(t))
  {
    hide Replying, Connected, ServerMoves, ServerTail, Stopped, BothAccept, FullReply;
    ReplyHead(w, sh, s);
    match s.spc {
      case AwaitClientCertificate(_, _) => ReplyCertificate(w, sh, s, t);
      case AwaitClientKey(_, _, certs) => ReplyKey(w, sh, s, t, certs);
      case AwaitVerify(_, _, certs) => ReplyVerify(w, sh, s, t, certs);
    }
  }

  lemma ReplyCertificate(w: World, sh: Msg, s: State, t: State)
    requires Honest(w) && sh.ServerHello? && Replying(w, sh, s) && Connected(s) && ServerMoves(w, s, t)
    requires s.spc == AwaitClientCertificate(sh, w.clientRandom)
    ensures Connected(t)
    ensures if CertificateAccepted(w) then Replying(w, sh, t) else Stopped(t) && !BothAccept(w, sh)
  {
    hide Linked, Contents, Plain, ClientKeys, KeyToServer, VerifyToServer, ChangeToServer, FirstFlightTranscript;
    var before := s.server.transcript;
    assert s.toClient + [] == s.toClient;
    var m := Certificate(w.clientChain);
    var rest := KeyToServer(w, sh, w.clientChain, s.client.master, before + [m]);
    var e := ServerTakes(w, s, t, m, rest);
    PlainMessage(before, m, rest);
  }

  lemma ReplyKey(w: World, sh: Msg, s: State, t: State, certs: seq<Data>)
    requires Honest(w) && sh.ServerHello? && Replying(w, sh, s) && Connected(s) && ServerMoves(w, s, t)
    requires s.spc == AwaitClientKey(sh, w.clientRandom, certs)
    ensures Connected(t)
    ensures || Replying(w, sh, t)
            || (if BothAccept(w, sh) then ServerTail(w, sh, false, ClientCerts(w), FullReply(w, sh), t) else Stopped(t))
  {
    hide Linked, Contents, Plain, ClientKeys, VerifyToServer, ChangeToServer, FirstFlightTranscript;
    var master, before := s.client.master, s.server.transcript;
    assert s.toClient + [] == s.toClient;
    var m := ClientKeyExchange(Response(w).1);
    var rest := if certs != [] then VerifyToServer(w, sh, master, before + [m])
        else ChangeToServer(w, sh, master, before + [m]);
    var e := ServerTakes(w, s, t, m, rest);
    PlainMessage(before, m, rest);
    assert Signed(w, sh) + [] == Signed(w, sh);
    KeysOfHello(w, sh, master);
    assert SameState(e.inn, t.server.inn);
    LinkedNext(s.client.inn, s.toClient, s.server.out, t.server.out);
  }

  lemma ReplyVerify(w: World, sh: Msg, s: State, t: State, certs: seq<Data>)
    requires Honest(w) && sh.ServerHello? && Replying(w, sh, s) && Connected(s) && ServerMoves(w, s, t)
    requires s.spc == AwaitVerify(sh, w.clientRandom, certs)
    ensures Connected(t)
    ensures if BothAccept(w, sh) then ServerTail(w, sh, false, ClientCerts(w), FullReply(w, sh), t) else Stopped(t)
  {
    hide Linked, Contents, Plain, ClientKeys, ChangeToServer, BeforeKey;
    var master, before := s.client.master, s.server.transcript;
    assert s.toClient + [] == s.toClient;
    var m := CertificateVerify(w.sign(before));
    var rest := ChangeToServer(w, sh, master, before + [m]);
    var e := ServerTakes(w, s, t, m, rest);
    PlainMessage(before, m, rest);
    KeysOfHello(w, sh, master);
    assert SameState(e.inn, t.server.inn);
    LinkedNext(s.client.inn, s.toClient, s.server.out, t.server.out);
  }

  lemma ReplyHead(w: World, sh: Msg, s: State)
    requires Expands(w) && sh.ServerHello? && Replying(w, sh, s)
    ensures Contents(s.toServer) != [] && ServerPcOk(s.spc)
    ensures || s.spc == AwaitClientCertificate(sh, w.clientRandom)
            || s.spc == AwaitClientKey(sh, w.clientRandom, ClientCerts(w))
            || s.spc == AwaitVerify(sh, w.clientRandom, ClientCerts(w))
  {
    hide Plain, ClientKeys, ChangeToServer, FirstFlightTranscript;
  }

  lemma ServerTailStep(w: World, sh: Msg, resume: bool, certs: seq<Data>, x: Words, s: State, t: State)
    requires Honest(w) && sh.ServerHello? && ServerTail(w, sh, resume, certs, x, s) && Connected(s)
             && ServerMoves(w, s, t)
    ensures Connected(t)
    ensures || ServerTail(w, sh, resume, certs, x, t)
            || (if resume then AgreeOn(w, t, sh, true, x)
                else ClientTail(w, sh, false, certs, ServerSays(w, sh, certs, x), t))
  {
    hide ServerTail, ClientTail, AgreeOn, Connected, ServerMoves, ServerSays;
    match s.spc {
      case AwaitClientChange(_, _, _) => ServerChanges(w, sh, resume, certs, x, s, t);
      case AwaitNextProtocol(_, _, _) => ServerNext(w, sh, resume, certs, x, s, t);
      case _ => ServerFinishes(w, sh, resume, certs, x, s, t);
    }
  }

  lemma ServerChanges(w: World, sh: Msg, resume: bool, certs: seq<Data>, x: Words, s: State, t: State)
    requires Honest(w) && sh.ServerHello? && ServerTail(w, sh, resume, certs, x, s) && Connected(s)
             && ServerMoves(w, s, t)
    requires s.spc.AwaitClientChange?
    ensures Connected(t) && ServerTail(w, sh, resume, certs, x, t)
  {
    hide Linked, Contents, Plain, ClientKeys, NextToServer;
    var k := ClientKeys(w, sh, s.client.master).0;
    var rest := NextToServer(w, sh, s.client.master, s.server.transcript);
    ReadsChange(s.server, s.toServer, s.client.out, k, rest);
    PlainChange(k, rest);
    assert s.toClient + [] == s.toClient;
    if !sh.npn {
      NextOnly(w, sh, s.client.master, s.server.transcript);
    }
  }

  lemma NextOnly(w: World, sh: Msg, master: Data, t: seq<Msg>)
    requires sh.ServerHello? && !sh.npn
    ensures NextToServer(w, sh, master, t) == FinishedToServer(w, master, t)
  {
  }

  lemma ServerNext(w: World, sh: Msg, resume: bool, certs: seq<Data>, x: Words, s: State, t: State)
    requires Honest(w) && sh.ServerHello? && ServerTail(w, sh, resume, certs, x, s) && Connected(s)
             && ServerMoves(w, s, t)
    requires s.spc.AwaitNextProtocol?
    ensures Connected(t) && ServerTail(w, sh, resume, certs, x, t)
  {
    hide Linked, Contents, Plain, ClientKeys, FinishedToServer;
    var m := NextProtocol(w.proto);
    var rest := FinishedToServer(w, s.client.master, s.server.transcript + [m]);
    var e := ServerTakes(w, s, t, m, rest);
    PlainMessage(s.server.transcript, m, rest);
    assert s.toClient + [] == s.toClient;
  }

  lemma ServerFinishes(w: World, sh: Msg, resume: bool, certs: seq<Data>, x: Words, s: State, t: State)
    requires Honest(w) && sh.ServerHello? && ServerTail(w, sh, resume, certs, x, s) && Connected(s)
             && ServerMoves(w, s, t)
    requires !s.spc.AwaitClientChange? && !s.spc.AwaitNextProtocol?
    ensures Connected(t)
    ensures if resume then AgreeOn(w, t, sh, true, x)
            else ClientTail(w, sh, false, certs, ServerSays(w, sh, certs, x), t)
  {
    hide Linked, Contents, Plain, ClientKeys, ServerFinish, Wrote, TicketToClient;
    var master, before := s.client.master, s.server.transcript;
    var m := Finished(w.clientSum(master, before));
    assert FinishedToServer(w, master, before) == [Message(m)] + [];
    var e := ServerTakes(w, s, t, m, []);
    Nothing(t.toServer);
    PlainMessage(before, m, []);
    PlainNothing(before + [m]);
    if resume {
      assert s.toClient + [] == s.toClient;
    } else {
      var e1 := Hash(e, m);
      ServerFinishWrites(w, sh, certs, e1);
      var e2 := ServerFinish(w, sh, certs, e1);
      var cs := TicketToClient(w, sh, certs, master, e1.transcript);
      WroteFacts(e1, cs, e2);
      ServerWrote(s, t, e1, cs, e2);
      TicketFirst(w, sh, certs, master, e1.transcript);
    }
  }

  lemma TicketFirst(w: World, sh: Msg, certs: seq<Data>, master: Data, t: seq<Msg>)
    requires Expands(w) && sh.ServerHello?
    ensures !sh.ticketSupported ==> TicketToClient(w, sh, certs, master, t) == ChangeToClient(w, sh, master, t)
  {
  }

  lemma ClientTailStep(w: World, sh: Msg, resume: bool, certs: seq<Data>, x: Words, s: State, t: State)
    requires Honest(w) && sh.ServerHello? && ClientTail(w, sh, resume, certs, x, s) && Connected(s)
             && ClientMoves(w, s, t)
    ensures Connected(t)
    ensures || ClientTail(w, sh, resume, certs, x, t)
            || (if resume then ServerTail(w, sh, true, certs, ClientSays(w, sh, x), t)
                else AgreeOn(w, t, sh, false, x))
  {
    hide ServerTail, ClientTail, AgreeOn, Connected, ClientMoves, ClientSays;
    match s.cpc {
      case AwaitTicket(_, _) => ClientTicket(w, sh, resume, certs, x, s, t);
      case AwaitServerChange(_, _) => ClientChanges(w, sh, resume, certs, x, s, t);
      case _ => ClientFinishes(w, sh, resume, certs, x, s, t);
    }
  }

  lemma ClientTicket(w: World, sh: Msg, resume: bool, certs: seq<Data>, x: Words, s: State, t: State)
    requires Honest(w) && sh.ServerHello? && ClientTail(w, sh, resume, certs, x, s) && Connected(s)
             && ClientMoves(w, s, t)
    requires s.cpc.AwaitTicket?
    ensures Connected(t) && ClientTail(w, sh, resume, certs, x, t)
  {
    hide Linked, Contents, Plain, ClientKeys, ChangeToClient;
    var m := NewSessionTicket(w.seal(Session(w.vers, sh.suite, s.server.master, certs)));
    var rest := ChangeToClient(w, sh, s.server.master, s.client.transcript + [m]);
    var e := ClientTakes(w, s, t, m, rest);
    PlainMessage(s.client.transcript, m, rest);
    assert s.toServer + [] == s.toServer;
  }

  lemma ClientChanges(w: World, sh: Msg, resume: bool, certs: seq<Data>, x: Words, s: State, t: State)
    requires Honest(w) && sh.ServerHello? && ClientTail(w, sh, resume, certs, x, s) && Connected(s)
             && ClientMoves(w, s, t)
    requires s.cpc.AwaitServerChange?
    ensures Connected(t) && ClientTail(w, sh, resume, certs, x, t)
  {
    hide Linked, Contents, Plain, ClientKeys, FinishedToClient;
    var k := ClientKeys(w, sh, s.server.master).1;
    var rest := FinishedToClient(w, s.server.master, s.client.transcript);
    ReadsChange(s.client, s.toClient, s.server.out, k, rest);
    PlainChange(k, rest);
    assert s.toServer + [] == s.toServer;
  }

  lemma ClientFinishes(w: World, sh: Msg, resume: bool, certs: seq<Data>, x: Words, s: State, t: State)
    requires Honest(w) && sh.ServerHello? && ClientTail(w, sh, resume, certs, x, s) && Connected(s)
             && ClientMoves(w, s, t)
    requires !s.cpc.AwaitTicket? && !s.cpc.AwaitServerChange?
    ensures Connected(t)
    ensures if resume then ServerTail(w, sh, true, certs, ClientSays(w, sh, x), t)
            else AgreeOn(w, t, sh, false, x)
  {
    hide Linked, Contents, Plain, ClientKeys, ClientFinish, Wrote, NextToServer;
    var master, before := s.server.master, s.client.transcript;
    var m := Finished(w.serverSum(master, before));
    assert FinishedToClient(w, master, before) == [Message(m)] + [];
    var e := ClientTakes(w, s, t, m, []);
    Nothing(t.toClient);
    PlainMessage(before, m, []);
    PlainNothing(before + [m]);
    if resume {
      var e1 := Hash(e, m);
      ClientFinishWrites(w, sh, e1);
      var e2 := ClientFinish(w, sh, e1);
      var cs := ChangeToServer(w, sh, master, e1.transcript);
      WroteFacts(e1, cs, e2);
      ClientWrote(s, t, e1, cs, e2);
    } else {
      assert s.toServer + [] == s.toServer;
    }
  }

  lemma ResumingStep(w: World, sh: Msg, session: Session, s: State, t: State)
    requires Honest(w) && sh.ServerHello? && w.session.Some? && w.session.value.1 == session
    requires session.vers == w.vers && session.suite == sh.suite && sh.suite in w.suites && sh.sessionId == w.sessionId
    requires sh.npn ==> w.clientNpn
    requires Resuming(w, sh, session, s) && Connected(s) && ClientMoves(w, s, t)
    ensures Connected(t) && ClientTail(w, sh, true, session.certificates, ResumedFirst(w, sh, session), t)
  {
    hide Linked, Contents, Plain, ClientKeys, TicketToClient;
    var rest := TicketToClient(w, sh, session.certificates, session.master, [Offer(w), sh]);
    var e := ClientTakes(w, s, t, sh, rest);
    assert [] + [Offer(w)] + [sh] == [Offer(w), sh];
    assert s.toServer + [] == s.toServer;
    TicketFirst(w, sh, session.certificates, session.master, [Offer(w), sh]);
    assert SameState(e.inn, t.client.inn);
    LinkedNext(s.server.inn, s.toServer, s.client.out, t.client.out);
  }

  // ----- Every run

  lemma FullHelloFacts(w: World)
    requires Honest(w) && FullSuite(w, Offer(w)).Some? && Resumption(w, Offer(w)) == None
    ensures var sh := ServerHelloOf(w);
            sh.sessionId == [] && (sh.npn ==> w.clientNpn) && sh.ocspStapling == (w.staple != [])
  {
  }

  lemma ResumeHelloFacts(w: World)
    requires Honest(w) && FullSuite(w, Offer(w)).Some? && Resumption(w, Offer(w)).Some?
    ensures var sh := ServerHelloOf(w);
            && w.session.Some? && w.session.value.1 == Resumption(w, Offer(w)).value.0
            && sh.sessionId == w.sessionId && sh.suite == w.session.value.1.suite && sh.suite in w.suites
            && w.session.value.1.vers == w.vers && (sh.npn ==> w.clientNpn)
  {
  }

  lemma FullClientStep(w: World, s: State, t: State)
    requires Honest(w) && FullSuite(w, Offer(w)).Some? && Resumption(w, Offer(w)) == None
    requires Full(w, s) && Connected(s) && ClientMoves(w, s, t)
    ensures Connected(t) && (Full(w, t) || (Refused(t) && !Succeeds(w)))
  {
    hide Expands, FullSuite, Resumption, ServerHelloOf, Connected, ClientMoves, ServerTail, ClientTail, Agree,
         Replying, Flight, Stapled, ClientAccepts, ServerAccepts, Stopped, Parting;
    var sh := ServerHelloOf(w);
    FullHelloFacts(w);
    if sh.ocspStapling {
      StapledStep(w, sh, s, t);
    } else if Flight(w, sh, s) {
      FlightStep(w, sh, s, t);
    } else if BothAccept(w, sh) && ClientTail(w, sh, false, ClientCerts(w), FullEnd(w, sh), s) {
      ClientTailStep(w, sh, false, ClientCerts(w), FullEnd(w, sh), s, t);
    } else {
      ClientIdle(w, sh, if BothAccept(w, sh) then FullReply(w, sh) else Words([], []), s, t);
    }
  }

  /** A client that waits for the server's last flight, or is done, does not move. */
  lemma ClientIdle(w: World, sh: Msg, x: Words, s: State, t: State)
    requires Honest(w) && sh.ServerHello?
    requires Replying(w, sh, s) || ServerTail(w, sh, false, ClientCerts(w), x, s) || Agree(w, s)
    ensures !ClientMoves(w, s, t)
  {
    hide Expands, Contents, Plain, ClientKeys;
  }

  lemma FullServerStep(w: World, s: State, t: State)
    requires Honest(w) && FullSuite(w, Offer(w)).Some? && Resumption(w, Offer(w)) == None
    requires Full(w, s) && Connected(s) && ServerMoves(w, s, t)
    ensures Connected(t) && (Full(w, t) || (Refused(t) && !Succeeds(w)))
  {
    hide Expands, FullSuite, Resumption, ServerHelloOf, Connected, ServerMoves, ServerTail, ClientTail, Agree,
         Replying, Flight, Stapled, BothAccept, Stopped, Parting;
    var sh := ServerHelloOf(w);
    FullHelloFacts(w);
    if Replying(w, sh, s) && !sh.ocspStapling {
      ReplyStep(w, sh, s, t);
    } else if BothAccept(w, sh) && ServerTail(w, sh, false, ClientCerts(w), FullReply(w, sh), s) && !sh.ocspStapling {
      ServerTailStep(w, sh, false, ClientCerts(w), FullReply(w, sh), s, t);
    } else {
      ServerIdle(w, sh, if BothAccept(w, sh) then FullEnd(w, sh) else Words([], []), s, t);
    }
  }

  lemma ServerIdle(w: World, sh: Msg, x: Words, s: State, t: State)
    requires Honest(w) && sh.ServerHello?
    requires Stapled(w, sh, s) || Flight(w, sh, s) || ClientTail(w, sh, false, ClientCerts(w), x, s) || Agree(w, s)
    ensures !ServerMoves(w, s, t)
  {
    hide Expands, Contents, Plain, ClientKeys, FlightRest;
  }

  lemma AbbreviatedStep(w: World, s: State, t: State)
    requires Honest(w) && FullSuite(w, Offer(w)).Some? && Resumption(w, Offer(w)).Some?
    requires Abbreviated(w, s) && Connected(s) && Steps(w, s, t)
    ensures Abbreviated(w, t) && Connected(t)
  {
    hide Expands, FullSuite, Resumption, ServerHelloOf, Connected, ServerMoves, ClientMoves, ServerTail, ClientTail,
         Agree, Resuming;
    var sh, session := ServerHelloOf(w), Resumption(w, Offer(w)).value.0;
    ResumeHelloFacts(w);
    var first := ResumedFirst(w, sh, session);
    AbbreviatedMover(w, sh, session, first, ResumedEnd(w, sh, session), s, t);
    if Resuming(w, sh, session, s) {
      ResumingStep(w, sh, session, s, t);
    } else if ClientTail(w, sh, true, session.certificates, first, s) {
      ClientTailStep(w, sh, true, session.certificates, first, s, t);
    } else {
      ServerTailStep(w, sh, true, session.certificates, ResumedEnd(w, sh, session), s, t);
    }
  }

  /** Only the side with something to read moves. */
  lemma AbbreviatedMover(w: World, sh: Msg, session: Session, x: Words, y: Words, s: State, t: State)
    requires Honest(w) && sh.ServerHello? && Steps(w, s, t)
    requires Resuming(w, sh, session, s) || ClientTail(w, sh, true, session.certificates, x, s)
             || ServerTail(w, sh, true, session.certificates, y, s) || Agree(w, s)
    ensures !Agree(w, s)
    ensures Resuming(w, sh, session, s) || ClientTail(w, sh, true, session.certificates, x, s) ==> ClientMoves(w, s, t)
    ensures ServerTail(w, sh, true, session.certificates, y, s) ==> ServerMoves(w, s, t)
  {
    hide Expands, Contents, Plain, ClientKeys, TicketToClient;
  }

  lemma InvStep(w: World, s: State, t: State)
    requires Honest(w) && Inv(w, s) && Steps(w, s, t)
    ensures Inv(w, t)
  {
    hide Full, Abbreviated, FullSuite, Resumption, Connected, Succeeds, Stopped, Parting;
    if Fresh(s) {
      OfferStep(w, s, t);
    } else if Offered(w, s) {
      OfferedMover(w, s, t);
      AnswerPhase(w, s, t);
    } else if Refused(s) && !Succeeds(w) {
      RefusedStep(w, s, t);
    } else if Resumption(w, Offer(w)).Some? {
      AbbreviatedStep(w, s, t);
    } else if ClientMoves(w, s, t) {
      FullClientStep(w, s, t);
    } else {
      FullServerStep(w, s, t);
    }
  }

  /** The server answers the client's hello: with a first flight, with a resumption, or not at all. */
  lemma AnswerPhase(w: World, s: State, t: State)
    requires Honest(w) && Offered(w, s) && Connected(s) && ServerMoves(w, s, t)
    ensures Connected(t) && Phase(w, t)
  {
    hide Offered, Connected, ServerMoves, FullSuite, Resumption, ServerHelloOf, Flight, Stapled, Resuming, Stopped,
         Parting,
         SessionAccepted, BothAccept;
    AnswerStep(w, s, t);
  }

  lemma StoppedIdle(w: World, s: State, t: State)
    requires Expands(w) && Stopped(s)
    ensures !Steps(w, s, t)
  {
  }

  lemma RefusedStep(w: World, s: State, t: State)
    requires Expands(w) && Refused(s) && Connected(s) && Steps(w, s, t)
    ensures Stopped(t) && Connected(t)
  {
    hide Stopped, Parting, Connected, Steps;
    if Stopped(s) {
      StoppedIdle(w, s, t);
    } else {
      PartingStep(w, s, t);
    }
  }

  /** The side that is left reads the last message, and then waits. */
  lemma PartingStep(w: World, s: State, t: State)
    requires Expands(w) && Parting(s) && Connected(s) && Steps(w, s, t)
    ensures Stopped(t) && Connected(t)
  {
    hide Expands, Linked, Contents, ClientKeys, Candidate, TakeClientHello;
    if s.cpc.AwaitHello? {
      var m := Contents(s.toClient)[0].m;
      assert Contents(s.toClient) == [Message(m)] + [];
      var e := ClientTakes(w, s, t, m, []);
      Nothing(t.toClient);
      assert t.toServer == [] + [] == [];
      assert SameState(e.inn, t.client.inn);
      LinkedNext(s.server.inn, s.toServer, s.client.out, t.client.out);
    } else {
      var m := Contents(s.toServer)[0].m;
      assert Contents(s.toServer) == [Message(m)] + [];
      var e := ServerTakes(w, s, t, m, []);
      Nothing(t.toServer);
      assert t.toClient == [] + [] == [];
      assert SameState(e.inn, t.server.inn);
    }
  }

  lemma OfferedMover(w: World, s: State, t: State)
    requires Expands(w) && Offered(w, s) && Steps(w, s, t)
    ensures ServerMoves(w, s, t)
  {
  }

  lemma {:induction false} Always(w: World, run: seq<State>)
    requires Honest(w) && Reachable(w, run)
    ensures Inv(w, run[|run| - 1])
    decreases |run|
  {
    hide Steps, Phase;
    if |run| == 1 {
      InitInv(w);
    } else {
      var before := run[..|run| - 1];
      forall i | 0 <= i < |before| - 1 ensures Steps(w, before[i], before[i + 1]) {
        assert Steps(w, run[i], run[i + 1]);
      }
      Always(w, before);
      assert Steps(w, run[|run| - 2], run[|run| - 2 + 1]);
      InvStep(w, run[|run| - 2], run[|run| - 1]);
    }
  }

  lemma InitInv(w: World)
    requires Honest(w)
    ensures Inv(w, Init())
  {
  }

  // ----- What a side asks for is what comes next

  /** A side that waits for ChangeCipherSpec is the side for which one comes next, and it has prepared these keys. */
  predicate Asked(c: Content, change: bool, next: Option<Keys>) {
    match c
    case Message(_) => !change
    case ChangeCipherSpec(to) => change && next == Some(to)
  }

  /** The client is neither before its hello nor done, and waits for what comes. */
  predicate ClientReady(s: State) {
    Contents(s.toClient) != [] && !s.cpc.ClientFailed? ==>
      && !s.cpc.Start? && !s.cpc.ClientDone?
      && Asked(Contents(s.toClient)[0], s.cpc.AwaitServerChange?, s.client.inn.next)
      && (Contents(s.toClient)[0].Message? ==> Later(Contents(s.toClient)[0]))
  }

  lemma ClientAsked(w: World, s: State)
    requires Honest(w) && Inv(w, s)
    ensures ClientReady(s)
  {
    hide Expands, Connected, FullSuite, Resumption, ServerHelloOf, Succeeds, BothAccept, SessionAccepted, Plain,
         ClientKeys, Contents, Fresh, Offered, Stapled, Flight, Replying, ServerTail, ClientTail, Resuming, Agree,
         Stopped, Parting, ClientReady;
    var sh := if FullSuite(w, Offer(w)).Some? then ServerHelloOf(w) else Offer(w);
    ClientAskedEarly(w, s);
    if FullSuite(w, Offer(w)).Some? {
      ClientAskedFull(w, sh, s);
      if BothAccept(w, sh) {
        ClientAskedTail(w, sh, false, ClientCerts(w), FullReply(w, sh), s);
        ClientAskedTail(w, sh, false, ClientCerts(w), FullEnd(w, sh), s);
      }
      if Resumption(w, Offer(w)).Some? {
        var session := Resumption(w, Offer(w)).value.0;
        ClientAskedTail(w, sh, true, session.certificates, ResumedFirst(w, sh, session), s);
        ClientAskedTail(w, sh, true, session.certificates, ResumedEnd(w, sh, session), s);
        ClientAskedResuming(w, sh, Resumption(w, Offer(w)).value.0, s);
      }
    }
  }

  lemma ClientAskedEarly(w: World, s: State)
    requires Expands(w)
    ensures Fresh(s) || Offered(w, s) || Stopped(s) || Parting(s) || Agree(w, s) ==> ClientReady(s)
  {
    hide Expands, ClientKeys;
  }

  lemma ClientAskedFull(w: World, sh: Msg, s: State)
    requires Expands(w) && sh.ServerHello?
    ensures Stapled(w, sh, s) || Flight(w, sh, s) || Replying(w, sh, s) ==> ClientReady(s)
  {
    hide Expands, ClientKeys, Plain, KeyToServer, CertificateToServer, VerifyToServer, FlightRest, Contents;
    if Stapled(w, sh, s) && Contents(s.toClient) != [] {
      assert Contents(s.toClient)[0] in Contents(s.toClient);
    } else if Flight(w, sh, s) {
      FlightHead(w, sh, s);
    } else if Replying(w, sh, s) {
      assert Contents([]) == [];
    }
  }

  lemma ClientAskedTail(w: World, sh: Msg, resume: bool, certs: seq<Data>, x: Words, s: State)
    requires Expands(w) && sh.ServerHello?
    ensures ServerTail(w, sh, resume, certs, x, s) || ClientTail(w, sh, resume, certs, x, s) ==> ClientReady(s)
  {
    hide Expands, ClientKeys, Plain;
  }

  lemma ClientAskedResuming(w: World, sh: Msg, session: Session, s: State)
    requires Expands(w) && sh.ServerHello?
    ensures Resuming(w, sh, session, s) ==> ClientReady(s)
  {
    hide Expands, ClientKeys, Plain, TicketToClient;
  }

  /** The server is not done and waits for what comes; the offer comes first and only then. */
  predicate ServerReady(s: State) {
    Contents(s.toServer) != [] && !s.spc.ServerFailed? ==>
      && !s.spc.ServerDone?
      && Asked(Contents(s.toServer)[0], s.spc.AwaitClientChange?, s.server.inn.next)
      && (Contents(s.toServer)[0].Message? ==> (Later(Contents(s.toServer)[0]) <==> !s.spc.AwaitClientHello?))
      && (s.spc.AwaitClientHello? ==> Contents(s.toServer)[0].Message?)
  }

  lemma ServerAsked(w: World, s: State)
    requires Honest(w) && Inv(w, s)
    ensures ServerReady(s)
  {
    hide Expands, Connected, FullSuite, Resumption, ServerHelloOf, Succeeds, BothAccept, SessionAccepted, Plain,
         ClientKeys, Contents, Fresh, Offered, Stapled, Flight, Replying, ServerTail, ClientTail, Resuming, Agree,
         Stopped, Parting, ServerReady;
    var sh := if FullSuite(w, Offer(w)).Some? then ServerHelloOf(w) else Offer(w);
    ServerAskedEarly(w, s);
    if FullSuite(w, Offer(w)).Some? {
      ServerAskedFull(w, sh, s);
      if BothAccept(w, sh) {
        ServerAskedTail(w, sh, false, ClientCerts(w), FullReply(w, sh), s);
        ServerAskedTail(w, sh, false, ClientCerts(w), FullEnd(w, sh), s);
      }
      if Resumption(w, Offer(w)).Some? {
        var session := Resumption(w, Offer(w)).value.0;
        ServerAskedTail(w, sh, true, session.certificates, ResumedFirst(w, sh, session), s);
        ServerAskedTail(w, sh, true, session.certificates, ResumedEnd(w, sh, session), s);
        ServerAskedResuming(w, sh, Resumption(w, Offer(w)).value.0, s);
      }
    }
  }

  lemma ServerAskedEarly(w: World, s: State)
    requires Expands(w)
    ensures Fresh(s) || Offered(w, s) || Stopped(s) || Parting(s) || Agree(w, s) ==> ServerReady(s)
  {
    hide Expands, ClientKeys;
  }

  lemma ServerAskedFull(w: World, sh: Msg, s: State)
    requires Expands(w) && sh.ServerHello?
    ensures Stapled(w, sh, s) || Flight(w, sh, s) || Replying(w, sh, s) ==> ServerReady(s)
  {
    hide Expands, ClientKeys, Plain, VerifyToServer, ChangeToServer, FirstToClient, FlightRest;
    if Replying(w, sh, s) {
      ReplyFirst(w, sh, s);
    }
  }

  lemma ReplyFirst(w: World, sh: Msg, s: State)
    requires Expands(w) && sh.ServerHello? && Replying(w, sh, s)
    ensures Contents(s.toServer) != [] && Later(Contents(s.toServer)[0])
  {
    hide Expands, ClientKeys, Plain, ChangeToServer, FirstFlightTranscript;
  }

  lemma ServerAskedTail(w: World, sh: Msg, resume: bool, certs: seq<Data>, x: Words, s: State)
    requires Expands(w) && sh.ServerHello?
    ensures ServerTail(w, sh, resume, certs, x, s) || ClientTail(w, sh, resume, certs, x, s) ==> ServerReady(s)
  {
    hide Expands, ClientKeys, Plain;
  }

  lemma ServerAskedResuming(w: World, sh: Msg, session: Session, s: State)
    requires Expands(w) && sh.ServerHello?
    ensures Resuming(w, sh, session, s) ==> ServerReady(s)
  {
    hide Expands, ClientKeys, Plain, TicketToClient;
  }

  // ----- What it comes to

  /** Whatever lies in a queue is read under the keys and from the sequence number it was sealed with. */
  lemma ReadAsSealed(w: World, run: seq<State>)
    requires Honest(w) && Reachable(w, run)
    ensures var s := run[|run| - 1];
            && (s.toClient != [] ==>
                 s.toClient[0].keys == s.client.inn.keys && s.toClient[0].seqNo == s.client.inn.seqNo)
            && (s.toServer != [] ==>
                 s.toServer[0].keys == s.server.inn.keys && s.toServer[0].seqNo == s.server.inn.seqNo)
  {
    hide Phase;
    Always(w, run);
  }

  /** When both sides are done they agree on everything, and that happens only where `Succeeds` says so. */
  lemma DoneMeansAgreed(w: World, run: seq<State>)
    requires Honest(w) && Reachable(w, run)
    requires run[|run| - 1].cpc.ClientDone? && run[|run| - 1].spc.ServerDone?
    ensures Agree(w, run[|run| - 1]) && Succeeds(w)
    ensures run[|run| - 1].cpc.resume == Resumption(w, Offer(w)).Some?
  {
    var s := run[|run| - 1];
    Always(w, run);
    DoneIsAgreed(w, s);
  }

  lemma DoneIsAgreed(w: World, s: State)
    requires Honest(w) && Phase(w, s) && s.cpc.ClientDone? && s.spc.ServerDone?
    ensures Agree(w, s) && Succeeds(w) && s.cpc.resume == Resumption(w, Offer(w)).Some?
  {
    hide Expands, Contents, Plain, ClientKeys, FlightRest, TicketToClient, FullSuite, Resumption, ServerHelloOf,
         AfterHello, AfterFlight, BothAccept, SessionAccepted;
    if FullSuite(w, Offer(w)).Some? && Resumption(w, Offer(w)) == None {
      FullHelloFacts(w);
    }
  }

  /** Some side has a step to take. */
  predicate CanMove(w: World, s: State)
    requires Expands(w)
  {
    || (ClientPcOk(s.cpc) && ClientStep(w, s.cpc, s.client, s.toClient).Some?)
    || (ServerPcOk(s.spc) && ServerStep(w, s.spc, s.server, s.toServer).Some?)
  }

  lemma NotStuck(w: World, s: State)
    requires Honest(w) && Inv(w, s) && Succeeds(w)
    ensures s.cpc != ClientFailed && s.spc != ServerFailed
    ensures Agree(w, s) || CanMove(w, s)
  {
    hide Expands, Connected, FullSuite, Resumption, ServerHelloOf, Fresh, Offered, Flight, Replying, ServerTail,
         ClientTail, Resuming, Agree, CanMove, BothAccept, SessionAccepted, Stopped, Parting;
    if Resumption(w, Offer(w)) == None {
      FullHelloFacts(w);
    }
    var sh := ServerHelloOf(w);
    EarlyMoves(w, sh, s);
    if BothAccept(w, sh) {
      TailMoves(w, sh, false, ClientCerts(w), FullReply(w, sh), s);
      TailMoves(w, sh, false, ClientCerts(w), FullEnd(w, sh), s);
    }
    if Resumption(w, Offer(w)).Some? {
      var session := Resumption(w, Offer(w)).value.0;
      TailMoves(w, sh, true, session.certificates, ResumedFirst(w, sh, session), s);
      TailMoves(w, sh, true, session.certificates, ResumedEnd(w, sh, session), s);
      ResumingMoves(w, sh, Resumption(w, Offer(w)).value.0, s);
    }
    AgreedNotFailed(w, s);
  }

  predicate Alive(s: State) {
    s.cpc != ClientFailed && s.spc != ServerFailed
  }

  lemma AgreedNotFailed(w: World, s: State)
    requires Expands(w)
    ensures Agree(w, s) ==> Alive(s)
  {
  }

  lemma EarlyMoves(w: World, sh: Msg, s: State)
    requires Honest(w) && sh.ServerHello?
    ensures Fresh(s) || Offered(w, s) || Flight(w, sh, s) || Replying(w, sh, s) ==> CanMove(w, s) && Alive(s)
  {
    hide Plain, ClientKeys, FirstToClient, ClientTake, ServerTake, StatusToClient, VerifyToServer, ChangeToServer,
         CanMove;
    MovesIf(w, s);
    if Flight(w, sh, s) {
      FlightHead(w, sh, s);
    } else if Replying(w, sh, s) {
      ReplyHead(w, sh, s);
    }
  }

  lemma TailMoves(w: World, sh: Msg, resume: bool, certs: seq<Data>, x: Words, s: State)
    requires Honest(w) && sh.ServerHello?
    ensures ServerTail(w, sh, resume, certs, x, s) || ClientTail(w, sh, resume, certs, x, s) ==>
              CanMove(w, s) && Alive(s)
  {
    hide Plain, ClientKeys, ClientTake, ServerTake, CanMove;
    MovesIf(w, s);
  }

  lemma ResumingMoves(w: World, sh: Msg, session: Session, s: State)
    requires Honest(w) && sh.ServerHello?
    ensures Resuming(w, sh, session, s) ==> CanMove(w, s) && Alive(s)
  {
    hide Plain, ClientKeys, ClientTake, ServerTake, CanMove, TicketToClient;
    MovesIf(w, s);
  }

  /** A side moves when it has something to do and something to read. */
  lemma MovesIf(w: World, s: State)
    requires Expands(w)
    ensures s.cpc == Start ==> CanMove(w, s)
    ensures ClientPcOk(s.cpc) && !s.cpc.ClientDone? && s.cpc != ClientFailed && Contents(s.toClient) != [] ==>
            CanMove(w, s)
    ensures ServerPcOk(s.spc) && !s.spc.ServerDone? && s.spc != ServerFailed && Contents(s.toServer) != [] ==>
            CanMove(w, s)
  {
    hide ClientTake, ServerTake;
  }

  /**
   A run that can go no further has completed on both sides, with one transcript, one secret and
   matching keys, exactly where `Succeeds` says so.
   */
  lemma Completes(w: World, run: seq<State>)
    requires Honest(w) && Reachable(w, run) && !CanMove(w, run[|run| - 1])
    ensures Agree(w, run[|run| - 1]) <==> Succeeds(w)
  {
    hide Succeeds, CanMove, Phase;
    Always(w, run);
    if Succeeds(w) {
      NotStuck(w, run[|run| - 1]);
    } else if Agree(w, run[|run| - 1]) {
      DoneIsAgreed(w, run[|run| - 1]);
    }
  }

  function ClientRank(pc: ClientPc): nat {
    match pc
    case Start => 11
    case AwaitHello => 10
    case AwaitCertificate(_) => 9
    case AwaitAfterCertificate(_) => 8
    case AwaitStatus(_) => 7
    case AwaitAfterKey(_, _) => 6
    case AwaitAfterRequest(_, _) => 5
    case AwaitTicket(_, _) => 4
    case AwaitServerChange(_, _) => 3
    case AwaitServerFinished(_, _) => 2
    case _ => 0
  }

  function ServerRank(pc: ServerPc): nat {
    match pc
    case AwaitClientHello => 8
    case AwaitClientCertificate(_, _) => 7
    case AwaitClientKey(_, _, _) => 6
    case AwaitVerify(_, _, _) => 5
    case AwaitClientChange(_, _, _) => 4
    case AwaitNextProtocol(_, _, _) => 3
    case AwaitClientFinished(_, _, _) => 2
    case _ => 0
  }

  lemma ClientAdvances(w: World, pc: ClientPc, e: End, incoming: seq<Packet>)
    requires Expands(w) && ClientPcOk(pc)
    ensures var r := ClientStep(w, pc, e, incoming); r.Some? ==> ClientRank(r.value.0) < ClientRank(pc)
  {
    hide Expands, SecondFlight, ClientFinish, ClientEstablish, Say, Hash, Receive, ClientPcOk;
  }

  lemma ServerAdvances(w: World, pc: ServerPc, e: End, incoming: seq<Packet>)
    requires Expands(w) && ServerPcOk(pc)
    ensures var r := ServerStep(w, pc, e, incoming); r.Some? ==> ServerRank(r.value.0) < ServerRank(pc)
  {
    hide Expands, FirstFlight, ServerFinish, ServerEstablish, Say, FullSuite, Resumption;
  }

  /** No run, with whatever parameters, takes more than nineteen steps. */
  lemma {:induction false} Ends(w: World, run: seq<State>)
    requires Expands(w) && Reachable(w, run)
    ensures |run| - 1 + ClientRank(run[|run| - 1].cpc) + ServerRank(run[|run| - 1].spc) <= 19
    decreases |run|
  {
    hide ClientStep, ServerStep, ClientRank, ServerRank;
    if |run| == 1 {
      RankOfInit();
    } else {
      var before := run[..|run| - 1];
      forall i | 0 <= i < |before| - 1 ensures Steps(w, before[i], before[i + 1]) {
        assert Steps(w, run[i], run[i + 1]);
      }
      Ends(w, before);
      var s := run[|run| - 2];
      assert Steps(w, s, run[|run| - 2 + 1]);
      if ClientMoves(w, s, run[|run| - 1]) {
        ClientAdvances(w, s.cpc, s.client, s.toClient);
      } else {
        ServerAdvances(w, s.spc, s.server, s.toServer);
      }
    }
  }

  lemma RankOfInit()
    ensures ClientRank(Init().cpc) + ServerRank(Init().spc) == 19
  {
  }

  /** The client reads the stapled status from the wrong message: with a staple no full handshake completes. */
  lemma StapledNeverDone(w: World, run: seq<State>)
    requires Honest(w) && Reachable(w, run)
    requires w.staple != [] && Resumption(w, Offer(w)) == None
    ensures !run[|run| - 1].cpc.ClientDone? && !run[|run| - 1].spc.ServerDone?
  {
    Always(w, run);
    if FullSuite(w, Offer(w)).Some? {
      FullHelloFacts(w);
    }
  }
}
