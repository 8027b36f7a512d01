/**
 The TLS handshake between this package's client and server:
 internal/tls_hack/handshake_client.go and handshake_server.go, RFC 5246 section 7.3.

 Each side is a program that blocks only when it reads. What it does from one read
 to the next is one step; records wait in two queues, one for each direction, and a record
 opens only under the keys and the sequence number it was sealed with.
 Cryptography, certificates and configuration are parameters of a run.
 */
module Handshake {
  import opened Bytes

  type Data = seq<byte>

  datatype Session = Session(vers: nat, suite: nat, master: Data, certificates: seq<Data>)

  datatype Msg =
    | ClientHello(random: Data, sessionId: Data, suites: seq<nat>, npn: bool, alpn: bool, ticketSupported: bool,
        ticket: Data)
    | ServerHello(random: Data, sessionId: Data, suite: nat, ocspStapling: bool, ticketSupported: bool, npn: bool)
    | Certificate(certificates: seq<Data>)
    | CertificateStatus(response: Data)
    | ServerKeyExchange(key: Data)
    | CertificateRequest
    | ServerHelloDone
    | ClientKeyExchange(ciphertext: Data)
    | CertificateVerify(signature: Data)
    | NewSessionTicket(ticket: Data)
    | NextProtocol(proto: Data)
    | Finished(verifyData: Data)

  /** What client and server bring into a run. */
  datatype World = World(
    vers: nat,
    // cipher suites and the PRF
    noCerts: nat -> bool,
    lengths: nat -> (nat, nat, nat),
    masterOf: (Data, Data, Data) -> Data,
    expand: (Data, Data, nat) -> Data,
    clientSum: (Data, seq<Msg>) -> Data,
    serverSum: (Data, seq<Msg>) -> Data,
    sign: seq<Msg> -> Data,
    verifies: (Data, seq<Msg>) -> bool,
    records: Msg -> nat,
    // the client
    clientRandom: Data,
    sessionId: Data,
    suites: seq<nat>,
    clientNpn: bool,
    clientAlpn: bool,
    clientTickets: bool,
    session: Option<(Data, Session)>,
    trustsServer: seq<Data> -> bool,
    clientChain: seq<Data>,
    takesKey: Data -> bool,
    respond: Option<Data> -> Option<(Data, Data)>,
    proto: Data,
    // the server
    serverRandom: Data,
    choose: seq<nat> -> Option<nat>,
    supports: nat -> bool,
    serverChain: seq<Data>,
    staple: Data,
    serverNpn: bool,
    serverTickets: bool,
    opens: Data -> Option<(Session, bool)>,
    seal: Session -> Data,
    requestsCert: bool,
    requiresCert: bool,
    trustsClient: seq<Data> -> bool,
    skx: Option<Data>,
    accept: Data -> Option<Data>)

  // ----- Keys

  datatype Keys = Keys(mac: Data, key: Data, iv: Data)

  /** keysFromMasterSecret: client keys and server keys, cut from one block. */
  function KeysFromMasterSecret(w: World, suite: nat, master: Data, clientRandom: Data, serverRandom: Data)
    : (Keys, Keys)
    requires Expands(w)
  {
    var (macLen, keyLen, ivLen) := w.lengths(suite);
    var material := w.expand(master, serverRandom + clientRandom, 2 * macLen + 2 * keyLen + 2 * ivLen);
    var afterMacs := material[2 * macLen..];
    var afterKeys := afterMacs[2 * keyLen..];
    (Keys(material[..macLen], afterMacs[..keyLen], afterKeys[..ivLen]),
     Keys(material[macLen..2 * macLen], afterMacs[keyLen..2 * keyLen], afterKeys[ivLen..2 * ivLen]))
  }

  ghost predicate Expands(w: World) {
    forall master, seed, n: nat :: |w.expand(master, seed, n)| == n
  }

  /** Nothing of the key block is lost or used twice. */
  lemma KeysPartition(w: World, suite: nat, master: Data, clientRandom: Data, serverRandom: Data)
    requires Expands(w)
    ensures var (c, s) := KeysFromMasterSecret(w, suite, master, clientRandom, serverRandom);
            var (macLen, keyLen, ivLen) := w.lengths(suite);
            && |c.mac| == |s.mac| == macLen && |c.key| == |s.key| == keyLen && |c.iv| == |s.iv| == ivLen
            && c.mac + s.mac + c.key + s.key + c.iv + s.iv
               == w.expand(master, serverRandom + clientRandom, 2 * macLen + 2 * keyLen + 2 * ivLen)
  {
    var (macLen, keyLen, ivLen) := w.lengths(suite);
    SixPieces(w.expand(master, serverRandom + clientRandom, 2 * macLen + 2 * keyLen + 2 * ivLen), macLen, keyLen,
        ivLen);
  }

  lemma TwoPieces(s: Data, k: nat)
    requires |s| >= 2 * k
    ensures s == s[..k] + s[k..2 * k] + s[2 * k..]
  {
  }

  lemma SixPieces(s: Data, m: nat, k: nat, i: nat)
    requires |s| == 2 * m + 2 * k + 2 * i
    ensures var a := s[2 * m..];
            var b := a[2 * k..];
            s[..m] + s[m..2 * m] + a[..k] + a[k..2 * k] + b[..i] + b[i..2 * i] == s
  {
    var a := s[2 * m..];
    var b := a[2 * k..];
    TwoPieces(s, m);
    TwoPieces(a, k);
    Halves(b, i);
    Associate(s[..m] + s[m..2 * m], a[..k] + a[k..2 * k], b[..i], b[i..2 * i]);
    Associate(s[..m] + s[m..2 * m], a[..k], a[k..2 * k], []);
  }

  lemma Halves(s: Data, i: nat)
    requires |s| == 2 * i
    ensures s == s[..i] + s[i..2 * i]
  {
  }

  lemma Associate(p: Data, q: Data, x: Data, y: Data)
    ensures p + (q + (x + y)) == p + q + x + y
  {
  }

  // ----- The ends of a connection

  /** One direction: halfConn with its sequence number and the keys that changeCipherSpec will switch to. */
  datatype Half = Half(keys: Option<Keys>, seqNo: nat, next: Option<Keys>)

  datatype Content = Message(m: Msg) | ChangeCipherSpec(to: Keys)

  /** What one writeRecord call leaves: a message in one or more records, sealed under `keys` from `seqNo` on. */
  datatype Packet = Packet(content: Content, records: nat, keys: Option<Keys>, seqNo: nat)

  datatype End = End(out: Half, inn: Half, transcript: seq<Msg>, master: Data, sendBuf: seq<Packet>)

  /** finishedHash.Write */
  function Hash(e: End, m: Msg): End {
    e.(transcript := e.transcript + [m])
  }

  /** Hash a message and write it. */
  function Say(w: World, e: End, m: Msg): End {
    var p := Packet(Message(m), w.records(m), e.out.keys, e.out.seqNo);
    Hash(e, m).(out := e.out.(seqNo := e.out.seqNo + w.records(m)), sendBuf := e.sendBuf + [p])
  }

  function SayIf(w: World, cond: bool, e: End, m: Msg): End {
    if cond then Say(w, e, m) else e
  }

  /** writeRecord for changeCipherSpec, once keys are prepared. */
  function Change(e: End): End
    requires e.out.next.Some?
  {
    var p := Packet(ChangeCipherSpec(e.out.next.value), 1, e.out.keys, e.out.seqNo);
    e.(out := Half(Some(e.out.next.value), 0, None), sendBuf := e.sendBuf + [p])
  }

  datatype Read = Blocked | Bad | Got(content: Content, e: End)

  /** The next packet, opened: it must be sealed under the keys and number this end expects. */
  function Receive(e: End, incoming: seq<Packet>): Read {
    if incoming == [] then Blocked
    else
      var p := incoming[0];
      if p.keys != e.inn.keys || p.seqNo != e.inn.seqNo then Bad
      else
        match p.content
        case Message(_) => Got(p.content, e.(inn := e.inn.(seqNo := e.inn.seqNo + p.records)))
        case ChangeCipherSpec(_) =>
          if e.inn.next == None then Bad else Got(p.content, e.(inn := Half(e.inn.next, 0, None)))
  }

  /** establishKeys, with what this end writes first. */
  function Establish(e: End, write: Keys, read: Keys): End {
    e.(out := e.out.(next := Some(write)), inn := e.inn.(next := Some(read)))
  }

  // ----- The client

  datatype ClientPc =
    | Start
    | AwaitHello
    | AwaitCertificate(sh: Msg)
    | AwaitAfterCertificate(sh: Msg)
    | AwaitStatus(sh: Msg)
    | AwaitAfterKey(sh: Msg, key: Data)
    | AwaitAfterRequest(sh: Msg, skx: Option<Data>)
    | AwaitTicket(sh: Msg, resume: bool)
    | AwaitServerChange(sh: Msg, resume: bool)
    | AwaitServerFinished(sh: Msg, resume: bool)
    | ClientDone(sh: Msg, resume: bool)
    | ClientFailed

  function Hello(w: World): Msg {
    ClientHello(w.clientRandom, if w.session.Some? then w.sessionId
        else [], w.suites, w.clientNpn, w.clientAlpn, w.clientTickets,
                if w.session.Some? then w.session.value.0 else [])
  }

  function ClientKeys(w: World, sh: Msg, master: Data): (Keys, Keys)
    requires Expands(w) && sh.ServerHello?
  {
    KeysFromMasterSecret(w, sh.suite, master, w.clientRandom, sh.random)
  }

  function ClientEstablish(w: World, sh: Msg, e: End): End
    requires Expands(w) && sh.ServerHello?
  {
    var (c, s) := ClientKeys(w, sh, e.master);
    Establish(e, c, s)
  }

  function ClientFinish(w: World, sh: Msg, e: End): End
    requires sh.ServerHello? && e.out.next.Some?
  {
    var e1 := SayIf(w, sh.npn, Change(e), NextProtocol(w.proto));
    Say(w, e1, Finished(w.clientSum(e1.master, e1.transcript)))
  }

  function AfterFlight(sh: Msg, resume: bool): ClientPc
    requires sh.ServerHello?
  {
    if sh.ticketSupported then AwaitTicket(sh, resume) else AwaitServerChange(sh, resume)
  }

  /** processServerHello and what surrounds it. */
  function TakeServerHello(w: World, m: Msg, e: End): (ClientPc, End)
    requires Expands(w)
  {
    if !m.ServerHello? || m.suite !in w.suites || (m.npn && !w.clientNpn) then (ClientFailed, e)
    else
      var e1 := Hash(Hash(e, Hello(w)), m);
      if w.session == None || m.sessionId != w.sessionId then (AwaitCertificate(m), e1)
      else
        var session := w.session.value.1;
        if session.vers != w.vers || session.suite != m.suite then (ClientFailed, e)
        else (AfterFlight(m, true), ClientEstablish(w, m, e1.(master := session.master)))
  }

  /** doFullHandshake from the first message on. */
  function TakeCertificate(w: World, sh: Msg, m: Msg, e: End): (ClientPc, End)
    requires Expands(w) && sh.ServerHello?
  {
    if m.Certificate? then
      if m.certificates == [] || !w.trustsServer(m.certificates) then (ClientFailed, e)
      else (AwaitAfterCertificate(sh), Hash(e, m))
    else if !w.noCerts(sh.suite) then (ClientFailed, e)
    else TakeStatus(w, sh, m, e)
  }

  function TakeStatus(w: World, sh: Msg, m: Msg, e: End): (ClientPc, End)
    requires Expands(w) && sh.ServerHello?
  {
    // a stapled status is not taken from `m` but from yet another message
    if sh.ocspStapling then (AwaitStatus(sh), e) else TakeKey(w, sh, m, e)
  }

  function TakeKey(w: World, sh: Msg, m: Msg, e: End): (ClientPc, End)
    requires Expands(w) && sh.ServerHello?
  {
    if m.ServerKeyExchange? then
      if !w.takesKey(m.key) then (ClientFailed, e) else (AwaitAfterKey(sh, m.key), Hash(e, m))
    else TakeRequest(w, sh, None, m, e)
  }

  function TakeRequest(w: World, sh: Msg, skx: Option<Data>, m: Msg, e: End): (ClientPc, End)
    requires Expands(w) && sh.ServerHello?
  {
    if m.CertificateRequest? then (AwaitAfterRequest(sh, skx), Hash(e, m)) else TakeDone(w, sh, skx, false, m, e)
  }

  function TakeDone(w: World, sh: Msg, skx: Option<Data>, certRequested: bool, m: Msg, e: End): (ClientPc, End)
    requires Expands(w) && sh.ServerHello?
  {
    if !m.ServerHelloDone? then (ClientFailed, e)
    else if w.respond(skx) == None then
      // what is in the buffer by then is still sent
      (ClientFailed, SayIf(w, certRequested, Hash(e, m), Certificate(w.clientChain)))
    else (AfterFlight(sh, false), SecondFlight(w, sh, w.respond(skx).value, certRequested, Hash(e, m)))
  }

  /** Certificate, ClientKeyExchange, CertificateVerify, ChangeCipherSpec, Finished. */
  function SecondFlight(w: World, sh: Msg, agreed: (Data, Data), certRequested: bool, e: End): End
    requires Expands(w) && sh.ServerHello?
  {
    var e1 := SayIf(w, certRequested, e, Certificate(w.clientChain));
    var e2 := Say(w, e1, ClientKeyExchange(agreed.1));
    var e3 := SayIf(w, certRequested && w.clientChain != [], e2, CertificateVerify(w.sign(e2.transcript)));
    var e4 := e3.(master := w.masterOf(agreed.0, w.clientRandom, sh.random));
    ClientFinish(w, sh, ClientEstablish(w, sh, e4))
  }

  function TakeFinished(w: World, sh: Msg, resume: bool, m: Msg, e: End): (ClientPc, End)
    requires Expands(w) && sh.ServerHello?
  {
    if !m.Finished? || m.verifyData != w.serverSum(e.master, e.transcript) then (ClientFailed, e)
    else if !resume then (ClientDone(sh, resume), Hash(e, m))
    else if e.out.next == None then (ClientFailed, e)
    else (ClientDone(sh, resume), ClientFinish(w, sh, Hash(e, m)))
  }

  predicate ClientPcOk(pc: ClientPc) {
    match pc
    case Start => true
    case AwaitHello => true
    case ClientFailed => true
    case _ => pc.sh.ServerHello?
  }

  /** What the client does with a message it was waiting for. */
  function ClientTake(w: World, pc: ClientPc, m: Msg, e: End): (ClientPc, End)
    requires Expands(w) && ClientPcOk(pc)
  {
    match pc
    case AwaitHello => TakeServerHello(w, m, e)
    case AwaitCertificate(sh) => TakeCertificate(w, sh, m, e)
    case AwaitAfterCertificate(sh) => TakeStatus(w, sh, m, e)
    case AwaitStatus(sh) => if m.CertificateStatus? then TakeRequest(w, sh, None, m, Hash(e, m)) else (ClientFailed, e)
    case AwaitAfterKey(sh, key) => TakeRequest(w, sh, Some(key), m, e)
    case AwaitAfterRequest(sh, skx) => TakeDone(w, sh, skx, true, m, e)
    case AwaitTicket(sh, resume) =>
      if m.NewSessionTicket? then (AwaitServerChange(sh, resume), Hash(e, m)) else (ClientFailed, e)
    case AwaitServerFinished(sh, resume) => TakeFinished(w, sh, resume, m, e)
    case _ => (ClientFailed, e)   // a message where ChangeCipherSpec is expected
  }

  /** A step of the client: where it is then, and its end, whose sendBuf leaves for the network. */
  function ClientStep(w: World, pc: ClientPc, e: End, incoming: seq<Packet>): Option<(ClientPc, End)>
    requires Expands(w) && ClientPcOk(pc)
  {
    if pc.ClientDone? || pc.ClientFailed? then None
    else if pc.Start? then
      var sent := Say(w, e, Hello(w));
      Some((AwaitHello, sent.(transcript := [])))   // hashed once the version is known
    else
      match Receive(e, incoming)
      case Blocked => None
      case Bad => Some((ClientFailed, e))
      case Got(Message(m), e') => Some(ClientTake(w, pc, m, e'))
      case Got(ChangeCipherSpec(_), e') =>
        if pc.AwaitServerChange? then Some((AwaitServerFinished(pc.sh, pc.resume), e')) else Some((ClientFailed, e'))
  }

  // ----- The server

  datatype ServerPc =
    | AwaitClientHello
    | AwaitClientCertificate(hello: Msg, clientRandom: Data)
    | AwaitClientKey(hello: Msg, clientRandom: Data, certificates: seq<Data>)
    | AwaitVerify(hello: Msg, clientRandom: Data, certificates: seq<Data>)
    | AwaitClientChange(hello: Msg, resume: bool, certificates: seq<Data>)
    | AwaitNextProtocol(hello: Msg, resume: bool, certificates: seq<Data>)
    | AwaitClientFinished(hello: Msg, resume: bool, certificates: seq<Data>)
    | ServerDone(hello: Msg, resume: bool)
    | ServerFailed

  /** checkForResumption up to the point where it settles the cipher suite. */
  function Candidate(w: World, ch: Msg): Option<(Session, bool)>
    requires ch.ClientHello?
  {
    if !w.serverTickets || w.opens(ch.ticket) == None then None
    else
      var (session, usedOldKey) := w.opens(ch.ticket).value;
      if session.vers != w.vers || session.suite !in ch.suites || !w.supports(session.suite) then None
      else Some((session, usedOldKey))
  }

  function Resumption(w: World, ch: Msg): Option<(Session, bool)>
    requires ch.ClientHello?
  {
    var candidate := Candidate(w, ch);
    if candidate == None then None
    else
      var certs := candidate.value.0.certificates;
      if w.requiresCert && certs == [] then None
      else if certs != [] && !w.requestsCert then None
      else candidate
  }

  /** The suite a full handshake uses; a session that was tried and rejected late has already set it. */
  function FullSuite(w: World, ch: Msg): Option<nat>
    requires ch.ClientHello?
  {
    if w.choose(ch.suites) == None then None
    else if Candidate(w, ch).Some? then Some(Candidate(w, ch).value.0.suite)
    else w.choose(ch.suites)
  }

  function ServerNpn(w: World, ch: Msg): bool
    requires ch.ClientHello?
  {
    !ch.alpn && ch.npn && w.serverNpn
  }

  function ResumeHello(w: World, ch: Msg, session: Session, usedOldKey: bool): (sh: Msg)
    requires ch.ClientHello?
    ensures sh.ServerHello?
  {
    ServerHello(w.serverRandom, ch.sessionId, session.suite, false, usedOldKey, ServerNpn(w, ch))
  }

  function FullHello(w: World, ch: Msg, suite: nat): (sh: Msg)
    requires ch.ClientHello?
    ensures sh.ServerHello?
  {
    ServerHello(w.serverRandom, [], suite, w.staple != [], ch.ticketSupported && w.serverTickets, ServerNpn(w, ch))
  }

  function ServerEstablish(w: World, sh: Msg, clientRandom: Data, e: End): End
    requires Expands(w) && sh.ServerHello?
  {
    var (c, s) := KeysFromMasterSecret(w, sh.suite, e.master, clientRandom, sh.random);
    Establish(e, s, c)
  }

  /** sendSessionTicket and sendFinished */
  function ServerFinish(w: World, sh: Msg, certificates: seq<Data>, e: End): End
    requires sh.ServerHello? && e.out.next.Some?
  {
    var ticket := NewSessionTicket(w.seal(Session(w.vers, sh.suite, e.master, certificates)));
    var e1 := Change(SayIf(w, sh.ticketSupported, e, ticket));
    Say(w, e1, Finished(w.serverSum(e1.master, e1.transcript)))
  }

  function TakeClientHello(w: World, ch: Msg, e: End): (ServerPc, End)
    requires Expands(w)
  {
    if !ch.ClientHello? || FullSuite(w, ch) == None then (ServerFailed, e)
    else if Resumption(w, ch).Some? then
      var (session, usedOldKey) := Resumption(w, ch).value;
      var sh := ResumeHello(w, ch, session, usedOldKey);
      if session.certificates != [] && !w.trustsClient(session.certificates) then
        (ServerFailed, Say(w, Hash(e, ch), sh))   // the hello is in the buffer and is still sent
      else
        var e1 := Say(w, Hash(e, ch), sh).(master := session.master);
        (AwaitClientChange(sh, true, session.certificates),
         ServerFinish(w, sh, session.certificates, ServerEstablish(w, sh, ch.random, e1)))
    else
      var sh := FullHello(w, ch, FullSuite(w, ch).value);
      (if w.requestsCert then AwaitClientCertificate(sh, ch.random) else AwaitClientKey(sh, ch.random, []),
       FirstFlight(w, sh, Say(w, Hash(e, ch), sh)))
  }

  function FirstFlight(w: World, sh: Msg, e: End): End
    requires sh.ServerHello?
  {
    var e1 := SayIf(w, !w.noCerts(sh.suite), e, Certificate(w.serverChain));
    var e2 := SayIf(w, sh.ocspStapling, e1, CertificateStatus(w.staple));
    var e3 := if w.skx.Some? then Say(w, e2, ServerKeyExchange(w.skx.value)) else e2;
    var e4 := SayIf(w, w.requestsCert, e3, CertificateRequest);
    Say(w, e4, ServerHelloDone)
  }

  function TakeClientKey(w: World, sh: Msg, clientRandom: Data, certificates: seq<Data>, m: Msg, e: End)
    : (ServerPc, End)
    requires Expands(w) && sh.ServerHello?
  {
    if !m.ClientKeyExchange? || w.accept(m.ciphertext) == None then (ServerFailed, e)
    else
      var e1 := Hash(e, m).(master := w.masterOf(w.accept(m.ciphertext).value, clientRandom, sh.random));
      if certificates != [] then (AwaitVerify(sh, clientRandom, certificates), e1)
      else (AwaitClientChange(sh, false, []), ServerEstablish(w, sh, clientRandom, e1))
  }

  function TakeClientFinished(w: World, sh: Msg, resume: bool, certificates: seq<Data>, m: Msg, e: End): (ServerPc, End)
    requires sh.ServerHello?
  {
    if !m.Finished? || m.verifyData != w.clientSum(e.master, e.transcript) then (ServerFailed, e)
    else if resume then (ServerDone(sh, resume), Hash(e, m))
    else if e.out.next == None then (ServerFailed, e)
    else (ServerDone(sh, resume), ServerFinish(w, sh, certificates, Hash(e, m)))
  }

  predicate ServerPcOk(pc: ServerPc) {
    match pc
    case AwaitClientHello => true
    case ServerFailed => true
    case _ => pc.hello.ServerHello?
  }

  function ServerTake(w: World, pc: ServerPc, m: Msg, e: End): (ServerPc, End)
    requires Expands(w) && ServerPcOk(pc)
  {
    match pc
    case AwaitClientHello => TakeClientHello(w, m, e)
    case AwaitClientCertificate(sh, random) =>
      if !m.Certificate? then (ServerFailed, e)
      else if m.certificates == [] && w.requiresCert then (ServerFailed, e)
      else if m.certificates != [] && !w.trustsClient(m.certificates) then (ServerFailed, e)
      else (AwaitClientKey(sh, random, m.certificates), Hash(e, m))
    case AwaitClientKey(sh, random, certificates) => TakeClientKey(w, sh, random, certificates, m, e)
    case AwaitVerify(sh, random, certificates) =>
      if !m.CertificateVerify? || !w.verifies(m.signature, e.transcript) then (ServerFailed, e)
      else (AwaitClientChange(sh, false, certificates), ServerEstablish(w, sh, random, Hash(e, m)))
    case AwaitNextProtocol(sh, resume, certificates) =>
      if m.NextProtocol? then (AwaitClientFinished(sh, resume, certificates), Hash(e, m)) else (ServerFailed, e)
    case AwaitClientFinished(sh, resume, certificates) => TakeClientFinished(w, sh, resume, certificates, m, e)
    case _ => (ServerFailed, e)
  }

  function ServerStep(w: World, pc: ServerPc, e: End, incoming: seq<Packet>): Option<(ServerPc, End)>
    requires Expands(w) && ServerPcOk(pc)
  {
    if pc.ServerDone? || pc.ServerFailed? then None
    else
      match Receive(e, incoming)
      case Blocked => None
      case Bad => Some((ServerFailed, e))
      case Got(Message(m), e') => Some(ServerTake(w, pc, m, e'))
      case Got(ChangeCipherSpec(_), e') =>
        if !pc.AwaitClientChange? then Some((ServerFailed, e'))
        else if pc.hello.npn then Some((AwaitNextProtocol(pc.hello, pc.resume, pc.certificates), e'))
        else Some((AwaitClientFinished(pc.hello, pc.resume, pc.certificates), e'))
  }

  // ----- Joint runs

  datatype State = State(cpc: ClientPc, client: End, spc: ServerPc, server: End, toServer: seq<Packet>,
      toClient: seq<Packet>)

  function Init(): State {
    var idle := Half(None, 0, None);
    State(Start, End(idle, idle, [], [], []), AwaitClientHello, End(idle, idle, [], [], []), [], [])
  }

  /** Flushing empties the buffer into the network; a step that reads takes one packet from it. */
  ghost predicate ClientMoves(w: World, s: State, t: State)
    requires Expands(w)
  {
    && ClientPcOk(s.cpc)
    && var r := ClientStep(w, s.cpc, s.client, s.toClient);
       && r.Some?
       && t == s.(cpc := r.value.0, client := r.value.1.(sendBuf := []), toServer := s.toServer + r.value.1.sendBuf,
                  toClient := if s.cpc.Start? || s.toClient == [] then s.toClient else s.toClient[1..])
  }

  ghost predicate ServerMoves(w: World, s: State, t: State)
    requires Expands(w)
  {
    && ServerPcOk(s.spc)
    && var r := ServerStep(w, s.spc, s.server, s.toServer);
       && r.Some?
       && t == s.(spc := r.value.0, server := r.value.1.(sendBuf := []), toClient := s.toClient + r.value.1.sendBuf,
                  toServer := if s.toServer == [] then s.toServer else s.toServer[1..])
  }

  ghost predicate Steps(w: World, s: State, t: State)
    requires Expands(w)
  {
    ClientMoves(w, s, t) || ServerMoves(w, s, t)
  }

  ghost predicate Reachable(w: World, run: seq<State>)
    requires Expands(w)
  {
    && run != [] && run[0] == Init()
    && forall i | 0 <= i < |run| - 1 :: Steps(w, run[i], run[i + 1])
  }
}
