/**
 Each side by itself, whatever the other end of the connection sends: when client or server is done it has
 compared the other side's sum over all that was said, and has checked what its configuration asks for.
 */
module HandshakeAlone {
  import opened Bytes
  import opened Handshake
  import opened HandshakeLaws
  import opened HandshakeTerms

  function Idle(): End {
    End(Half(None, 0, None), Half(None, 0, None), [], [], [])
  }

  /** The message at `i` is the sum over those before it. */
  predicate ServerSumAt(w: World, master: Data, t: seq<Msg>, i: int) {
    0 <= i < |t| && t[i] == Finished(w.serverSum(master, t[..i]))
  }

  predicate ClientSumAt(w: World, master: Data, t: seq<Msg>, i: int) {
    0 <= i < |t| && t[i] == Finished(w.clientSum(master, t[..i]))
  }

  // ----- The client

  /** A step of a client to which anything at all may have been sent. */
  ghost predicate ClientGoes(w: World, pc: ClientPc, e: End, pc': ClientPc, e': End)
    requires Expands(w)
  {
    && ClientPcOk(pc)
    && exists incoming :: ClientStep(w, pc, e, incoming).Some?
                          && var r := ClientStep(w, pc, e, incoming).value;
                             pc' == r.0 && e' == r.1.(sendBuf := [])
  }

  ghost predicate ClientRun(w: World, run: seq<(ClientPc, End)>)
    requires Expands(w)
  {
    && run != [] && run[0] == (Start, Idle())
    && forall i | 0 <= i < |run| - 1 :: ClientGoes(w, run[i].0, run[i].1, run[i + 1].0, run[i + 1].1)
  }

  /** The server's hello is an answer to the client's. */
  predicate Answered(w: World, sh: Msg, t: seq<Msg>) {
    && sh.ServerHello? && |t| >= 2 && t[0] == TheOffer(w) && t[1] == sh
    && sh.suite in w.suites && (sh.npn ==> w.clientNpn)
  }

  /** The session's number came back. */
  predicate Resumed(w: World, sh: Msg)
    requires sh.ServerHello?
  {
    w.session.Some? && sh.sessionId == w.sessionId
  }

  /** The server's chain came first and is trusted, unless the suite does without. */
  predicate Chained(w: World, sh: Msg, t: seq<Msg>)
    requires sh.ServerHello?
  {
    || w.noCerts(sh.suite)
    || (|t| > 2 && t[2].Certificate? && t[2].certificates != [] && w.trustsServer(t[2].certificates))
  }

  predicate KeyHeard(w: World, skx: Option<Data>, t: seq<Msg>) {
    skx.Some? ==> w.takesKey(skx.value) && ServerKeyExchange(skx.value) in t
  }

  /** The secret is the client's answer to the key exchange it has heard. */
  predicate SecretFrom(w: World, sh: Msg, skx: Option<Data>, master: Data, t: seq<Msg>)
    requires sh.ServerHello?
  {
    && KeyHeard(w, skx, t) && w.respond(skx).Some?
    && ClientKeyExchange(w.respond(skx).value.1) in t
    && master == w.masterOf(w.respond(skx).value.0, w.clientRandom, sh.random)
  }

  /** Where the client's secret comes from. */
  ghost predicate ClientKnows(w: World, sh: Msg, resume: bool, master: Data, t: seq<Msg>) {
    && Answered(w, sh, t) && resume == Resumed(w, sh)
    && if resume then
         var session := w.session.value.1;
         session.vers == w.vers && session.suite == sh.suite && master == session.master
       else Chained(w, sh, t) && exists skx :: SecretFrom(w, sh, skx, master, t)
  }

  ghost predicate ClientHolds(w: World, sh: Msg, resume: bool, e: End)
    requires Expands(w)
  {
    && ClientKnows(w, sh, resume, e.master, e.transcript)
    && (if resume then e.out.next else e.out.keys) == Some(ClientKeys(w, sh, e.master).0)
  }

  ghost predicate ClientInv(w: World, pc: ClientPc, e: End)
    requires Expands(w)
  {
    match pc
    case Start => e == Idle()
    case AwaitHello => e.transcript == []
    case AwaitCertificate(sh) => Answered(w, sh, e.transcript) && !Resumed(w, sh) && |e.transcript| == 2
    case AwaitAfterCertificate(sh) => Early(w, sh, None, e.transcript)
    case AwaitStatus(sh) => Early(w, sh, None, e.transcript)
    case AwaitAfterKey(sh, key) => Early(w, sh, Some(key), e.transcript)
    case AwaitAfterRequest(sh, skx) => Early(w, sh, skx, e.transcript)
    case AwaitTicket(sh, resume) => ClientHolds(w, sh, resume, e) && e.inn.next == Some(ClientKeys(w, sh, e.master).1)
    case AwaitServerChange(sh, resume) =>
      ClientHolds(w, sh, resume, e) && e.inn.next == Some(ClientKeys(w, sh, e.master).1)
    case AwaitServerFinished(sh, resume) =>
      ClientHolds(w, sh, resume, e) && e.inn.keys == Some(ClientKeys(w, sh, e.master).1)
    case ClientDone(sh, resume) => ClientVouches(w, sh, resume, e)
    case ClientFailed => true
  }

  predicate Early(w: World, sh: Msg, skx: Option<Data>, t: seq<Msg>) {
    Answered(w, sh, t) && !Resumed(w, sh) && Chained(w, sh, t) && KeyHeard(w, skx, t)
  }

  /**
   What a client that is done can vouch for. Behind the server's sum there are, after a resumption, the
   client's own last messages.
   */
  ghost predicate ClientVouches(w: World, sh: Msg, resume: bool, e: End)
    requires Expands(w)
  {
    && ClientKnows(w, sh, resume, e.master, e.transcript)
    && ServerSumAt(w, e.master, e.transcript,
         |e.transcript| - 1 - if resume then |If(sh.npn, NextProtocol(w.proto))| + 1 else 0)
    && (e.out.keys, e.inn.keys)
       == (Some(ClientKeys(w, sh, e.master).0), Some(ClientKeys(w, sh, e.master).1))
  }

  lemma KnowsShaped(w: World, sh: Msg, resume: bool, master: Data, t: seq<Msg>)
    requires ClientKnows(w, sh, resume, master, t)
    ensures sh.ServerHello?
  {
  }

  lemma KnowsMore(w: World, sh: Msg, resume: bool, master: Data, t: seq<Msg>, more: seq<Msg>)
    requires ClientKnows(w, sh, resume, master, t)
    ensures ClientKnows(w, sh, resume, master, t + more)
  {
    if !resume {
      var skx :| SecretFrom(w, sh, skx, master, t);
      assert SecretFrom(w, sh, skx, master, t + more);
    }
  }

  lemma ClientFinishIs(w: World, sh: Msg, e: End)
    requires sh.ServerHello? && e.out.next.Some?
    ensures var e' := ClientFinish(w, sh, e);
            var u := If(sh.npn, NextProtocol(w.proto));
            && e'.transcript == e.transcript + (u + [Finished(w.clientSum(e.master, e.transcript + u))])
            && e'.out.keys == e.out.next && e'.inn == e.inn && e'.master == e.master
  {
    assert e.transcript + [] == e.transcript;
  }

  lemma SecondFlightIs(w: World, sh: Msg, agreed: (Data, Data), certRequested: bool, e: End)
    requires Expands(w) && sh.ServerHello?
    ensures var e' := SecondFlight(w, sh, agreed, certRequested, e);
            && |e.transcript| <= |e'.transcript| && e'.transcript[..|e.transcript|] == e.transcript
            && ClientKeyExchange(agreed.1) in e'.transcript
            && e'.master == w.masterOf(agreed.0, w.clientRandom, sh.random)
            && e'.out.keys == Some(ClientKeys(w, sh, e'.master).0)
            && e'.inn.next == Some(ClientKeys(w, sh, e'.master).1)
  {
    hide ClientKeys, ClientFinish;
    var e1 := SayIf(w, certRequested, e, Certificate(w.clientChain));
    var e2 := Say(w, e1, ClientKeyExchange(agreed.1));
    var e3 := SayIf(w, certRequested && w.clientChain != [], e2, CertificateVerify(w.sign(e2.transcript)));
    var e4 := ClientEstablish(w, sh, e3.(master := w.masterOf(agreed.0, w.clientRandom, sh.random)));
    assert e2.transcript[|e2.transcript| - 1] == ClientKeyExchange(agreed.1);
    ClientFinishIs(w, sh, e4);
  }

  lemma ClientTakes(w: World, pc: ClientPc, m: Msg, e: End)
    requires Expands(w) && ClientPcOk(pc) && ClientInv(w, pc, e) && !pc.ClientFailed? && !pc.ClientDone? && !pc.Start?
    ensures var (pc', e') := ClientTake(w, pc, m, e); ClientInv(w, pc', e')
  {
    hide Expands, TakeServerHello, TakeCertificate, TakeStatus, TakeRequest, TakeDone, TakeFinished, ClientKeys,
         Answered, Chained, KeyHeard;
    match pc
    case AwaitHello => TakesHello(w, m, e);
    case AwaitCertificate(sh) => TakesCertificate(w, sh, m, e);
    case AwaitAfterCertificate(sh) => TakesKey(w, sh, m, e);
    case AwaitStatus(sh) =>
      if m.CertificateStatus? {
        EarlyKept(w, sh, None, e.transcript, e.transcript + [m]);
        TakesRequest(w, sh, None, m, Hash(e, m));
      }
    case AwaitAfterKey(sh, key) => TakesRequest(w, sh, Some(key), m, e);
    case AwaitAfterRequest(sh, skx) => TakesDone(w, sh, skx, true, m, e);
    case AwaitTicket(sh, resume) => KnowsMore(w, sh, resume, e.master, e.transcript, [m]);
    case AwaitServerChange(sh, resume) =>
    case AwaitServerFinished(sh, resume) => TakesFinished(w, sh, resume, m, e);
  }

  lemma TakesHello(w: World, m: Msg, e: End)
    requires Expands(w) && e.transcript == []
    ensures var (pc', e') := TakeServerHello(w, m, e); ClientInv(w, pc', e')
  {
    hide Expands, ClientKeys;
  }

  lemma TakesCertificate(w: World, sh: Msg, m: Msg, e: End)
    requires Expands(w) && Answered(w, sh, e.transcript) && !Resumed(w, sh) && |e.transcript| == 2
    ensures var (pc', e') := TakeCertificate(w, sh, m, e); ClientInv(w, pc', e')
  {
    hide Expands, SecondFlight, ClientKeys, TakeStatus;
    if !m.Certificate? && w.noCerts(sh.suite) {
      TakesKey(w, sh, m, e);
    }
  }

  lemma TakesKey(w: World, sh: Msg, m: Msg, e: End)
    requires Expands(w) && Early(w, sh, None, e.transcript)
    ensures var (pc', e') := TakeStatus(w, sh, m, e); ClientInv(w, pc', e')
  {
    hide Expands, SecondFlight, ClientKeys, TakeRequest;
    if m.ServerKeyExchange? {
      assert (e.transcript + [m])[|e.transcript|] == m;
    } else {
      TakesRequest(w, sh, None, m, e);
    }
  }

  lemma TakesRequest(w: World, sh: Msg, skx: Option<Data>, m: Msg, e: End)
    requires Expands(w) && Early(w, sh, skx, e.transcript)
    ensures var (pc', e') := TakeRequest(w, sh, skx, m, e); ClientInv(w, pc', e')
  {
    hide Expands, SecondFlight, ClientKeys, TakeDone;
    if !m.CertificateRequest? {
      TakesDone(w, sh, skx, false, m, e);
    }
  }

  lemma EarlyKept(w: World, sh: Msg, skx: Option<Data>, t: seq<Msg>, u: seq<Msg>)
    requires Early(w, sh, skx, t) && |t| <= |u| && u[..|t|] == t
    ensures Early(w, sh, skx, u)
  {
    assert forall i | 0 <= i < |t| :: t[i] == u[i];
  }

  lemma TakesDone(w: World, sh: Msg, skx: Option<Data>, certRequested: bool, m: Msg, e: End)
    requires Expands(w) && Early(w, sh, skx, e.transcript)
    ensures var (pc', e') := TakeDone(w, sh, skx, certRequested, m, e); ClientInv(w, pc', e')
  {
    hide Expands, SecondFlight, ClientKeys, KeyHeard, Chained;
    if m.ServerHelloDone? && w.respond(skx).Some? {
      SecondFlightIs(w, sh, w.respond(skx).value, certRequested, Hash(e, m));
      var e' := SecondFlight(w, sh, w.respond(skx).value, certRequested, Hash(e, m));
      var (n, t) := (|e.transcript|, e'.transcript);
      assert t[..n] == t[..n + 1][..n] == (e.transcript + [m])[..n];
      EarlyKept(w, sh, skx, e.transcript, t);
      assert SecretFrom(w, sh, skx, e'.master, e'.transcript);
    }
  }

  lemma TakesFinished(w: World, sh: Msg, resume: bool, m: Msg, e: End)
    requires Expands(w) && ClientHolds(w, sh, resume, e) && e.inn.keys == Some(ClientKeys(w, sh, e.master).1)
    ensures var (pc', e') := TakeFinished(w, sh, resume, m, e); ClientInv(w, pc', e')
  {
    hide Expands, ClientKeys, ClientFinish, ClientKnows;
    KnowsShaped(w, sh, resume, e.master, e.transcript);
    var t := e.transcript + [m];
    assert t[..|e.transcript|] == e.transcript;
    KnowsMore(w, sh, resume, e.master, e.transcript, [m]);
    if resume && m == Finished(w.serverSum(e.master, e.transcript)) {
      ClientFinishIs(w, sh, Hash(e, m));
      var u := If(sh.npn, NextProtocol(w.proto));
      var more := u + [Finished(w.clientSum(e.master, t + u))];
      KnowsMore(w, sh, resume, e.master, t, more);
      assert (t + more)[..|e.transcript|] == e.transcript;
    }
  }

  lemma ClientKeeps(w: World, pc: ClientPc, e: End, pc': ClientPc, e': End)
    requires Expands(w) && ClientInv(w, pc, e) && ClientGoes(w, pc, e, pc', e')
    ensures ClientInv(w, pc', e')
  {
    hide Expands, ClientTake, ClientKeys, ClientKnows, Early, Answered;
    var incoming :| ClientStep(w, pc, e, incoming).Some?
        && var r := ClientStep(w, pc, e, incoming).value; pc' == r.0 && e' == r.1.(sendBuf := []);
    if !pc.Start? && Receive(e, incoming).Got? && Receive(e, incoming).content.Message? {
      ClientTakes(w, pc, Receive(e, incoming).content.m, Receive(e, incoming).e);
    }
  }

  /** A client that is done vouches for the connection, whatever it was sent. */
  lemma {:induction false} ClientDoneVouches(w: World, run: seq<(ClientPc, End)>)
    requires Expands(w) && ClientRun(w, run)
    ensures ClientInv(w, run[|run| - 1].0, run[|run| - 1].1)
    ensures var (pc, e) := run[|run| - 1];
            pc.ClientDone? ==> ClientVouches(w, pc.sh, pc.resume, e)
  {
    hide ClientGoes, ClientVouches, ClientHolds, Early;
    if |run| > 1 {
      var last := |run| - 1;
      ClientDoneVouches(w, run[..last]);
      ClientKeeps(w, run[last - 1].0, run[last - 1].1, run[last].0, run[last].1);
    }
  }

  // ----- The server

  ghost predicate ServerGoes(w: World, pc: ServerPc, e: End, pc': ServerPc, e': End)
    requires Expands(w)
  {
    && ServerPcOk(pc)
    && exists incoming :: ServerStep(w, pc, e, incoming).Some?
                          && var r := ServerStep(w, pc, e, incoming).value;
                             pc' == r.0 && e' == r.1.(sendBuf := [])
  }

  ghost predicate ServerRun(w: World, run: seq<(ServerPc, End)>)
    requires Expands(w)
  {
    && run != [] && run[0] == (AwaitClientHello, Idle())
    && forall i | 0 <= i < |run| - 1 :: ServerGoes(w, run[i].0, run[i].1, run[i + 1].0, run[i + 1].1)
  }

  /** The suite is the one chosen of those offered, or that of the session in the ticket. */
  predicate Asked(w: World, sh: Msg, t: seq<Msg>) {
    && |t| >= 2 && t[0].ClientHello? && t[1] == sh && sh.ServerHello? && sh.random == w.serverRandom
    && w.choose(t[0].suites).Some?
    && (w.choose(t[0].suites).value == sh.suite || InTicket(w, sh, t[0]))
    && (sh.ticketSupported ==> w.serverTickets)
  }

  /** The client's ticket opens to a session of this version, with a suite that both sides support. */
  predicate InTicket(w: World, sh: Msg, ch: Msg)
    requires ch.ClientHello? && sh.ServerHello?
  {
    && w.serverTickets && w.opens(ch.ticket).Some?
    && var session := w.opens(ch.ticket).value.0;
       session.vers == w.vers && session.suite == sh.suite && session.suite in ch.suites && w.supports(session.suite)
  }

  /** A client with these certificates is one that the configuration takes. */
  predicate Welcome(w: World, certs: seq<Data>) {
    if certs == [] then !w.requiresCert || !w.requestsCert else w.requestsCert && w.trustsClient(certs)
  }

  /** A session is taken up as it is in the ticket. */
  predicate FromTicket(w: World, sh: Msg, certs: seq<Data>, master: Data, ch: Msg)
    requires ch.ClientHello? && sh.ServerHello?
  {
    && InTicket(w, sh, ch) && (certs == [] ==> !w.requiresCert)
    && w.opens(ch.ticket).value.0 == Session(w.vers, sh.suite, master, certs)
  }

  /** The client showed these certificates, if it was asked for any. */
  predicate Showed(w: World, certs: seq<Data>, t: seq<Msg>) {
    if w.requestsCert then Certificate(certs) in t else certs == []
  }

  /** The secret is what the server made of the client's key exchange. */
  predicate SecretAt(w: World, sh: Msg, master: Data, t: seq<Msg>, i: int) {
    && 0 < i < |t| && t[0].ClientHello? && sh.ServerHello? && t[i].ClientKeyExchange?
    && w.accept(t[i].ciphertext).Some?
    && master == w.masterOf(w.accept(t[i].ciphertext).value, t[0].random, sh.random)
  }

  /** The client signed all that was said before. */
  predicate SignedAt(w: World, t: seq<Msg>, i: int) {
    0 <= i < |t| && t[i].CertificateVerify? && w.verifies(t[i].signature, t[..i])
  }

  /** Where the server's secret comes from, and who it thinks it is talking to. */
  ghost predicate ServerKnows(w: World, sh: Msg, resume: bool, certs: seq<Data>, master: Data, t: seq<Msg>) {
    && Asked(w, sh, t) && Welcome(w, certs)
    && if resume then FromTicket(w, sh, certs, master, t[0])
       else
         && Showed(w, certs, t) && (exists i :: SecretAt(w, sh, master, t, i))
         && (certs != [] ==> exists i :: SignedAt(w, t, i))
  }

  /** The keys that client and server write with. */
  function KeysFor(w: World, sh: Msg, master: Data, t: seq<Msg>): (Keys, Keys)
    requires Expands(w) && sh.ServerHello? && |t| > 0 && t[0].ClientHello?
  {
    KeysFromMasterSecret(w, sh.suite, master, t[0].random, sh.random)
  }

  ghost predicate ServerHolds(w: World, sh: Msg, resume: bool, certs: seq<Data>, e: End)
    requires Expands(w)
  {
    && ServerKnows(w, sh, resume, certs, e.master, e.transcript)
    && (if resume then e.out.keys else e.out.next) == Some(KeysFor(w, sh, e.master, e.transcript).1)
  }

  ghost predicate ServerInv(w: World, pc: ServerPc, e: End)
    requires Expands(w)
  {
    match pc
    case AwaitClientHello => e.transcript == []
    case AwaitClientCertificate(sh, random) => Asked(w, sh, e.transcript) && random == e.transcript[0].random
                                               && w.requestsCert
    case AwaitClientKey(sh, random, certs) =>
      && Asked(w, sh, e.transcript) && random == e.transcript[0].random
      && Welcome(w, certs) && Showed(w, certs, e.transcript)
    case AwaitVerify(sh, random, certs) =>
      && Asked(w, sh, e.transcript) && random == e.transcript[0].random
      && Welcome(w, certs) && Showed(w, certs, e.transcript)
      && exists i :: SecretAt(w, sh, e.master, e.transcript, i)
    case AwaitClientChange(sh, resume, certs) =>
      ServerHolds(w, sh, resume, certs, e) && e.inn.next == Some(KeysFor(w, sh, e.master, e.transcript).0)
    case AwaitNextProtocol(sh, resume, certs) =>
      ServerHolds(w, sh, resume, certs, e) && e.inn.keys == Some(KeysFor(w, sh, e.master, e.transcript).0)
    case AwaitClientFinished(sh, resume, certs) =>
      ServerHolds(w, sh, resume, certs, e) && e.inn.keys == Some(KeysFor(w, sh, e.master, e.transcript).0)
    case ServerDone(sh, resume) => ServerVouches(w, sh, resume, e)
    case ServerFailed => true
  }

  /**
   What a server that is done can vouch for. Behind the client's sum there are, unless a session was resumed,
   the server's own last messages.
   */
  ghost predicate ServerVouches(w: World, sh: Msg, resume: bool, e: End)
    requires Expands(w)
  {
    && (exists certs :: ServerKnows(w, sh, resume, certs, e.master, e.transcript))
    && ClientSumAt(w, e.master, e.transcript,
         |e.transcript| - 1 - if resume then 0 else if sh.ticketSupported then 2 else 1)
    && (e.inn.keys, e.out.keys)
       == (Some(KeysFor(w, sh, e.master, e.transcript).0), Some(KeysFor(w, sh, e.master, e.transcript).1))
  }

  lemma ServerKnowsMore(w: World, sh: Msg, resume: bool, certs: seq<Data>, master: Data, t: seq<Msg>, more: seq<Msg>)
    requires ServerKnows(w, sh, resume, certs, master, t)
    ensures ServerKnows(w, sh, resume, certs, master, t + more)
    ensures Asked(w, sh, t) && (t + more)[0] == t[0]
  {
    hide Welcome, FromTicket, InTicket;
    if !resume {
      SecretKept(w, sh, master, t, more);
      if certs != [] {
        var i :| SignedAt(w, t, i);
        assert (t + more)[..i] == t[..i] && SignedAt(w, t + more, i);
      }
    }
  }

  lemma SecretKept(w: World, sh: Msg, master: Data, t: seq<Msg>, more: seq<Msg>)
    requires exists i :: SecretAt(w, sh, master, t, i)
    ensures exists i :: SecretAt(w, sh, master, t + more, i)
  {
    var i :| SecretAt(w, sh, master, t, i);
    assert SecretAt(w, sh, master, t + more, i);
  }

  lemma ServerFinishIs(w: World, sh: Msg, certs: seq<Data>, e: End)
    requires sh.ServerHello? && e.out.next.Some?
    ensures var e' := ServerFinish(w, sh, certs, e);
            var u := If(sh.ticketSupported, NewSessionTicket(w.seal(Session(w.vers, sh.suite, e.master, certs))));
            && e'.transcript == e.transcript + (u + [Finished(w.serverSum(e.master, e.transcript + u))])
            && e'.out.keys == e.out.next && e'.inn == e.inn && e'.master == e.master
  {
    assert e.transcript + [] == e.transcript;
  }

  lemma FirstFlightIs(w: World, sh: Msg, e: End)
    requires sh.ServerHello?
    ensures var t := FirstFlight(w, sh, e).transcript;
            |e.transcript| <= |t| && t[..|e.transcript|] == e.transcript
  {
    FirstFlightWrites(w, sh, e);
  }

  lemma ServerTakes(w: World, pc: ServerPc, m: Msg, e: End)
    requires Expands(w) && ServerPcOk(pc) && ServerInv(w, pc, e) && !pc.ServerFailed? && !pc.ServerDone?
    ensures var (pc', e') := ServerTake(w, pc, m, e); ServerInv(w, pc', e')
  {
    hide Expands, TakeClientHello, TakeClientKey, TakeClientFinished, KeysFromMasterSecret, FromTicket, InTicket;
    match pc
    case AwaitClientHello => TakesClientHello(w, m, e);
    case AwaitClientCertificate(sh, random) =>
      assert (e.transcript + [m])[|e.transcript|] == m;
    case AwaitClientKey(sh, random, certs) => TakesClientKey(w, sh, random, certs, m, e);
    case AwaitVerify(sh, random, certs) =>
      SecretKept(w, sh, e.master, e.transcript, [m]);
      if m.CertificateVerify? && w.verifies(m.signature, e.transcript) {
        assert (e.transcript + [m])[..|e.transcript|] == e.transcript;
        assert SignedAt(w, e.transcript + [m], |e.transcript|);
      }
    case AwaitClientChange(sh, resume, certs) =>
    case AwaitNextProtocol(sh, resume, certs) =>
      ServerKnowsMore(w, sh, resume, certs, e.master, e.transcript, [m]);
    case AwaitClientFinished(sh, resume, certs) => TakesClientFinished(w, sh, resume, certs, m, e);
  }

  lemma TakesClientHello(w: World, m: Msg, e: End)
    requires Expands(w) && e.transcript == []
    ensures var (pc', e') := TakeClientHello(w, m, e); ServerInv(w, pc', e')
  {
    hide Expands, FirstFlight, KeysFromMasterSecret, ServerFinish;
    if m.ClientHello? && FullSuite(w, m).Some? {
      if Resumption(w, m).Some? {
        var (session, older) := Resumption(w, m).value;
        var sh := ResumeHello(w, m, session, older);
        var e1 := ServerEstablish(w, sh, m.random, Say(w, Hash(e, m), sh).(master := session.master));
        ServerFinishIs(w, sh, session.certificates, e1);
      } else {
        var sh := FullHello(w, m, FullSuite(w, m).value);
        var e1 := Say(w, Hash(e, m), sh);
        FirstFlightIs(w, sh, e1);
        assert e1.transcript == [m, sh];
        var t := FirstFlight(w, sh, e1).transcript;
        assert t[..2][0] == m && t[..2][1] == sh;
      }
    }
  }

  lemma TakesClientKey(w: World, sh: Msg, random: Data, certs: seq<Data>, m: Msg, e: End)
    requires Expands(w) && Asked(w, sh, e.transcript) && random == e.transcript[0].random
    requires Welcome(w, certs) && Showed(w, certs, e.transcript)
    ensures var (pc', e') := TakeClientKey(w, sh, random, certs, m, e); ServerInv(w, pc', e')
  {
    hide Expands, KeysFromMasterSecret, InTicket;
    if m.ClientKeyExchange? && w.accept(m.ciphertext).Some? {
      var master := w.masterOf(w.accept(m.ciphertext).value, random, sh.random);
      assert SecretAt(w, sh, master, e.transcript + [m], |e.transcript|);
    }
  }

  lemma TakesClientFinished(w: World, sh: Msg, resume: bool, certs: seq<Data>, m: Msg, e: End)
    requires Expands(w) && ServerHolds(w, sh, resume, certs, e)
    requires e.inn.keys == Some(KeysFor(w, sh, e.master, e.transcript).0)
    ensures var (pc', e') := TakeClientFinished(w, sh, resume, certs, m, e); ServerInv(w, pc', e')
  {
    hide Expands, KeysFromMasterSecret, ServerFinish, ServerKnows;
    var t := e.transcript + [m];
    assert t[..|e.transcript|] == e.transcript;
    ServerKnowsMore(w, sh, resume, certs, e.master, e.transcript, [m]);
    if !resume && m == Finished(w.clientSum(e.master, e.transcript)) {
      ServerFinishIs(w, sh, certs, Hash(e, m));
      var u := If(sh.ticketSupported, NewSessionTicket(w.seal(Session(w.vers, sh.suite, e.master, certs))));
      var more := u + [Finished(w.serverSum(e.master, t + u))];
      ServerKnowsMore(w, sh, resume, certs, e.master, t, more);
      assert (t + more)[..|e.transcript|] == e.transcript;
    }
  }

  lemma ServerKeeps(w: World, pc: ServerPc, e: End, pc': ServerPc, e': End)
    requires Expands(w) && ServerInv(w, pc, e) && ServerGoes(w, pc, e, pc', e')
    ensures ServerInv(w, pc', e')
  {
    hide Expands, ServerTake, KeysFromMasterSecret, Welcome, FromTicket, Showed, SecretAt, SignedAt, InTicket;
    var incoming :| ServerStep(w, pc, e, incoming).Some?
        && var r := ServerStep(w, pc, e, incoming).value; pc' == r.0 && e' == r.1.(sendBuf := []);
    if Receive(e, incoming).Got? && Receive(e, incoming).content.Message? {
      ServerTakes(w, pc, Receive(e, incoming).content.m, Receive(e, incoming).e);
    }
  }

  /** A server that is done vouches for the connection, whatever it was sent. */
  lemma {:induction false} ServerDoneVouches(w: World, run: seq<(ServerPc, End)>)
    requires Expands(w) && ServerRun(w, run)
    ensures ServerInv(w, run[|run| - 1].0, run[|run| - 1].1)
    ensures var (pc, e) := run[|run| - 1];
            pc.ServerDone? ==> ServerVouches(w, pc.hello, pc.resume, e)
  {
    hide ServerGoes, ServerVouches, ServerHolds;
    if |run| > 1 {
      var last := |run| - 1;
      ServerDoneVouches(w, run[..last]);
      ServerKeeps(w, run[last - 1].0, run[last - 1].1, run[last].0, run[last].1);
    }
  }
}
