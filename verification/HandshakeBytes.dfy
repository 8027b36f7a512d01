/**
 Joint handshakes over bytes: each step of a run reads its packet out of what the other side's record layer
 has written, with the keys its own side has prepared by then, and writes through its own record layer.
 */
module HandshakeBytes {
  import opened Bytes
  import opened Handshake
  import opened HandshakeLaws
  import opened HandshakeWire
  import C = HalfConn
  import D = Record
  import O = Outgoing
  import I = Incoming
  import P = Padding
  import R = HandshakeRuns

  // ----- The links between both sides

  /** One direction: the reader's state and the data it holds, the bytes on their way, the writer. */
  datatype Link = Link(reader: C.Half, hand: Text, bytes: Text, writer: O.Writer)

  datatype Links = Links(toServer: Link, toClient: Link)

  /** The bytes of a link are those of the queue, written from the reader's state on. */
  ghost predicate CarriesFrom(net: Net, w: World, d: Half, queue: seq<Packet>, e: Half, a: Link, start: O.Writer) {
    && Usable(net, w) && start.half == a.reader && a.hand == []
    && Describes(net, d, a.reader) && AllProper(net, queue) && Linked(d, queue, e)
    && Working(net, start) && QueueBytes(net, w, start, queue) == Some((a.bytes, a.writer))
  }

  ghost predicate Carries(net: Net, w: World, d: Half, queue: seq<Packet>, e: Half, a: Link) {
    exists start :: CarriesFrom(net, w, d, queue, e, a, start)
  }

  lemma WriterDescribed(net: Net, w: World, d: Half, queue: seq<Packet>, e: Half, a: Link)
    requires Carries(net, w, d, queue, e, a)
    ensures Describes(net, e, a.writer.half) && Working(net, a.writer) && a.reader.Valid()
  {
    hide QueueBytes, C.BigEndian, SameCipher;
    var start :| CarriesFrom(net, w, d, queue, e, a, start);
    QueuePast(net, w, d, queue, e, start);
  }

  /** A read: one message by readHandshake, or one record by readRecord where new keys are to come. */
  ghost predicate Reads(net: Net, ctx: I.Context, next: Prepared, content: Content, a: Link, b: Link) {
    && C.Sound(net.crypto) && a.reader.Valid() && D.Fits(next) && b.writer == a.writer
    && if content.Message? then
         I.TakeMessage(net.crypto, a.reader, next, ctx, a.hand, a.bytes)
         == I.OneMessage(TextOf(net, content), b.hand, b.reader, b.bytes)
       else
         && b.hand == a.hand
         && I.Next(net.crypto, a.reader, next, ctx, O.CHANGE_CIPHER_SPEC, a.bytes)
            == I.Got(O.CHANGE_CIPHER_SPEC, [1], b.reader, b.bytes)
  }

  ghost predicate Writes(net: Net, w: World, packets: seq<Packet>, a: Link, b: Link) {
    && Usable(net, w) && Working(net, a.writer) && b.reader == a.reader && b.hand == a.hand
    && var r := QueueBytes(net, w, a.writer, packets);
       r.Some? && b.bytes == a.bytes + r.value.0 && b.writer == r.value.1
  }

  /** The first packet can be read, whatever the reader has to be ready for. */
  lemma CarriesPop(net: Net, w: World, d: Half, queue: seq<Packet>, e: Half, a: Link, ctx: I.Context, next: Prepared,
      d': Half)
    requires Carries(net, w, d, queue, e, a) && queue != [] && Ready(net, w, queue[0].content, ctx, next)
    requires SameState(d', Past(d, queue[0]))
    ensures exists b :: Reads(net, ctx, next, queue[0].content, a, b) && Carries(net, w, d', queue[1..], e, b)
  {
    hide QueueBytes, PacketBytes, C.BigEndian, SameCipher, I.TakeMessage, I.Next, O.Suite, C.Half.Valid, D.Fits, Usable,
         Proper, I.Matches;
    var start :| CarriesFrom(net, w, d, queue, e, a, start);
    var p := queue[0];
    QueueStep(net, w, start, queue);
    var first := PacketBytes(net, w, start, p.content).value;
    var rest := QueueBytes(net, w, first.1, queue[1..]).value;
    PacketArrives(net, w, start, p, ctx, next, rest.0);
    PacketPast(net, w, d, start, p);
    LinkedSame(Past(d, p), d', queue[1..], e);
    var b := Link(first.1.half, [], rest.0, a.writer);
    assert Reads(net, ctx, next, p.content, a, b);
    assert CarriesFrom(net, w, d', queue[1..], e, b, first.1);
  }

  /** What is written on goes behind what is on its way. */
  lemma CarriesPush(net: Net, w: World, d: Half, queue: seq<Packet>, e: Half, a: Link, packets: seq<Packet>, e': Half)
    requires Carries(net, w, d, queue, e, a) && AllProper(net, queue + packets) && Linked(d, queue + packets, e')
    requires C.BigEndian(a.writer.half.seqNo) + 5 * |packets| < ROOM
    ensures exists b :: Writes(net, w, packets, a, b) && Carries(net, w, d, queue + packets, e', b)
                        && C.BigEndian(b.writer.half.seqNo) <= C.BigEndian(a.writer.half.seqNo) + 5 * |packets|
  {
    hide QueueBytes, C.BigEndian, Describes, Usable, Proper, Working, Linked;
    WriterDescribed(net, w, d, queue, e, a);
    var start :| CarriesFrom(net, w, d, queue, e, a, start);
    assert forall p | p in packets :: p in queue + packets;
    QueueRoom(net, w, a.writer, packets);
    QueueJoin(net, w, start, queue, packets);
    var more := QueueBytes(net, w, a.writer, packets).value;
    var b := Link(a.reader, a.hand, a.bytes + more.0, more.1);
    assert Writes(net, w, packets, a, b);
    assert CarriesFrom(net, w, d, queue + packets, e', b, start);
  }

  // ----- What a step does to the queues

  /** `e` reads as `e0` does and has at most `n` more packets to send. */
  predicate Grew(e0: End, e: End, n: nat) {
    SameState(e.inn, e0.inn) && |e.sendBuf| <= |e0.sendBuf| + n
  }

  lemma FinishGrows(w: World, sh: Msg, certificates: seq<Data>, e: End)
    requires sh.ServerHello? && e.out.next.Some?
    ensures Grew(e, ClientFinish(w, sh, e), 3) && Grew(e, ServerFinish(w, sh, certificates, e), 3)
  {
  }

  lemma FirstFlightGrows(w: World, sh: Msg, e: End)
    requires sh.ServerHello?
    ensures Grew(e, FirstFlight(w, sh, e), 5)
  {
  }

  lemma SecondFlightGrows(w: World, sh: Msg, agreed: (Data, Data), certRequested: bool, e: End)
    requires Expands(w) && sh.ServerHello?
    ensures Grew(e, SecondFlight(w, sh, agreed, certRequested, e), 6)
  {
    hide Expands, ClientKeys, ClientFinish;
    var e1 := SayIf(w, certRequested, e, Certificate(w.clientChain));
    var e2 := Say(w, e1, ClientKeyExchange(agreed.1));
    var e3 := SayIf(w, certRequested && w.clientChain != [], e2, CertificateVerify(w.sign(e2.transcript)));
    var e4 := ClientEstablish(w, sh, e3.(master := w.masterOf(agreed.0, w.clientRandom, sh.random)));
    FinishGrows(w, sh, [], e4);
  }

  lemma ClientDoneGrows(w: World, sh: Msg, skx: Option<Data>, requested: bool, m: Msg, e: End)
    requires Expands(w) && sh.ServerHello?
    ensures Grew(e, TakeDone(w, sh, skx, requested, m, e).1, 6)
  {
    hide Expands, SecondFlight;
    if w.respond(skx).Some? {
      SecondFlightGrows(w, sh, w.respond(skx).value, requested, Hash(e, m));
    }
  }

  lemma ClientTakeGrows(w: World, pc: ClientPc, m: Msg, e: End)
    requires Expands(w) && ClientPcOk(pc)
    ensures Grew(e, ClientTake(w, pc, m, e).1, 6)
  {
    hide Expands, ClientKeys, TakeDone, ClientFinish, Say;
    if !pc.Start? && !pc.AwaitHello? && !pc.ClientFailed? {
      ClientDoneGrows(w, pc.sh, None, false, m, e);
      ClientDoneGrows(w, pc.sh, None, false, m, Hash(e, m));
      if pc.AwaitAfterKey? {
        ClientDoneGrows(w, pc.sh, Some(pc.key), false, m, e);
      } else if pc.AwaitAfterRequest? {
        ClientDoneGrows(w, pc.sh, pc.skx, true, m, e);
      } else if pc.AwaitServerFinished? && e.out.next.Some? {
        FinishGrows(w, pc.sh, [], Hash(e, m));
      }
    }
  }

  lemma ServerTakeGrows(w: World, pc: ServerPc, m: Msg, e: End)
    requires Expands(w) && ServerPcOk(pc)
    ensures Grew(e, ServerTake(w, pc, m, e).1, 6)
  {
    hide Expands, TakeClientHello, TakeClientFinished;
    if pc.AwaitClientHello? {
      HelloGrows(w, m, e);
    } else if pc.AwaitClientFinished? {
      hide ServerFinish;
      if e.out.next.Some? {
        FinishGrows(w, pc.hello, pc.certificates, Hash(e, m));
      }
      FinishedGrows(w, pc.hello, pc.resume, pc.certificates, m, e);
    }
  }

  lemma FinishedGrows(w: World, sh: Msg, resume: bool, certificates: seq<Data>, m: Msg, e: End)
    requires sh.ServerHello?
    ensures Grew(e, TakeClientFinished(w, sh, resume, certificates, m, e).1, 6)
  {
    hide ServerFinish;
    if e.out.next.Some? {
      FinishGrows(w, sh, certificates, Hash(e, m));
    }
  }

  lemma HelloGrows(w: World, ch: Msg, e: End)
    requires Expands(w)
    ensures Grew(e, TakeClientHello(w, ch, e).1, 6)
  {
    hide Expands, FullSuite, Resumption, FirstFlight, ServerFinish;
    if ch.ClientHello? && FullSuite(w, ch).Some? {
      if Resumption(w, ch).Some? {
        var (session, usedOldKey) := Resumption(w, ch).value;
        var sh := ResumeHello(w, ch, session, usedOldKey);
        var e1 := Say(w, Hash(e, ch), sh).(master := session.master);
        FinishGrows(w, sh, session.certificates, ServerEstablish(w, sh, ch.random, e1));
      } else {
        var sh := FullHello(w, ch, FullSuite(w, ch).value);
        FirstFlightGrows(w, sh, Say(w, Hash(e, ch), sh));
      }
    }
  }

  /** A step of the client takes the first packet, if it reads, and adds at most six. */
  lemma ClientQueues(w: World, s: State, t: State)
    requires Honest(w) && R.Inv(w, s) && ClientMoves(w, s, t)
    ensures t.server == s.server && |s.toServer| <= |t.toServer| <= |s.toServer| + 6
    ensures t.toServer == s.toServer + t.toServer[|s.toServer|..]
    ensures if s.cpc.Start? then t.toClient == s.toClient && SameState(t.client.inn, s.client.inn)
            else
              && s.toClient != [] && !s.cpc.ClientFailed? && t.toClient == s.toClient[1..]
              && SameState(t.client.inn, Past(s.client.inn, s.toClient[0]))
  {
    hide R.Phase, ClientTake;
    R.ClientAsked(w, s);
    if !s.cpc.Start? {
      var p := s.toClient[0];
      assert Contents(s.toClient)[0] == p.content;
      var e := s.client.(inn := s.client.inn.(seqNo := s.client.inn.seqNo + p.records));
      if p.content.Message? {
        ClientTakeGrows(w, s.cpc, p.content.m, e);
      }
    }
  }

  lemma ServerQueues(w: World, s: State, t: State)
    requires Honest(w) && R.Inv(w, s) && ServerMoves(w, s, t)
    ensures t.client == s.client && |s.toClient| <= |t.toClient| <= |s.toClient| + 6
    ensures t.toClient == s.toClient + t.toClient[|s.toClient|..]
    ensures s.toServer != [] && !s.spc.ServerFailed? && t.toServer == s.toServer[1..]
    ensures SameState(t.server.inn, Past(s.server.inn, s.toServer[0]))
  {
    hide R.Phase, ServerTake;
    R.ServerAsked(w, s);
    if s.toServer != [] {
      var p := s.toServer[0];
      assert Contents(s.toServer)[0] == p.content;
      var e := s.server.(inn := s.server.inn.(seqNo := s.server.inn.seqNo + p.records));
      if p.content.Message? {
        ServerTakeGrows(w, s.spc, p.content.m, e);
      }
    }
  }

  // ----- Every step over bytes

  function Keyed(net: Net, keys: Option<Keys>): Prepared {
    match keys
    case None => None
    case Some(k) => Some(net.suite(k))
  }

  /** The version is known from the other side's hello on. */
  function ClientCtx(net: Net, w: World, pc: ClientPc): I.Context {
    I.Context(!pc.AwaitHello?, w.vers, false, net.renegotiates)
  }

  function ServerCtx(net: Net, w: World, pc: ServerPc): I.Context {
    I.Context(!pc.AwaitClientHello?, w.vers, false, net.renegotiates)
  }

  lemma ClientReadyFor(net: Net, w: World, s: State)
    requires Honest(w) && R.Inv(w, s) && Usable(net, w) && s.toClient != [] && !s.cpc.ClientFailed?
    ensures Ready(net, w, s.toClient[0].content, ClientCtx(net, w, s.cpc), Keyed(net, s.client.inn.next))
  {
    hide R.Phase, R.Connected;
    R.ClientAsked(w, s);
    assert Contents(s.toClient)[0] == s.toClient[0].content;
    if s.client.inn.next.Some? {
      assert D.Fits(Some(net.suite(s.client.inn.next.value)));
    }
  }

  lemma ServerReadyFor(net: Net, w: World, s: State)
    requires Honest(w) && R.Inv(w, s) && Usable(net, w) && s.toServer != [] && !s.spc.ServerFailed?
    ensures Ready(net, w, s.toServer[0].content, ServerCtx(net, w, s.spc), Keyed(net, s.server.inn.next))
  {
    hide R.Phase, R.Connected;
    R.ServerAsked(w, s);
    assert Contents(s.toServer)[0] == s.toServer[0].content;
    if s.server.inn.next.Some? {
      assert D.Fits(Some(net.suite(s.server.inn.next.value)));
    }
  }

  /** A step of the client, as its record layer does it: one read with the keys it has prepared, then what it writes. */
  ghost predicate ClientInBytes(net: Net, w: World, s: State, t: State, a: Links, b: Links) {
    && |s.toServer| <= |t.toServer| && Writes(net, w, t.toServer[|s.toServer|..], a.toServer, b.toServer)
    && if s.cpc.Start? then b.toClient == a.toClient
       else
         && s.toClient != []
         && Reads(net, ClientCtx(net, w, s.cpc), Keyed(net, s.client.inn.next), s.toClient[0].content,
                  a.toClient, b.toClient)
  }

  ghost predicate ServerInBytes(net: Net, w: World, s: State, t: State, a: Links, b: Links) {
    && |s.toClient| <= |t.toClient| && Writes(net, w, t.toClient[|s.toClient|..], a.toClient, b.toClient)
    && s.toServer != []
    && Reads(net, ServerCtx(net, w, s.spc), Keyed(net, s.server.inn.next), s.toServer[0].content,
             a.toServer, b.toServer)
  }

  ghost predicate StepInBytes(net: Net, w: World, s: State, t: State, a: Links, b: Links)
    requires Expands(w)
  {
    || (ClientMoves(w, s, t) && ClientInBytes(net, w, s, t, a, b))
    || (ServerMoves(w, s, t) && ServerInBytes(net, w, s, t, a, b))
  }

  /** Both directions carry their queues. */
  ghost predicate Joined(net: Net, w: World, s: State, a: Links) {
    && Carries(net, w, s.client.inn, s.toClient, s.server.out, a.toClient)
    && Carries(net, w, s.server.inn, s.toServer, s.client.out, a.toServer)
  }

  /** At most `n` numbers are used up in either direction. */
  predicate Used(a: Links, n: nat) {
    C.BigEndian(a.toServer.writer.half.seqNo) <= n && C.BigEndian(a.toClient.writer.half.seqNo) <= n
  }

  predicate ProperState(net: Net, s: State) {
    AllProper(net, s.toServer) && AllProper(net, s.toClient)
  }

  lemma CarriesSame(net: Net, w: World, d: Half, queue: seq<Packet>, e: Half, a: Link, d': Half)
    requires Carries(net, w, d, queue, e, a) && SameState(d', d)
    ensures Carries(net, w, d', queue, e, a)
  {
    hide QueueBytes, C.BigEndian, SameCipher, O.Suite, C.Half.Valid, Usable;
    var start :| CarriesFrom(net, w, d, queue, e, a, start);
    LinkedSame(d, d', queue, e);
    assert CarriesFrom(net, w, d', queue, e, a, start);
  }

  lemma ClientSimulated(net: Net, w: World, s: State, t: State, a: Links, n: nat)
    requires Honest(w) && R.Inv(w, s) && R.Inv(w, t) && ClientMoves(w, s, t) && ProperState(net, t)
    requires Joined(net, w, s, a) && Used(a, n) && n + 30 < ROOM
    ensures exists b :: ClientInBytes(net, w, s, t, a, b) && Joined(net, w, t, b) && Used(b, n + 30)
  {
    hide R.Phase, ClientMoves, Carries, Writes, Reads, AllProper, C.BigEndian, Linked, Ready;
    ClientQueues(w, s, t);
    var packets := t.toServer[|s.toServer|..];
    CarriesPush(net, w, s.server.inn, s.toServer, s.client.out, a.toServer, packets, t.client.out);
    var toServer :| Writes(net, w, packets, a.toServer, toServer)
                    && Carries(net, w, s.server.inn, t.toServer, t.client.out, toServer)
                    && C.BigEndian(toServer.writer.half.seqNo)
                       <= C.BigEndian(a.toServer.writer.half.seqNo) + 5 * |packets|;
    if s.cpc.Start? {
      CarriesSame(net, w, s.client.inn, s.toClient, s.server.out, a.toClient, t.client.inn);
      var b := Links(toServer, a.toClient);
      assert ClientInBytes(net, w, s, t, a, b) && Joined(net, w, t, b);
    } else {
      IsUsable(net, w, s.client.inn, s.toClient, s.server.out, a.toClient);
      ClientReadyFor(net, w, s);
      var (ctx, next) := (ClientCtx(net, w, s.cpc), Keyed(net, s.client.inn.next));
      CarriesPop(net, w, s.client.inn, s.toClient, s.server.out, a.toClient, ctx, next, t.client.inn);
      var toClient :| Reads(net, ctx, next, s.toClient[0].content, a.toClient, toClient)
                      && Carries(net, w, t.client.inn, t.toClient, s.server.out, toClient);
      SameWriter(net, ctx, next, s.toClient[0].content, a.toClient, toClient);
      var b := Links(toServer, toClient);
      assert ClientInBytes(net, w, s, t, a, b) && Joined(net, w, t, b);
    }
  }

  lemma IsUsable(net: Net, w: World, d: Half, queue: seq<Packet>, e: Half, a: Link)
    requires Carries(net, w, d, queue, e, a)
    ensures Usable(net, w)
  {
  }

  lemma SameWriter(net: Net, ctx: I.Context, next: Prepared, content: Content, a: Link, b: Link)
    requires Reads(net, ctx, next, content, a, b)
    ensures b.writer == a.writer
  {
    hide I.TakeMessage, I.Next;
  }

  lemma ServerSimulated(net: Net, w: World, s: State, t: State, a: Links, n: nat)
    requires Honest(w) && R.Inv(w, s) && R.Inv(w, t) && ServerMoves(w, s, t) && ProperState(net, t)
    requires Joined(net, w, s, a) && Used(a, n) && n + 30 < ROOM
    ensures exists b :: ServerInBytes(net, w, s, t, a, b) && Joined(net, w, t, b) && Used(b, n + 30)
  {
    hide R.Phase, ServerMoves, Carries, Writes, Reads, AllProper, C.BigEndian, Linked, Ready;
    ServerQueues(w, s, t);
    var packets := t.toClient[|s.toClient|..];
    CarriesPush(net, w, s.client.inn, s.toClient, s.server.out, a.toClient, packets, t.server.out);
    var toClient :| Writes(net, w, packets, a.toClient, toClient)
                    && Carries(net, w, s.client.inn, t.toClient, t.server.out, toClient)
                    && C.BigEndian(toClient.writer.half.seqNo)
                       <= C.BigEndian(a.toClient.writer.half.seqNo) + 5 * |packets|;
    IsUsable(net, w, s.client.inn, s.toClient, s.server.out, a.toClient);
    ServerReadyFor(net, w, s);
    var (ctx, next) := (ServerCtx(net, w, s.spc), Keyed(net, s.server.inn.next));
    CarriesPop(net, w, s.server.inn, s.toServer, s.client.out, a.toServer, ctx, next, t.server.inn);
    var toServer :| Reads(net, ctx, next, s.toServer[0].content, a.toServer, toServer)
                    && Carries(net, w, t.server.inn, t.toServer, s.client.out, toServer);
    SameWriter(net, ctx, next, s.toServer[0].content, a.toServer, toServer);
    var b := Links(toServer, toClient);
    assert ServerInBytes(net, w, s, t, a, b) && Joined(net, w, t, b);
  }

  // ----- Every run over bytes

  /** Nothing sent, no keys, numbers from zero. */
  function Idle(w: World): Link {
    var half := C.Half(w.vers, C.Clear, None, P.Copies(8, 0));
    Link(half, [], [], O.Writer(half, 0, O.Sizing(false, false, 0, 0), 0))
  }

  lemma IdleJoined(net: Net, w: World)
    requires Usable(net, w)
    ensures Joined(net, w, Init(), Links(Idle(w), Idle(w))) && Used(Links(Idle(w), Idle(w)), 0)
  {
    D.ZeroNumber(8);
    assert O.SuiteNext(net.crypto, Some(net.suite(Keys([], [], []))));
    var a, s := Idle(w), Init();
    assert CarriesFrom(net, w, s.client.inn, [], s.server.out, a, a.writer);
    assert CarriesFrom(net, w, s.server.inn, [], s.client.out, a, a.writer);
  }

  ghost predicate RunInBytes(net: Net, w: World, run: seq<State>, links: seq<Links>)
    requires Expands(w)
  {
    && |links| == |run| > 0 && links[0] == Links(Idle(w), Idle(w))
    && forall i | 0 <= i < |run| - 1 :: StepInBytes(net, w, run[i], run[i + 1], links[i], links[i + 1])
  }

  /**
   Every joint run is a run over bytes: from connections without keys on, each step reads its packet out
   of what the other side's record layer has written, with the keys this side has prepared by then, and
   writes its own; what is on its way in the end is what the queues hold. No sequence number wraps.
   */
  lemma {:induction false} RunsArrive(net: Net, w: World, run: seq<State>)
    requires Honest(w) && Reachable(w, run) && Usable(net, w) && forall s | s in run :: ProperState(net, s)
    ensures exists links ::
              && RunInBytes(net, w, run, links) && Joined(net, w, run[|run| - 1], links[|run| - 1])
              && Used(links[|run| - 1], 30 * (|run| - 1))
    decreases |run|
  {
    hide StepInBytes, Joined, R.Inv, Steps, ProperState, Usable, Idle, Used, ClientMoves, ServerMoves;
    var k := |run| - 1;
    if k == 0 {
      IdleJoined(net, w);
      var links := [Links(Idle(w), Idle(w))];
      assert RunInBytes(net, w, run, links) && links[k] == links[0];
    } else {
      var before := run[..k];
      ReachableBefore(w, run);
      RunsArrive(net, w, before);
      var some :| RunInBytes(net, w, before, some) && Joined(net, w, before[|before| - 1], some[|before| - 1])
                  && Used(some[|before| - 1], 30 * (|before| - 1));
      R.Always(w, before);
      R.Always(w, run);
      R.Ends(w, run);
      NextLinks(net, w, run[k - 1], run[k], some[k - 1], 30 * (k - 1));
      var next :| StepInBytes(net, w, run[k - 1], run[k], some[k - 1], next) && Joined(net, w, run[k], next)
                  && Used(next, 30 * k);
      var links := some + [next];
      forall i | 0 <= i < k ensures StepInBytes(net, w, run[i], run[i + 1], links[i], links[i + 1]) {
        if i < k - 1 {
          assert StepInBytes(net, w, before[i], before[i + 1], some[i], some[i + 1]);
        }
      }
      assert RunInBytes(net, w, run, links) && links[k] == next;
    }
  }

  lemma ReachableBefore(w: World, run: seq<State>)
    requires Expands(w) && Reachable(w, run) && |run| > 1
    ensures Reachable(w, run[..|run| - 1]) && Steps(w, run[|run| - 2], run[|run| - 1])
  {
    hide Steps;
    var before := run[..|run| - 1];
    forall i | 0 <= i < |before| - 1 ensures Steps(w, before[i], before[i + 1]) {
      assert Steps(w, run[i], run[i + 1]);
    }
    assert Steps(w, run[|run| - 2], run[|run| - 2 + 1]);
  }

  lemma NextLinks(net: Net, w: World, s: State, t: State, a: Links, n: nat)
    requires Honest(w) && R.Inv(w, s) && R.Inv(w, t) && Steps(w, s, t) && ProperState(net, t)
    requires Joined(net, w, s, a) && Used(a, n) && n + 30 < ROOM
    ensures exists b :: StepInBytes(net, w, s, t, a, b) && Joined(net, w, t, b) && Used(b, n + 30)
  {
    hide R.Inv, Joined, Used, ProperState, ClientInBytes, ServerInBytes, ClientMoves, ServerMoves;
    if ClientMoves(w, s, t) {
      ClientSimulated(net, w, s, t, a, n);
      var b :| ClientInBytes(net, w, s, t, a, b) && Joined(net, w, t, b) && Used(b, n + 30);
      assert StepInBytes(net, w, s, t, a, b);
    } else {
      ServerSimulated(net, w, s, t, a, n);
      var b :| ServerInBytes(net, w, s, t, a, b) && Joined(net, w, t, b) && Used(b, n + 30);
      assert StepInBytes(net, w, s, t, a, b);
    }
  }
}
