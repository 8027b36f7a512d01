/**
 The shared listener of internal/listenermux/listenermux.go as a state machine.

 A step is one atomic section of one goroutine: Serve, the one Close that wins
 the sync.Once, a classifier (route), or a caller of a sub-listener's Accept.
 Any enabled step may come next. Connections are distinct numbers.
 */
module Mux {
  type Conn = nat

  datatype Protocol = Http | Grpc

  /** Where the classifier of one connection stands. */
  datatype Pc =
    | Sniffing                                   // reading the first bytes
    | Sniffed(target: Protocol, ok: bool)        // about to leave the pending set
    | Relinquished(target: Protocol, ok: bool)   // about to hand over or close
    | Finished

  datatype Serve =
    | Accepting
    | Holding(conn: Conn)      // accepted, not yet under the lock
    | Rejecting(conn: Conn)    // saw the mux closed
    | Registered(conn: Conn)   // in the pending set, classifier not yet started
    | Stopping                 // Accept failed: deferred Close
    | Waiting                  // workers.Wait
    | Returned

  /** How far the one effective Close has come. */
  datatype Closing = Open | Flagged | ListenerClosed | Swept

  /** What happens to connections, in order. */
  datatype Action =
    | Accepted(conn: Conn)
    | Judged(conn: Conn, target: Protocol, ok: bool)
    | Closed(conn: Conn)
    | Left(conn: Conn)     // left the pending set
    | Handed(conn: Conn, to: Protocol)
    | Shutdown
    | SweepBegun

  datatype State = State(
    serve: Serve,
    closing: Closing,
    pending: set<Conn>,
    workers: map<Conn, Pc>,
    subClosed: set<Protocol>,
    accepting: multiset<Protocol>,   // Accept calls that wait on a sub-listener
    log: seq<Action>)

  const START := State(Accepting, Open, {}, map[], {}, multiset{}, [])

  datatype Label =
    | Accept(conn: Conn)
    | AcceptFails
    | Lock                                       // register or see the mux closed
    | Reject
    | Spawn
    | AwaitClose
    | AwaitWorkers
    | Flag                                       // close(m.done)
    | CloseListener
    | Sweep(order: seq<Conn>)
    | Sniff(conn: Conn, target: Protocol, ok: bool)
    | Relinquish(conn: Conn)
    | HandOff(conn: Conn)
    | CloseConn(conn: Conn)
    | SubAccept(to: Protocol)
    | SubAcceptFails(to: Protocol)
    | SubClose(to: Protocol)

  predicate At(s: State, c: Conn, pc: Pc) {
    c in s.workers && s.workers[c] == pc
  }

  predicate IsRelinquished(s: State, c: Conn) {
    c in s.workers && s.workers[c].Relinquished?
  }

  /** The sweep ranges over the pending map in any order. */
  predicate Ranges(order: seq<Conn>, pending: set<Conn>) {
    && (forall c | c in order :: c in pending) && (forall c | c in pending :: c in order)
    && forall i, j | 0 <= i < j < |order| :: order[i] != order[j]
  }

  predicate Enabled(s: State, l: Label) {
    match l
    case Accept(c) => s.serve == Accepting && (s.closing == Open || s.closing == Flagged)
    case AcceptFails => s.serve == Accepting
    case Lock => s.serve.Holding?
    case Reject => s.serve.Rejecting?
    case Spawn => s.serve.Registered?
    case AwaitClose => s.serve == Stopping && s.closing == Swept
    case AwaitWorkers => s.serve == Waiting && forall c | c in s.workers :: s.workers[c] == Finished
    case Flag => s.closing == Open
    case CloseListener => s.closing == Flagged
    case Sweep(order) => s.closing == ListenerClosed && Ranges(order, s.pending)
    case Sniff(c, target, ok) => At(s, c, Sniffing)
    case Relinquish(c) => c in s.workers && s.workers[c].Sniffed?
    case HandOff(c) => IsRelinquished(s, c) && s.workers[c].ok && s.workers[c].target in s.accepting
    case CloseConn(c) =>
      IsRelinquished(s, c) && (s.workers[c].ok ==> s.workers[c].target in s.subClosed || s.closing != Open)
    case SubAccept(to) => true
    case SubAcceptFails(to) => to in s.accepting && (to in s.subClosed || s.closing != Open)
    case SubClose(to) => true
  }

  /** The listener yields every connection once. */
  predicate Fresh(s: State, l: Label) {
    l.Accept? ==> Accepted(l.conn) !in s.log
  }

  function Closes(order: seq<Conn>): (actions: seq<Action>)
    ensures |actions| == |order| && forall i | 0 <= i < |order| :: actions[i] == Closed(order[i])
  {
    seq(|order|, i requires 0 <= i < |order| => Closed(order[i]))
  }

  function Apply(s: State, l: Label): State
    requires Enabled(s, l)
  {
    match l
    case Accept(c) => s.(serve := Holding(c), log := s.log + [Accepted(c)])
    case AcceptFails => s.(serve := Stopping)
    case Lock =>
      var c := s.serve.conn;
      if s.closing != Open then s.(serve := Rejecting(c))
      else s.(serve := Registered(c), pending := s.pending + {c})
    case Reject => s.(serve := Accepting, log := s.log + [Closed(s.serve.conn)])
    case Spawn => s.(serve := Accepting, workers := s.workers[s.serve.conn := Sniffing])
    case AwaitClose => s.(serve := Waiting)
    case AwaitWorkers => s.(serve := Returned)
    case Flag => s.(closing := Flagged, log := s.log + [Shutdown])
    case CloseListener => s.(closing := ListenerClosed)
    case Sweep(order) => s.(closing := Swept, log := s.log + [SweepBegun] + Closes(order))
    case Sniff(c, target, ok) =>
      s.(workers := s.workers[c := Sniffed(target, ok)], log := s.log + [Judged(c, target, ok)])
    case Relinquish(c) =>
      var pc := s.workers[c];
      s.(workers := s.workers[c := Relinquished(pc.target, pc.ok)], pending := s.pending - {c}, log := s.log
          + [Left(c)])
    case HandOff(c) =>
      var to := s.workers[c].target;
      s.(workers := s.workers[c := Finished], accepting := s.accepting - multiset{to}, log := s.log + [Handed(c, to)])
    case CloseConn(c) => s.(workers := s.workers[c := Finished], log := s.log + [Closed(c)])
    case SubAccept(to) => s.(accepting := s.accepting + multiset{to})
    case SubAcceptFails(to) => s.(accepting := s.accepting - multiset{to})
    case SubClose(to) => s.(subClosed := s.subClosed + {to})
  }

  /** The run is possible from `s` and ends in `end`. */
  ghost predicate Runs(s: State, run: seq<Label>, end: State)
    decreases run
  {
    if run == [] then end == s
    else Enabled(s, run[0]) && Fresh(s, run[0]) && Runs(Apply(s, run[0]), run[1..], end)
  }

  ghost predicate Reachable(s: State) {
    exists run :: Runs(START, run, s)
  }

  // ----- What the log tells

  datatype Facts = Facts(
    accepted: set<Conn>,
    judged: set<(Conn, Protocol)>,
    closed: set<Conn>,
    handed: set<Conn>,
    late: set<Conn>,       // left the pending set after the sweep
    shutdown: bool,
    swept: bool)

  function Learn(f: Facts, a: Action): Facts {
    match a
    case Accepted(c) => f.(accepted := f.accepted + {c})
    case Judged(c, target, ok) => if ok then f.(judged := f.judged + {(c, target)}) else f
    case Closed(c) => f.(closed := f.closed + {c})
    case Left(c) => if f.swept then f.(late := f.late + {c}) else f
    case Handed(c, _) => f.(handed := f.handed + {c})
    case Shutdown => f.(shutdown := true)
    case SweepBegun => f.(swept := true)
  }

  function Told(log: seq<Action>): Facts {
    if log == [] then Facts({}, {}, {}, {}, {}, false, false)
    else Learn(Told(log[..|log| - 1]), log[|log| - 1])
  }

  lemma ToldMore(log: seq<Action>, a: Action)
    ensures Told(log + [a]) == Learn(Told(log), a)
  {
    assert (log + [a])[..|log|] == log;
  }

  predicate Handing(a: Action, c: Conn) { a.Handed? && a.conn == c }

  predicate Touches(a: Action, c: Conn) { (a.Handed? || a.Closed?) && a.conn == c }

  /** The connection left the pending set when the sweep had begun. */
  ghost predicate LeftLate(log: seq<Action>, c: Conn) {
    exists i, k | 0 <= i < k < |log| :: log[i] == SweepBegun && log[k] == Left(c)
  }

  lemma {:induction false} ToldExact(log: seq<Action>, c: Conn)
    ensures c in Told(log).accepted <==> Accepted(c) in log
    ensures c in Told(log).closed <==> Closed(c) in log
    ensures forall p :: (c, p) in Told(log).judged <==> Judged(c, p, true) in log
    ensures Told(log).swept <==> SweepBegun in log
    decreases log
  {
    if log != [] {
      var init, last := log[..|log| - 1], log[|log| - 1];
      ToldExact(init, c);
      assert log == init + [last];
    }
  }

  lemma {:induction false} HandedExact(log: seq<Action>, c: Conn)
    ensures c in Told(log).handed <==> exists i | 0 <= i < |log| :: Handing(log[i], c)
    decreases log
  {
    if log != [] {
      var init, last := log[..|log| - 1], log[|log| - 1];
      HandedExact(init, c);
      if i :| 0 <= i < |log| && Handing(log[i], c) {
        assert i < |init| ==> Handing(init[i], c);
      } else {
        assert forall i | 0 <= i < |init| :: Handing(init[i], c) == Handing(log[i], c);
      }
    }
  }

  lemma {:induction false} LateExact(log: seq<Action>, c: Conn)
    ensures c in Told(log).late <==> LeftLate(log, c)
    decreases log
  {
    if log != [] {
      var init, last := log[..|log| - 1], log[|log| - 1];
      ToldExact(init, c);
      LateExact(init, c);
      LateMore(init, last, c);
      assert log == init + [last];
    }
  }

  lemma LateMore(log: seq<Action>, a: Action, c: Conn)
    ensures LeftLate(log + [a], c) <==> LeftLate(log, c) || (a == Left(c) && SweepBegun in log)
  {
    var more := log + [a];
    assert forall i | 0 <= i < |log| :: more[i] == log[i];
    if LeftLate(more, c) {
      var i, k :| 0 <= i < k < |more| && more[i] == SweepBegun && more[k] == Left(c);
      assert log[i] == SweepBegun;
      if k < |log| {
        assert log[k] == Left(c);
      }
    } else if i :| 0 <= i < |log| && log[i] == SweepBegun {
      assert more[i] == SweepBegun && more[|log|] == a;
    }
  }

  lemma ClosesMore(log: seq<Action>, order: seq<Conn>)
    requires order != []
    ensures var (init, last) := (order[..|order| - 1], order[|order| - 1]);
            && log + Closes(order) == log + Closes(init) + [Closed(last)]
            && (set c | c in order) == (set c | c in init) + {last}
  {
    var init, last := order[..|order| - 1], order[|order| - 1];
    assert order == init + [last];
    assert Closes(order) == Closes(init) + [Closed(last)];
  }

  lemma {:induction false} ToldCloses(log: seq<Action>, order: seq<Conn>)
    ensures Told(log + Closes(order)) == Told(log).(closed := Told(log).closed + set c | c in order)
    decreases order
  {
    hide Told;
    if order == [] {
      assert log + Closes(order) == log;
    } else {
      var init, last := order[..|order| - 1], order[|order| - 1];
      ToldCloses(log, init);
      ClosesMore(log, order);
      ToldMore(log + Closes(init), Closed(last));
    }
  }

  // ----- The invariant

  predicate Pends(pc: Pc) { pc.Sniffing? || pc.Sniffed? }

  predicate WithServe(s: State, c: Conn) {
    (s.serve.Holding? || s.serve.Rejecting? || s.serve.Registered?) && s.serve.conn == c
  }

  /** What holds of one connection. */
  predicate ConnTrue(s: State, f: Facts, c: Conn) {
    // It is with Serve, with one classifier, or was turned away.
    && (c in s.pending <==> s.serve == Registered(c) || (c in s.workers && Pends(s.workers[c])))
    && (WithServe(s, c) ==> c !in s.workers && c in f.accepted)
    && (c in s.workers || c in f.closed || c in f.late ==> c in f.accepted)
    && (c in f.accepted ==> WithServe(s, c) || c in s.workers || c in f.closed)
    // Its classifier is finished when it was handed over, and then or when it was closed.
    && (At(s, c, Finished) ==> c in f.closed || c in f.handed)
    && (c in f.handed ==> At(s, c, Finished))
    && (s.serve == Returned && c in s.workers ==> s.workers[c] == Finished)
    && (c in s.workers && (s.workers[c].Sniffed? || s.workers[c].Relinquished?) && s.workers[c].ok ==>
          (c, s.workers[c].target) in f.judged)
    // Pending, it is closed exactly by the sweep; taken out of the set, exactly if that was late.
    && (s.serve == Holding(c) || s.serve == Rejecting(c) ==> c !in f.closed && c !in f.late)
    && (c in s.pending ==> (c in f.closed <==> f.swept) && c !in f.late)
    && (IsRelinquished(s, c) ==> (c in f.closed <==> c in f.late))
  }

  predicate ClosingTrue(s: State, f: Facts) {
    && (s.closing != Open <==> f.shutdown)
    && (s.closing == Swept <==> f.swept)
    && (s.serve == Waiting || s.serve == Returned ==> s.closing == Swept)
    && (s.serve.Rejecting? ==> s.closing != Open)
  }

  /** Nothing happens to a connection after it was handed over. */
  ghost predicate HandedLast(log: seq<Action>) {
    forall i, j, c | 0 <= i < j < |log| && Handing(log[i], c) :: !Touches(log[j], c)
  }

  /** A connection is handed to the protocol its first bytes showed, and open unless it left the pending set late. */
  ghost predicate HandedRight(log: seq<Action>) {
    forall j | 0 <= j < |log| && log[j].Handed? ::
      && (log[j].conn, log[j].to) in Told(log[..j]).judged
      && (log[j].conn in Told(log[..j]).closed <==> log[j].conn in Told(log[..j]).late)
  }

  ghost predicate Inv(s: State) {
    var f := Told(s.log);
    && StateInv(s, f)
    && HandedLast(s.log) && HandedRight(s.log)
  }

  function FactsAfter(s: State, f: Facts, l: Label): Facts
    requires Enabled(s, l)
  {
    match l
    case Accept(c) => Learn(f, Accepted(c))
    case Reject => Learn(f, Closed(s.serve.conn))
    case Flag => Learn(f, Shutdown)
    case Sweep(order) => f.(swept := true, closed := f.closed + set c | c in order)
    case Relinquish(c) => Learn(f, Left(c))
    case Sniff(c, target, ok) => Learn(f, Judged(c, target, ok))
    case HandOff(c) => Learn(f, Handed(c, s.workers[c].target))
    case CloseConn(c) => Learn(f, Closed(c))
    case _ => f
  }

  lemma FactsStep(s: State, l: Label)
    requires Enabled(s, l)
    ensures Told(Apply(s, l).log) == FactsAfter(s, Told(s.log), l)
  {
    hide Told;
    match l {
      case Sweep(order) =>
        ToldMore(s.log, SweepBegun);
        ToldCloses(s.log + [SweepBegun], order);
      case Relinquish(c) => ToldMore(s.log, Left(c));
      case Accept(c) => ToldMore(s.log, Accepted(c));
      case Reject => ToldMore(s.log, Closed(s.serve.conn));
      case Flag => ToldMore(s.log, Shutdown);
      case Sniff(c, target, ok) => ToldMore(s.log, Judged(c, target, ok));
      case HandOff(c) => ToldMore(s.log, Handed(c, s.workers[c].target));
      case CloseConn(c) => ToldMore(s.log, Closed(c));
      case _ =>
    }
  }

  ghost predicate StateInv(s: State, f: Facts) {
    ClosingTrue(s, f) && forall c :: ConnTrue(s, f, c)
  }

  lemma ConnStep(s: State, f: Facts, l: Label, c: Conn)
    requires ClosingTrue(s, f) && ConnTrue(s, f, c) && Enabled(s, l) && (l.Accept? ==> l.conn !in f.accepted)
    ensures ConnTrue(Apply(s, l), FactsAfter(s, f, l), c)
  {
    hide Closes, ConnTrue, ClosingTrue;
    match l {
      case Accept(_) => ServeStep(s, f, l, c);
      case AcceptFails => ServeStep(s, f, l, c);
      case Lock => ServeStep(s, f, l, c);
      case Reject => ServeStep(s, f, l, c);
      case Spawn => ServeStep(s, f, l, c);
      case AwaitClose => ServeStep(s, f, l, c);
      case AwaitWorkers => ServeStep(s, f, l, c);
      case Sniff(_, _, _) => ClassifierStep(s, f, l, c);
      case Relinquish(_) => ClassifierStep(s, f, l, c);
      case HandOff(_) => ClassifierStep(s, f, l, c);
      case CloseConn(_) => ClassifierStep(s, f, l, c);
      case _ => OtherStep(s, f, l, c);
    }
  }

  predicate OfServe(l: Label) {
    l.Accept? || l.AcceptFails? || l.Lock? || l.Reject? || l.Spawn? || l.AwaitClose? || l.AwaitWorkers?
  }

  predicate OfClassifier(l: Label) {
    l.Sniff? || l.Relinquish? || l.HandOff? || l.CloseConn?
  }

  lemma ServeStep(s: State, f: Facts, l: Label, c: Conn)
    requires ClosingTrue(s, f) && ConnTrue(s, f, c) && Enabled(s, l) && (l.Accept? ==> l.conn !in f.accepted)
    requires OfServe(l)
    ensures ConnTrue(Apply(s, l), FactsAfter(s, f, l), c)
  {
    hide Closes, Ranges;
  }

  lemma ClassifierStep(s: State, f: Facts, l: Label, c: Conn)
    requires ClosingTrue(s, f) && ConnTrue(s, f, c) && Enabled(s, l) && OfClassifier(l)
    ensures ConnTrue(Apply(s, l), FactsAfter(s, f, l), c)
  {
    hide Closes, Ranges, ClosingTrue;
  }

  lemma OtherStep(s: State, f: Facts, l: Label, c: Conn)
    requires ClosingTrue(s, f) && ConnTrue(s, f, c) && Enabled(s, l) && !OfServe(l) && !OfClassifier(l)
    ensures ConnTrue(Apply(s, l), FactsAfter(s, f, l), c)
  {
    hide Closes;
  }

  lemma StateStep(s: State, f: Facts, l: Label)
    requires StateInv(s, f) && Enabled(s, l) && (l.Accept? ==> l.conn !in f.accepted)
    ensures StateInv(Apply(s, l), FactsAfter(s, f, l))
  {
    hide ConnTrue, At, Ranges, Closes;
    forall c ensures ConnTrue(Apply(s, l), FactsAfter(s, f, l), c) {
      ConnStep(s, f, l, c);
    }
  }

  lemma LogGrows(log: seq<Action>, a: Action)
    requires HandedLast(log) && HandedRight(log)
    requires a.Handed? || a.Closed? ==> a.conn !in Told(log).handed
    requires a.Handed? ==>
               (a.conn, a.to) in Told(log).judged && (a.conn in Told(log).closed <==> a.conn in Told(log).late)
    ensures HandedLast(log + [a]) && HandedRight(log + [a])
  {
    hide Told;
    var more := log + [a];
    if a.Handed? || a.Closed? {
      HandedExact(log, a.conn);
    }
    assert more[..|log|] == log;
    assert forall j | 0 <= j < |log| :: more[j] == log[j] && more[..j] == log[..j];
  }

  lemma {:induction false} ClosesGrow(log: seq<Action>, order: seq<Conn>)
    requires HandedLast(log) && HandedRight(log)
    requires forall c | c in order :: c !in Told(log).handed
    ensures HandedLast(log + Closes(order)) && HandedRight(log + Closes(order))
    decreases order
  {
    hide HandedLast, HandedRight, Told;
    if order == [] {
      assert log + Closes(order) == log;
    } else {
      var init, last := order[..|order| - 1], order[|order| - 1];
      ClosesGrow(log, init);
      ToldCloses(log, init);
      ClosesMore(log, order);
      LogGrows(log + Closes(init), Closed(last));
    }
  }

  lemma LogStep(s: State, l: Label)
    requires Inv(s) && Enabled(s, l)
    ensures var t := Apply(s, l); HandedLast(t.log) && HandedRight(t.log)
  {
    hide HandedLast, HandedRight, Told;
    var f := Told(s.log);
    match l {
      case Sweep(order) =>
        LogGrows(s.log, SweepBegun);
        ToldMore(s.log, SweepBegun);
        assert forall c | c in order :: ConnTrue(s, f, c);
        ClosesGrow(s.log + [SweepBegun], order);
      case Relinquish(c) => LogGrows(s.log, Left(c));
      case Accept(c) => LogGrows(s.log, Accepted(c));
      case Reject =>
        assert ConnTrue(s, f, s.serve.conn);
        LogGrows(s.log, Closed(s.serve.conn));
      case Flag => LogGrows(s.log, Shutdown);
      case Sniff(c, target, ok) => LogGrows(s.log, Judged(c, target, ok));
      case HandOff(c) =>
        assert ConnTrue(s, f, c);
        LogGrows(s.log, Handed(c, s.workers[c].target));
      case CloseConn(c) =>
        assert ConnTrue(s, f, c);
        LogGrows(s.log, Closed(c));
      case _ =>
    }
  }

  lemma {:induction false} RunKeepsInv(s: State, run: seq<Label>, end: State)
    requires Inv(s) && Runs(s, run, end)
    ensures Inv(end)
    decreases run
  {
    hide Apply, StateInv, HandedLast, HandedRight, Told, FactsAfter;
    if run != [] {
      var f := Told(s.log);
      if run[0].Accept? {
        ToldExact(s.log, run[0].conn);
      }
      FactsStep(s, run[0]);
      StateStep(s, f, run[0]);
      LogStep(s, run[0]);
      RunKeepsInv(Apply(s, run[0]), run[1..], end);
    }
  }

  lemma ReachableInv(s: State)
    requires Reachable(s)
    ensures Inv(s)
  {
    assert Inv(START);
    var run :| Runs(START, run, s);
    RunKeepsInv(START, run, s);
  }

  lemma ReachableConn(s: State, c: Conn)
    requires Reachable(s)
    ensures ClosingTrue(s, Told(s.log)) && ConnTrue(s, Told(s.log), c)
  {
    hide Reachable, Told, ConnTrue, ClosingTrue;
    ReachableInv(s);
  }

  // ----- Over every interleaving

  /** A connection handed to a protocol server is handed over once and never closed afterwards. */
  lemma HandedOnceAndKept(s: State, i: nat, j: nat, c: Conn)
    requires Reachable(s) && i < j < |s.log| && Handing(s.log[i], c)
    ensures !Handing(s.log[j], c) && s.log[j] != Closed(c)
  {
    ReachableInv(s);
    assert !Touches(s.log[j], c);
  }

  /** It goes to the server that its first bytes asked for. */
  lemma HandedAsJudged(s: State, j: nat)
    requires Reachable(s) && j < |s.log| && s.log[j].Handed?
    ensures Judged(s.log[j].conn, s.log[j].to, true) in s.log[..j]
  {
    ReachableInv(s);
    ToldExact(s.log[..j], s.log[j].conn);
  }

  /**
   A connection that is handed over has been closed before exactly if the sweep
   began before its classifier took it out of the pending set.
   */
  lemma HandedClosedExactly(s: State, j: nat)
    requires Reachable(s) && j < |s.log| && s.log[j].Handed?
    ensures Closed(s.log[j].conn) in s.log[..j] <==> LeftLate(s.log[..j], s.log[j].conn)
  {
    hide LeftLate;
    ReachableInv(s);
    ToldExact(s.log[..j], s.log[j].conn);
    LateExact(s.log[..j], s.log[j].conn);
  }

  /** After the sweep, every connection that is still pending has been closed. */
  lemma SweptPendingClosed(s: State, c: Conn)
    requires Reachable(s) && s.closing == Swept && c in s.pending
    ensures Closed(c) in s.log
  {
    hide Reachable, Told;
    ReachableConn(s, c);
    ToldExact(s.log, c);
  }

  /** When Serve returns, nothing is pending and every accepted connection was handed over or closed. */
  lemma NothingLeft(s: State, c: Conn)
    requires Reachable(s) && s.serve == Returned
    ensures c !in s.pending
    ensures Accepted(c) in s.log ==> Closed(c) in s.log || exists i | 0 <= i < |s.log| :: Handing(s.log[i], c)
  {
    hide Reachable, Told;
    ReachableConn(s, c);
    ToldExact(s.log, c);
    HandedExact(s.log, c);
  }

  /**
   A connection can be handed over after it was closed: its classifier had its
   verdict, but still held it in the pending set, when the sweep closed it.
   */
  lemma HandedAfterSweep() returns (s: State)
    ensures Reachable(s)
            && s.log == [Accepted(7), Judged(7, Http, true), Shutdown, SweepBegun, Closed(7), Left(7), Handed(7, Http)]
  {
    hide Runs;
    var mid := State(Accepting, Flagged, {7}, map[7 := Sniffed(Http, true)], {}, multiset{Http},
                     [Accepted(7), Judged(7, Http, true), Shutdown]);
    var run1 := [Accept(7), Lock, Spawn, Sniff(7, Http, true), SubAccept(Http), Flag];
    var run2 := [CloseListener, Sweep([7]), Relinquish(7), HandOff(7)];
    SniffedRun(run1, mid);
    s := SweepRun(run2, mid);
    RunsJoin(START, run1, mid, run2, s);
  }

  lemma SniffedRun(run: seq<Label>, mid: State)
    requires run == [Accept(7), Lock, Spawn, Sniff(7, Http, true), SubAccept(Http), Flag]
    requires mid == State(Accepting, Flagged, {7}, map[7 := Sniffed(Http, true)], {}, multiset{Http},
                          [Accepted(7), Judged(7, Http, true), Shutdown])
    ensures Runs(START, run, mid)
  {
    hide Told;
    var s1 := Apply(START, run[0]);
    var s2 := Apply(s1, run[1]);
    var s3 := Apply(s2, run[2]);
    var s4 := Apply(s3, run[3]);
    var s5 := Apply(s4, run[4]);
    assert Apply(s5, run[5]) == mid;
    assert run[1..][1..] == run[2..] && run[2..][1..] == run[3..] && run[3..][1..] == run[4..];
    assert run[4..][1..] == run[5..] && run[5..][1..] == [];
    assert Runs(s5, run[5..], mid);
    assert Runs(s4, run[4..], mid);
    assert Runs(s3, run[3..], mid);
    assert Runs(s2, run[2..], mid);
    assert Runs(s1, run[1..], mid);
  }

  lemma SweepRun(run: seq<Label>, mid: State) returns (s: State)
    requires run == [CloseListener, Sweep([7]), Relinquish(7), HandOff(7)]
    requires mid == State(Accepting, Flagged, {7}, map[7 := Sniffed(Http, true)], {}, multiset{Http},
                          [Accepted(7), Judged(7, Http, true), Shutdown])
    ensures Runs(mid, run, s)
    ensures s.log == [Accepted(7), Judged(7, Http, true), Shutdown, SweepBegun, Closed(7), Left(7), Handed(7, Http)]
  {
    hide Told;
    var s1 := mid.(closing := ListenerClosed);
    assert Apply(mid, run[0]) == s1 && Ranges([7], s1.pending);
    assert Closes([7]) == [Closed(7)];
    var s2 := s1.(closing := Swept, log := s1.log + [SweepBegun, Closed(7)]);
    assert Apply(s1, run[1]) == s2;
    var s3 := Apply(s2, run[2]);
    s := Apply(s3, run[3]);
    assert run[1..][1..] == run[2..] && run[2..][1..] == run[3..] && run[3..][1..] == [];
    assert Runs(s3, run[3..], s);
    assert Runs(s2, run[2..], s);
    assert Runs(s1, run[1..], s);
  }

  lemma {:induction false} RunsJoin(s: State, run1: seq<Label>, mid: State, run2: seq<Label>, end: State)
    requires Runs(s, run1, mid) && Runs(mid, run2, end)
    ensures Runs(s, run1 + run2, end)
    decreases run1
  {
    hide Apply, Enabled;
    if run1 == [] {
      assert run1 + run2 == run2;
    } else {
      assert (run1 + run2)[1..] == run1[1..] + run2;
      RunsJoin(Apply(s, run1[0]), run1[1..], mid, run2, end);
    }
  }

  // ----- Shutdown

  function Rank(pc: Pc): nat {
    match pc
    case Sniffing => 3
    case Sniffed(_, _) => 2
    case Relinquished(_, _) => 1
    case Finished => 0
  }

  /** The classifiers that have `k` steps to go. */
  function Stage(workers: map<Conn, Pc>, k: nat): set<Conn> {
    set c | c in workers && Rank(workers[c]) == k
  }

  function ServeRank(serve: Serve): nat {
    match serve
    case Holding(_) => 9
    case Rejecting(_) => 4
    case Registered(_) => 7
    case Accepting => 3
    case Stopping => 2
    case Waiting => 1
    case Returned => 0
  }

  function WorkLeft(workers: map<Conn, Pc>): nat {
    3 * |Stage(workers, 3)| + 2 * |Stage(workers, 2)| + |Stage(workers, 1)|
  }

  function ClosingRank(closing: Closing): nat {
    match closing
    case Open => 3
    case Flagged => 2
    case ListenerClosed => 1
    case Swept => 0
  }

  /** A bound on the steps that Serve, Close and the classifiers can still take once a shutdown has begun. */
  function StepsLeft(s: State): nat {
    ServeRank(s.serve) + WorkLeft(s.workers) + ClosingRank(s.closing)
  }

  /** A step of Serve, Close or a classifier. */
  predicate Internal(l: Label) {
    l.CloseListener? || l.Sweep?
    || l.AcceptFails? || l.Lock? || l.Reject? || l.Spawn? || l.AwaitClose? || l.AwaitWorkers?
    || l.Sniff? || l.Relinquish? || l.HandOff? || l.CloseConn?
  }

  lemma StageAfter(workers: map<Conn, Pc>, c: Conn, pc: Pc, k: nat)
    ensures Stage(workers[c := pc], k) == if k == Rank(pc) then Stage(workers, k) + {c} else Stage(workers, k) - {c}
  {
    hide Rank;
  }

  lemma StageMoves(workers: map<Conn, Pc>, c: Conn, pc: Pc, k: nat)
    requires c in workers && Rank(workers[c]) > Rank(pc)
    ensures |Stage(workers[c := pc], k)| ==
            |Stage(workers, k)| + (if k == Rank(pc) then 1 else 0) - (if k == Rank(workers[c]) then 1 else 0)
  {
    assert c in Stage(workers, k) <==> k == Rank(workers[c]);
    StageAfter(workers, c, pc, k);
    CardinalityChanges(Stage(workers, k), c);
  }

  lemma CardinalityChanges(s: set<Conn>, c: Conn)
    ensures c !in s ==> |s + {c}| == |s| + 1 && s - {c} == s
    ensures c in s ==> |s - {c}| == |s| - 1 && s + {c} == s
  {
  }

  lemma WorkMoves(workers: map<Conn, Pc>, c: Conn, pc: Pc)
    requires c in workers && Rank(workers[c]) > Rank(pc)
    ensures WorkLeft(workers[c := pc]) < WorkLeft(workers)
  {
    hide Stage;
    StageMoves(workers, c, pc, 1);
    StageMoves(workers, c, pc, 2);
    StageMoves(workers, c, pc, 3);
  }

  lemma WorkStarts(workers: map<Conn, Pc>, c: Conn)
    requires c !in workers
    ensures WorkLeft(workers[c := Sniffing]) == WorkLeft(workers) + 3
  {
    StageAfter(workers, c, Sniffing, 1);
    StageAfter(workers, c, Sniffing, 2);
    StageAfter(workers, c, Sniffing, 3);
    CardinalityChanges(Stage(workers, 1), c);
    CardinalityChanges(Stage(workers, 2), c);
    CardinalityChanges(Stage(workers, 3), c);
  }

  /** Once a shutdown has begun, every step of Serve, Close and the classifiers uses up one of those left. */
  lemma StepUsed(s: State, l: Label)
    requires Reachable(s) && s.closing != Open && Internal(l) && Enabled(s, l)
    ensures Apply(s, l).closing != Open && StepsLeft(Apply(s, l)) < StepsLeft(s)
  {
    hide WorkLeft, Reachable, Ranges, Closes;
    var t := Apply(s, l);
    match l {
      case Spawn =>
        ReachableConn(s, s.serve.conn);
        WorkStarts(s.workers, s.serve.conn);
      case Sniff(c, _, _) => WorkMoves(s.workers, c, t.workers[c]);
      case Relinquish(c) => WorkMoves(s.workers, c, t.workers[c]);
      case HandOff(c) => WorkMoves(s.workers, c, t.workers[c]);
      case CloseConn(c) => WorkMoves(s.workers, c, t.workers[c]);
      case _ =>
    }
  }

  function InternalSteps(run: seq<Label>): nat {
    if run == [] then 0 else (if Internal(run[0]) then 1 else 0) + InternalSteps(run[1..])
  }

  lemma {:induction false} ReachableOn(s: State, l: Label)
    requires Reachable(s) && Enabled(s, l) && Fresh(s, l)
    ensures Reachable(Apply(s, l))
  {
    hide Apply, Enabled;
    var run :| Runs(START, run, s);
    assert Runs(s, [l], Apply(s, l)) by {
      assert [l][1..] == [];
      assert Runs(Apply(s, l), [], Apply(s, l));
    }
    RunsJoin(START, run, s, [l], Apply(s, l));
  }

  function Accepts(run: seq<Label>): nat {
    if run == [] then 0 else (if run[0].Accept? then 1 else 0) + Accepts(run[1..])
  }

  /**
   Once a shutdown has begun, no run lets them take more steps than they have
   left, and six for every connection that the listener yields before it is closed.
   */
  lemma {:induction false} ShutdownBounded(s: State, run: seq<Label>, end: State)
    requires Reachable(s) && s.closing != Open && Runs(s, run, end)
    ensures end.closing != Open && InternalSteps(run) + StepsLeft(end) <= StepsLeft(s) + 6 * Accepts(run)
    ensures s.closing != Flagged ==> Accepts(run) == 0
    decreases run
  {
    if run != [] {
      hide StepsLeft, Apply, Enabled, Reachable;
      ReachableOn(s, run[0]);
      if Internal(run[0]) {
        StepUsed(s, run[0]);
      } else {
        StepOutside(s, run[0]);
      }
      ClosedStays(s, run[0]);
      ShutdownBounded(Apply(s, run[0]), run[1..], end);
    }
  }

  lemma StepOutside(s: State, l: Label)
    requires s.closing != Open && !Internal(l) && Enabled(s, l)
    ensures Apply(s, l).closing == s.closing
    ensures StepsLeft(Apply(s, l)) == StepsLeft(s) + if l.Accept? then 6 else 0
  {
    hide WorkLeft;
  }

  lemma ClosedStays(s: State, l: Label)
    requires s.closing != Open && Enabled(s, l)
    ensures Apply(s, l).closing != Open
    ensures s.closing != Flagged ==> !l.Accept? && Apply(s, l).closing != Flagged
  {
  }

  /** A set can be gone through in some order. */
  lemma {:induction false} SomeOrder(pending: set<Conn>) returns (order: seq<Conn>)
    ensures Ranges(order, pending)
  {
    if pending == {} {
      return [];
    }
    var c :| c in pending;
    var rest := SomeOrder(pending - {c});
    return [c] + rest;
  }

  /** No one is stuck in a shutdown: until Serve has returned, Serve, Close or a classifier can move. */
  lemma NeverStuck(s: State) returns (l: Label)
    requires Reachable(s) && s.closing != Open && s.serve != Returned
    ensures Internal(l) && Enabled(s, l)
  {
    if s.closing == Flagged {
      return CloseListener;
    } else if s.closing == ListenerClosed {
      var order := SomeOrder(s.pending);
      return Sweep(order);
    }
    match s.serve {
      case Accepting => return AcceptFails;
      case Holding(_) => return Lock;
      case Rejecting(_) => return Reject;
      case Registered(_) => return Spawn;
      case Stopping => return AwaitClose;
      case Waiting =>
        if c :| c in s.workers && s.workers[c] != Finished {
          match s.workers[c] {
            case Sniffing => return Sniff(c, Http, false);
            case Sniffed(_, _) => return Relinquish(c);
            case Relinquished(_, _) => return CloseConn(c);
          }
        }
        return AwaitWorkers;
    }
  }

  // ----- Accept calls on the sub-listeners

  lemma {:induction false} ClosingTold(s: State, run: seq<Label>, end: State, to: Protocol)
    requires Runs(s, run, end)
    ensures end.closing != Open <==> s.closing != Open || Flag in run
    ensures to in end.subClosed <==> to in s.subClosed || SubClose(to) in run
    decreases run
  {
    if run != [] {
      ClosingTold(Apply(s, run[0]), run[1..], end, to);
      assert run == [run[0]] + run[1..];
    }
  }

  /** A waiting Accept call can fail exactly when the shared listener or its own has been closed. */
  lemma AcceptFailsExactly(run: seq<Label>, s: State, to: Protocol)
    requires Runs(START, run, s)
    ensures Enabled(s, SubAcceptFails(to)) <==> to in s.accepting && (Flag in run || SubClose(to) in run)
  {
    hide Runs;
    ClosingTold(START, run, s, to);
  }

  /** No Accept call waits on `to` any more. */
  function Released(s: State, to: Protocol): State {
    s.(accepting := s.accepting[to := 0])
  }

  /** Steps that only let Accept calls on `to` fail lead from one state to the other. */
  ghost predicate OnlyReturns(s: State, to: Protocol, run: seq<Label>, end: State) {
    Runs(s, run, end) && forall l | l in run :: l == SubAcceptFails(to)
  }

  /** Once one of them is closed, all of its waiting Accept calls can return, whatever else happens or does not. */
  lemma {:induction false} AcceptsReturn(s: State, to: Protocol)
    requires s.closing != Open || to in s.subClosed
    ensures exists run :: OnlyReturns(s, to, run, Released(s, to))
    decreases s.accepting[to]
  {
    if to !in s.accepting {
      assert s.accepting[to := 0] == s.accepting;
      assert OnlyReturns(s, to, [], Released(s, to));
    } else {
      var next := Apply(s, SubAcceptFails(to));
      AcceptsReturn(next, to);
      assert next.accepting[to := 0] == s.accepting[to := 0];
      var rest :| OnlyReturns(next, to, rest, Released(next, to));
      var run := [SubAcceptFails(to)] + rest;
      assert run[1..] == rest;
      assert OnlyReturns(s, to, run, Released(s, to));
    }
  }
}
