/**
 Reading from a device: GenericReadX in pkg/streamer/streamer.go.

 What the goroutines, the timers and the caller's context do is a script of turns, one for each
 time the loop waits; a matcher is any function from bytes to a span.
 */
module Streamer {
  import opened Bytes

  type Data = seq<byte>

  datatype Span = Span(start: nat, end: nat)

  /** The options; zero and None mean not given. */
  datatype Config = Config(hasMaxDuration: bool, minReadSize: int, maxReadSize: int, expr: Option<Data -> Option<Span>>)

  /** What wakes the loop. Chunks that are already in the channel are taken along in all but one case. */
  datatype Event =
    | Arrive(chunk: Data, queued: seq<Data>)
    | Closed
    | MaxDuration
    | Idle(queued: seq<Data>)
    | Done(queued: seq<Data>)

  /** One turn of the loop: the context may be done before anything is checked. */
  datatype Turn = Turn(doneFirst: Option<seq<Data>>, event: Event)

  datatype Outcome =
    | Invalid
    | Failed(left: Data)
    | BySize(data: Data, left: Data)
    | ByExpr(before: Data, matched: Data, after: Data)
    | ByTime(data: Data)
    | AtEnd(data: Data)
    | Waiting(buffer: Data)
  {
    /** What the caller gets as read. */
    function Delivered(): Data {
      match this
      case BySize(data, _) => data
      case ByExpr(before, matched, _) => before + matched
      case ByTime(data) => data
      case AtEnd(data) => data
      case _ => []
    }

    /** What the caller keeps for the next read. */
    function Left(): Data {
      match this
      case Failed(left) => left
      case BySize(_, left) => left
      case ByExpr(_, _, after) => after
      case Waiting(buffer) => buffer
      case _ => []
    }
  }

  ghost predicate Sane(cfg: Config) {
    cfg.expr.Some? ==> forall d :: cfg.expr.value(d).Some? ==>
        cfg.expr.value(d).value.start <= cfg.expr.value(d).value.end <= |d|
  }

  predicate Accepted(cfg: Config) {
    && (cfg.hasMaxDuration || cfg.minReadSize != 0 || cfg.maxReadSize != 0 || cfg.expr.Some?)
    && cfg.minReadSize >= 0
    && (cfg.maxReadSize > 0 ==> cfg.minReadSize <= cfg.maxReadSize)
  }

  function SplitBytes(data: Data, index: nat): (r: (Data, Data))
    ensures r.0 + r.1 == data && (|data| >= index ==> |r.0| == index)
  {
    if |data| <= index then (data, []) else (data[..index], data[index..])
  }

  /** Whether the bytes at hand end the read. */
  function Enough(cfg: Config, buffer: Data): Option<Outcome>
    requires Sane(cfg)
  {
    if cfg.maxReadSize > 0 && |buffer| >= cfg.maxReadSize then
      var (data, extra) := SplitBytes(buffer, cfg.maxReadSize);
      Some(BySize(data, extra))
    else if cfg.minReadSize > 0 && |buffer| >= cfg.minReadSize then
      var size := if cfg.maxReadSize > 0 && cfg.maxReadSize < |buffer| then cfg.maxReadSize else |buffer|;
      var (data, extra) := SplitBytes(buffer, size);
      Some(BySize(data, extra))
    else if cfg.expr.Some? && cfg.expr.value(buffer).Some? then
      var m := cfg.expr.value(buffer).value;
      Some(ByExpr(buffer[..m.start], buffer[m.start..m.end], buffer[m.end..]))
    else None
  }

  /** What the event takes out of the channel. */
  function Taken(e: Event): Data {
    match e
    case Arrive(chunk, queued) => chunk + Join(queued)
    case Idle(queued) => Join(queued)
    case Done(queued) => Join(queued)
    case _ => []
  }

  /** How an event ends the read, given what there is with what it brings. */
  function Ending(e: Event, buffer: Data): Option<Outcome> {
    match e
    case Arrive(_, _) => None
    case Closed => Some(AtEnd(buffer))
    case MaxDuration => Some(ByTime(buffer))
    case Idle(_) => Some(Failed(buffer))
    case Done(_) => Some(Failed(buffer))
  }

  /** One turn: it ends the read, or brings bytes to go on with. */
  datatype Step = Stop(o: Outcome, taken: Data, used: nat) | Go(taken: Data)

  function One(cfg: Config, buffer: Data, turns: seq<Turn>): (r: Step)
    requires Sane(cfg)
    ensures r.Stop? ==> r.used <= |turns| && !r.o.Invalid?
    ensures r.Go? ==> turns != []
  {
    if turns != [] && turns[0].doneFirst.Some? then
      var taken := Join(turns[0].doneFirst.value);
      Stop(Failed(buffer + taken), taken, 1)
    else if Enough(cfg, buffer).Some? then Stop(Enough(cfg, buffer).value, [], 0)
    else if turns == [] then Stop(Waiting(buffer), [], 0)
    else
      var taken := Taken(turns[0].event);
      var ending := Ending(turns[0].event, buffer + taken);
      if ending.Some? then Stop(ending.value, taken, 1) else Go(taken)
  }

  /** The outcome, the bytes taken from the channel, and how many turns it took. */
  function Run(cfg: Config, buffer: Data, turns: seq<Turn>): (r: (Outcome, Data, nat))
    requires Sane(cfg)
    ensures r.2 <= |turns| && !r.0.Invalid?
    decreases |turns|
  {
    match One(cfg, buffer, turns)
    case Stop(o, taken, used) => (o, taken, used)
    case Go(taken) =>
      var (o, more, n) := Run(cfg, buffer + taken, turns[1..]);
      (o, taken + more, n + 1)
  }

  lemma RunStops(cfg: Config, buffer: Data, turns: seq<Turn>)
    requires Sane(cfg)
    ensures var s := One(cfg, buffer, turns); s.Stop? ==> Run(cfg, buffer, turns) == (s.o, s.taken, s.used)
  {
  }

  lemma RunGoes(cfg: Config, buffer: Data, turns: seq<Turn>)
    requires Sane(cfg)
    ensures var s := One(cfg, buffer, turns);
            s.Go? ==>
              && turns != []
              && Run(cfg, buffer, turns) == After(s.taken, 1, Run(cfg, buffer + s.taken, turns[1..]))
  {
  }

  lemma OneConserves(cfg: Config, buffer: Data, turns: seq<Turn>)
    requires Sane(cfg) && One(cfg, buffer, turns).Stop?
    ensures var s := One(cfg, buffer, turns); s.o.Delivered() + s.o.Left() == buffer + s.taken
  {
    hide Enough, Taken, Ending, Sane, Join;
    assert buffer + [] == buffer && [] + buffer == buffer;
    if turns != [] && turns[0].doneFirst.Some? {
      var taken := Join(turns[0].doneFirst.value);
      assert [] + (buffer + taken) == buffer + taken;
    } else if Enough(cfg, buffer).Some? {
      EnoughConserves(cfg, buffer);
    } else if turns != [] {
      EndingConserves(turns[0].event, buffer + Taken(turns[0].event));
    }
  }

  /** No byte is lost, invented or moved: delivered and left over make up what was held and what was taken. */
  lemma {:induction false} Conserved(cfg: Config, buffer: Data, turns: seq<Turn>)
    requires Sane(cfg)
    ensures var (o, taken, _) := Run(cfg, buffer, turns); o.Delivered() + o.Left() == buffer + taken
    decreases |turns|
  {
    hide One, Sane, Outcome.Delivered, Outcome.Left;
    var step := One(cfg, buffer, turns);
    if step.Stop? {
      OneConserves(cfg, buffer, turns);
    } else {
      Conserved(cfg, buffer + step.taken, turns[1..]);
      var (_, more, _) := Run(cfg, buffer + step.taken, turns[1..]);
      assert buffer + step.taken + more == buffer + (step.taken + more);
    }
  }

  /** What a turn takes out of the channel, whether the read is cancelled first or an event comes. */
  function Brings(t: Turn): Data {
    if t.doneFirst.Some? then Join(t.doneFirst.value) else Taken(t.event)
  }

  function BroughtAll(turns: seq<Turn>): Data {
    if turns == [] then [] else Brings(turns[0]) + BroughtAll(turns[1..])
  }

  /** The bytes a read takes from the channel are all those that its turns bring, in order. */
  lemma {:induction false} TakenIsBrought(cfg: Config, buffer: Data, turns: seq<Turn>)
    requires Sane(cfg)
    ensures var r := Run(cfg, buffer, turns); r.1 == BroughtAll(turns[..r.2])
    decreases |turns|
  {
    hide One, Sane, Brings;
    var step := One(cfg, buffer, turns);
    OneBrings(cfg, buffer, turns);
    if step.Stop? {
      assert turns[..step.used] == if step.used == 0 then [] else [turns[0]];
      assert step.used > 0 ==> BroughtAll([turns[0]]) == Brings(turns[0]) + [];
    } else {
      TakenIsBrought(cfg, buffer + step.taken, turns[1..]);
      var n := Run(cfg, buffer + step.taken, turns[1..]).2;
      assert turns[..n + 1][1..] == turns[1..][..n];
    }
  }

  lemma OneBrings(cfg: Config, buffer: Data, turns: seq<Turn>)
    requires Sane(cfg)
    ensures var s := One(cfg, buffer, turns);
            if s.Go? then s.taken == Brings(turns[0])
            else s.used <= 1 && s.taken == if s.used == 0 then [] else Brings(turns[0])
  {
    hide Enough, Sane, Ending, Join;
  }

  lemma EndingConserves(e: Event, buffer: Data)
    requires Ending(e, buffer).Some?
    ensures Ending(e, buffer).value.Delivered() + Ending(e, buffer).value.Left() == buffer
  {
    assert buffer + [] == buffer && [] + buffer == buffer;
  }

  lemma EnoughConserves(cfg: Config, buffer: Data)
    requires Sane(cfg) && Enough(cfg, buffer).Some?
    ensures var o := Enough(cfg, buffer).value; o.Delivered() + o.Left() == buffer
  {
    hide SplitBytes;
  }

  /** A read ends by size with a full prefix of the stream, and never more than the maximum. */
  lemma {:induction false} SizeIsPrefix(cfg: Config, buffer: Data, turns: seq<Turn>)
    requires Sane(cfg) && cfg.maxReadSize > 0 && cfg.minReadSize == 0 && cfg.expr == None
    ensures var (o, taken, _) := Run(cfg, buffer, turns);
            o.BySize? ==> |buffer + taken| >= cfg.maxReadSize && o.data == (buffer + taken)[..cfg.maxReadSize]
    decreases |turns|
  {
    var step := One(cfg, buffer, turns);
    if step.Stop? {
      OneBySize(cfg, buffer, turns);
    } else {
      hide One, Sane;
      SizeIsPrefix(cfg, buffer + step.taken, turns[1..]);
      var (_, more, _) := Run(cfg, buffer + step.taken, turns[1..]);
      assert buffer + step.taken + more == buffer + (step.taken + more);
    }
  }

  lemma OneBySize(cfg: Config, buffer: Data, turns: seq<Turn>)
    requires Sane(cfg) && cfg.maxReadSize > 0 && cfg.minReadSize == 0 && cfg.expr == None
    ensures var s := One(cfg, buffer, turns);
            s.Stop? && s.o.BySize? ==>
              |buffer| >= cfg.maxReadSize && s.taken == [] && s.o.data == buffer[..cfg.maxReadSize]
                  && s.o.left == buffer[cfg.maxReadSize..]
  {
    assert buffer[..|buffer|] == buffer && buffer[|buffer|..] == [];
  }

  // ----- Undisturbed reads

  predicate Plain(turns: seq<Turn>) {
    forall t | t in turns :: t.doneFirst == None && t.event.Arrive?
  }

  /** All the bytes that plain turns bring. */
  function Stream(turns: seq<Turn>): Data {
    if turns == [] then [] else Taken(turns[0].event) + Stream(turns[1..])
  }

  /**
   A size-only read that nothing interrupts: the first n bytes, whatever the chunks, as soon as
   there are that many.
   */
  lemma {:induction false} SizeReads(cfg: Config, buffer: Data, turns: seq<Turn>)
    requires Sane(cfg) && cfg.maxReadSize > 0 && cfg.minReadSize == 0 && cfg.expr == None && Plain(turns)
    ensures var (o, taken, used) := Run(cfg, buffer, turns);
            var all := buffer + Stream(turns);
            if |all| >= cfg.maxReadSize then
              && o.BySize? && o.data == all[..cfg.maxReadSize]
              && o.left + Stream(turns[used..]) == all[cfg.maxReadSize..]
            else o == Waiting(all) && used == |turns|
    decreases |turns|
  {
    var all := buffer + Stream(turns);
    OneBySize(cfg, buffer, turns);
    PlainSize(cfg, buffer, turns);
    RunStops(cfg, buffer, turns);
    RunGoes(cfg, buffer, turns);
    hide One, Sane, Run, Plain;
    var step := One(cfg, buffer, turns);
    if step.Stop? {
      assert turns[0..] == turns && buffer + [] == buffer;
      if step.o.BySize? {
        assert buffer[..cfg.maxReadSize] == all[..cfg.maxReadSize];
        assert buffer[cfg.maxReadSize..] + Stream(turns) == all[cfg.maxReadSize..];
      }
    } else {
      SizeReads(cfg, buffer + step.taken, turns[1..]);
      StreamStep(buffer, turns);
      hide Stream;
      var n := Run(cfg, buffer + step.taken, turns[1..]).2;
      assert turns[1..][n..] == turns[n + 1..];
    }
  }

  lemma StreamStep(buffer: Data, turns: seq<Turn>)
    requires turns != []
    ensures buffer + Taken(turns[0].event) + Stream(turns[1..]) == buffer + Stream(turns)
  {
  }

  lemma PlainSize(cfg: Config, buffer: Data, turns: seq<Turn>)
    requires Sane(cfg) && cfg.maxReadSize > 0 && cfg.minReadSize == 0 && cfg.expr == None && Plain(turns)
    ensures match One(cfg, buffer, turns)
            case Stop(o, _, used) =>
              used == 0 && (if |buffer| >= cfg.maxReadSize then o.BySize? else turns == [] && o == Waiting(buffer))
            case Go(taken) => turns != [] && Plain(turns[1..]) && taken == Taken(turns[0].event)
  {
    PlainStep(cfg, buffer, turns);
    hide One;
  }

  /** A plain turn ends the read only when there is enough. */
  lemma PlainStep(cfg: Config, buffer: Data, turns: seq<Turn>)
    requires Sane(cfg) && Plain(turns)
    ensures match One(cfg, buffer, turns)
            case Stop(o, taken, used) =>
              && taken == [] && used == 0
              && if Enough(cfg, buffer).Some? then Enough(cfg, buffer) == Some(o)
                 else turns == [] && o == Waiting(buffer)
            case Go(taken) =>
              && turns != [] && Plain(turns[1..]) && taken == Taken(turns[0].event) && Enough(cfg, buffer) == None
  {
    if turns != [] {
      assert turns[0] in turns;
    }
  }

  /** A matcher that finds in a longer text what it has found in a shorter one. */
  ghost predicate Settled(expr: Data -> Option<Span>) {
    forall a, b :: expr(a).Some? ==> expr(a + b) == expr(a)
  }

  /** With such a matcher a read for an expression does not depend on the chunks either. */
  lemma {:induction false} ExprReads(cfg: Config, buffer: Data, turns: seq<Turn>)
    requires Sane(cfg) && cfg.maxReadSize == 0 && cfg.minReadSize == 0 && cfg.expr.Some? && Plain(turns)
    requires Settled(cfg.expr.value)
    ensures var (o, taken, used) := Run(cfg, buffer, turns);
            var all := buffer + Stream(turns);
            match cfg.expr.value(all)
            case None => o == Waiting(all) && used == |turns|
            case Some(m) =>
              && m.start <= m.end <= |all|
              && o.ByExpr? && o.before == all[..m.start] && o.matched == all[m.start..m.end]
              && o.after + Stream(turns[used..]) == all[m.end..]
    decreases |turns|
  {
    EnoughByExpr(cfg, buffer);
    PlainStep(cfg, buffer, turns);
    RunStops(cfg, buffer, turns);
    RunGoes(cfg, buffer, turns);
    hide One, Enough, Sane, Settled, Run, Plain;
    var all := buffer + Stream(turns);
    var step := One(cfg, buffer, turns);
    if step.Go? {
      ExprReads(cfg, buffer + step.taken, turns[1..]);
      StreamStep(buffer, turns);
      hide Stream;
      var n := Run(cfg, buffer + step.taken, turns[1..]).2;
      assert turns[1..][n..] == turns[n + 1..];
    } else {
      assert turns[0..] == turns && buffer + [] == buffer;
      if cfg.expr.value(buffer).Some? {
        SettledAt(cfg, buffer, Stream(turns));
      }
    }
  }

  lemma EnoughByExpr(cfg: Config, buffer: Data)
    requires Sane(cfg) && cfg.maxReadSize == 0 && cfg.minReadSize == 0 && cfg.expr.Some?
    ensures match cfg.expr.value(buffer)
            case None => Enough(cfg, buffer) == None
            case Some(m) =>
              && m.start <= m.end <= |buffer|
              && Enough(cfg, buffer) == Some(ByExpr(buffer[..m.start], buffer[m.start..m.end], buffer[m.end..]))
  {
  }

  lemma SettledAt(cfg: Config, a: Data, b: Data)
    requires Sane(cfg) && cfg.expr.Some? && Settled(cfg.expr.value) && cfg.expr.value(a).Some?
    ensures var m := cfg.expr.value(a).value;
            && cfg.expr.value(a + b) == Some(m) && m.start <= m.end <= |a|
            && a[..m.start] == (a + b)[..m.start] && a[m.start..m.end] == (a + b)[m.start..m.end]
            && a[m.end..] + b == (a + b)[m.end..]
  {
  }

  // ----- The loop

  /** flushCh: everything queued, in order. */
  method FlushCh(queued: seq<Data>) returns (res: Data)
    ensures res == Join(queued)
  {
    res := [];
    var i := 0;
    assert queued[..0] == [];
    while i < |queued|
      invariant 0 <= i <= |queued| && res == Join(queued[..i])
    {
      assert queued[..i + 1] == queued[..i] + [queued[i]];
      JoinAppend(queued[..i], [queued[i]]);
      JoinOne(queued[i]);
      res := res + queued[i];
      i := i + 1;
    }
    assert queued[..|queued|] == queued;
  }

  lemma JoinOne(d: Data)
    ensures Join([d]) == d
  {
    assert d + [] == d;
  }

  /** GenericReadX: the outcome, what was taken from the channel, and the number of turns used. */
  method GenericReadX(inBuffer: Data, turns: seq<Turn>, cfg: Config) returns (o: Outcome, read: Data, used: nat)
    requires Sane(cfg)
    ensures o.Invalid? <==> !Accepted(cfg)
    ensures Accepted(cfg) ==> (o, read, used) == Run(cfg, inBuffer, turns)
    ensures used <= |turns|
    ensures Accepted(cfg) ==> read == BroughtAll(turns[..used]) && o.Delivered() + o.Left() == inBuffer + read
  {
    hide One, Sane, Outcome.Delivered, Outcome.Left, Run, BroughtAll;
    if !cfg.hasMaxDuration && cfg.minReadSize == 0 && cfg.maxReadSize == 0 && cfg.expr == None {
      return Invalid, [], 0;
    }
    if cfg.minReadSize < 0 {
      return Invalid, [], 0;
    }
    if cfg.maxReadSize > 0 && cfg.minReadSize > cfg.maxReadSize {
      return Invalid, [], 0;
    }
    Conserved(cfg, inBuffer, turns);
    TakenIsBrought(cfg, inBuffer, turns);
    o, read, used := Loop(inBuffer, turns, cfg);
  }

  method Loop(inBuffer: Data, turns: seq<Turn>, cfg: Config) returns (o: Outcome, read: Data, used: nat)
    requires Sane(cfg)
    ensures (o, read, used) == Run(cfg, inBuffer, turns)
  {
    hide One, Sane, Outcome.Delivered, Outcome.Left, Run, After;
    var buffer := inBuffer;
    var i := 0;
    ghost var taken: Data := [];
    assert turns[0..] == turns && inBuffer + [] == inBuffer;
    AfterNothing(Run(cfg, inBuffer, turns));
    while true
      invariant 0 <= i <= |turns| && buffer == inBuffer + taken
      invariant Run(cfg, inBuffer, turns) == After(taken, i, Run(cfg, buffer, turns[i..]))
      decreases |turns| - i
    {
      var step := Turned(cfg, buffer, turns[i..]);
      RunStops(cfg, buffer, turns[i..]);
      RunGoes(cfg, buffer, turns[i..]);
      buffer := buffer + step.taken;
      assert buffer == inBuffer + (taken + step.taken);
      if step.Stop? {
        assert buffer[|inBuffer|..] == taken + step.taken;
        AfterIs(taken, i, step.o, step.taken, step.used);
        return step.o, buffer[|inBuffer|..], i + step.used;
      }
      assert turns[i..][1..] == turns[i + 1..];
      AfterTwice(taken, i, step.taken, 1, Run(cfg, buffer, turns[i + 1..]));
      taken := taken + step.taken;
      i := i + 1;
    }
  }

  /** The body of the loop. */
  method Turned(cfg: Config, buffer: Data, turns: seq<Turn>) returns (r: Step)
    requires Sane(cfg)
    ensures r == One(cfg, buffer, turns)
  {
    if |turns| > 0 && turns[0].doneFirst.Some? {
      var flushed := FlushCh(turns[0].doneFirst.value);
      return Stop(Failed(buffer + flushed), flushed, 1);
    }
    var enough := Check(cfg, buffer);
    if enough.Some? {
      return Stop(enough.value, [], 0);
    }
    if |turns| == 0 {
      return Stop(Waiting(buffer), [], 0);
    }
    var ending, brought := Wait(turns[0].event, buffer);
    r := if ending.Some? then Stop(ending.value, brought, 1) else Go(brought);
  }

  /** The checks on what is at hand: sizes first, then the expression. */
  method Check(cfg: Config, buffer: Data) returns (r: Option<Outcome>)
    requires Sane(cfg)
    ensures r == Enough(cfg, buffer)
  {
    if cfg.maxReadSize > 0 && |buffer| >= cfg.maxReadSize {
      var (data, extra) := SplitBytes(buffer, cfg.maxReadSize);
      return Some(BySize(data, extra));
    }
    if cfg.minReadSize > 0 && |buffer| >= cfg.minReadSize {
      var returnSize := |buffer|;
      if cfg.maxReadSize > 0 {
        returnSize := if cfg.maxReadSize < returnSize then cfg.maxReadSize else returnSize;
      }
      var (data, extra) := SplitBytes(buffer, returnSize);
      return Some(BySize(data, extra));
    }
    if cfg.expr.Some? {
      var m := cfg.expr.value(buffer);
      if m.Some? {
        return Some(ByExpr(buffer[..m.value.start], buffer[m.value.start..m.value.end], buffer[m.value.end..]));
      }
    }
    r := None;
  }

  /** The select in which the loop waits, and the bytes it brings. */
  method Wait(event: Event, buffer: Data) returns (ending: Option<Outcome>, brought: Data)
    ensures brought == Taken(event) && ending == Ending(event, buffer + brought)
  {
    brought := [];
    assert buffer + [] == buffer;
    match event {
      case Arrive(chunk, queued) =>
        var flushed := FlushCh(queued);
        brought := chunk + flushed;
        ending := None;
      case Closed =>
        ending := Some(AtEnd(buffer));
      case MaxDuration =>
        ending := Some(ByTime(buffer));
      case Idle(queued) =>
        brought := FlushCh(queued);
        ending := Some(Failed(buffer + brought));
      case Done(queued) =>
        brought := FlushCh(queued);
        ending := Some(Failed(buffer + brought));
    }
  }

  /** A result reached after `n` turns that took `taken`. */
  function After(taken: Data, n: nat, r: (Outcome, Data, nat)): (Outcome, Data, nat) {
    (r.0, taken + r.1, n + r.2)
  }

  lemma AfterIs(taken: Data, n: nat, o: Outcome, more: Data, k: nat)
    ensures After(taken, n, (o, more, k)) == (o, taken + more, n + k)
  {
  }

  lemma AfterNothing(r: (Outcome, Data, nat))
    ensures After([], 0, r) == r
  {
    assert [] + r.1 == r.1;
  }

  lemma AfterTwice(taken: Data, n: nat, more: Data, k: nat, r: (Outcome, Data, nat))
    ensures After(taken, n, After(more, k, r)) == After(taken + more, n + k, r)
  {
    assert taken + (more + r.1) == taken + more + r.1;
  }
}
