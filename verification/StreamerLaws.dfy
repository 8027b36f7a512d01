/** Why a read ends, told by the turns of the script and the bytes they bring. */
module StreamerLaws {
  import opened Bytes
  import opened Streamer

  predicate SizeReached(cfg: Config, all: Data) {
    (cfg.maxReadSize > 0 && |all| >= cfg.maxReadSize) || (cfg.minReadSize > 0 && |all| >= cfg.minReadSize)
  }

  predicate Ready(cfg: Config, all: Data) {
    SizeReached(cfg, all) || (cfg.expr.Some? && cfg.expr.value(all).Some?)
  }

  /** Nothing but bytes. */
  predicate OnlyBytes(t: Turn) {
    t.doneFirst == None && t.event.Arrive?
  }

  /** How a read that has used these turns, and has these bytes, ends. */
  predicate EndsAs(cfg: Config, used: seq<Turn>, all: Data, o: Outcome) {
    match o
    case BySize(data, left) =>
      && (forall t | t in used :: OnlyBytes(t)) && SizeReached(cfg, all) && data + left == all
      && |data| == if cfg.maxReadSize > 0 && |all| >= cfg.maxReadSize then cfg.maxReadSize else |all|
    case ByExpr(before, matched, after) =>
      && (forall t | t in used :: OnlyBytes(t)) && !SizeReached(cfg, all) && before + matched + after == all
      && cfg.expr.Some? && cfg.expr.value(all) == Some(Span(|before|, |before + matched|))
    case Waiting(buffer) => (forall t | t in used :: OnlyBytes(t)) && buffer == all && !Ready(cfg, all)
    case Failed(left) =>
      && used != [] && left == all
      && var last := used[|used| - 1]; last.doneFirst.Some? || last.event.Idle? || last.event.Done?
    case AtEnd(data) =>
      used != [] && data == all && used[|used| - 1].doneFirst == None && used[|used| - 1].event == Closed
    case ByTime(data) =>
      used != [] && data == all && used[|used| - 1].doneFirst == None && used[|used| - 1].event == MaxDuration
    case Invalid => false
  }

  /** A turn is waited for only while the bytes at hand are not enough, unless the caller gives up first. */
  ghost predicate NotEnoughBefore(cfg: Config, buffer: Data, used: seq<Turn>) {
    forall j | 0 <= j < |used| :: used[j].doneFirst.Some? || !Ready(cfg, buffer + BroughtAll(used[..j]))
  }

  lemma EnoughIs(cfg: Config, buffer: Data)
    requires Sane(cfg)
    ensures Enough(cfg, buffer).Some? <==> Ready(cfg, buffer)
    ensures Enough(cfg, buffer).Some? ==> EndsAs(cfg, [], buffer, Enough(cfg, buffer).value)
  {
    assert buffer[..|buffer|] == buffer && buffer + [] == buffer;
    if !SizeReached(cfg, buffer) && Ready(cfg, buffer) {
      var m := cfg.expr.value(buffer).value;
      assert buffer[..m.start] + buffer[m.start..m.end] + buffer[m.end..] == buffer;
    }
  }

  /** Why a read ends, and that it does so at the first turn at which there is a reason. */
  lemma {:induction false} EndsExactly(cfg: Config, buffer: Data, turns: seq<Turn>)
    requires Sane(cfg)
    ensures var (o, taken, n) := Run(cfg, buffer, turns);
            && EndsAs(cfg, turns[..n], buffer + BroughtAll(turns[..n]), o)
            && NotEnoughBefore(cfg, buffer, turns[..n])
            && (o.Waiting? ==> n == |turns|)
    decreases |turns|
  {
    hide One, Sane, Run, EndsAs, Ready, NotEnoughBefore, BroughtAll, Brings, OnlyBytes;
    RunStops(cfg, buffer, turns);
    RunGoes(cfg, buffer, turns);
    var step := One(cfg, buffer, turns);
    StepEnds(cfg, buffer, turns);
    if step.Go? {
      var rest := turns[1..];
      EndsExactly(cfg, buffer + step.taken, rest);
      var (o, _, n) := Run(cfg, buffer + step.taken, rest);
      assert turns[..n + 1] == [turns[0]] + rest[..n];
      GoesOn(cfg, buffer, turns[0], rest[..n], o);
    }
  }

  lemma StepEnds(cfg: Config, buffer: Data, turns: seq<Turn>)
    requires Sane(cfg)
    ensures var s := One(cfg, buffer, turns);
            && (s.Stop? ==>
                 && s.used <= |turns|
                 && EndsAs(cfg, turns[..s.used], buffer + BroughtAll(turns[..s.used]), s.o)
                 && NotEnoughBefore(cfg, buffer, turns[..s.used]) && (s.o.Waiting? ==> s.used == |turns|))
            && (s.Go? ==>
                 turns != [] && OnlyBytes(turns[0]) && !Ready(cfg, buffer) && s.taken == Brings(turns[0]))
  {
    hide Enough, Sane, Ready, SizeReached;
    EnoughIs(cfg, buffer);
    assert BroughtAll([]) == [] && buffer + [] == buffer;
    if turns != [] {
      assert turns[..1] == [turns[0]] && [turns[0]][1..] == [] && [turns[0]][..0] == [];
      assert BroughtAll([turns[0]]) == Brings(turns[0]) + [] == Brings(turns[0]);
    }
    assert turns[..0] == [];
  }

  lemma GoesOn(cfg: Config, buffer: Data, t: Turn, used: seq<Turn>, o: Outcome)
    requires OnlyBytes(t) && !Ready(cfg, buffer)
    requires EndsAs(cfg, used, buffer + Brings(t) + BroughtAll(used), o)
    requires NotEnoughBefore(cfg, buffer + Brings(t), used)
    ensures EndsAs(cfg, [t] + used, buffer + BroughtAll([t] + used), o)
    ensures NotEnoughBefore(cfg, buffer, [t] + used)
  {
    hide Ready, SizeReached, Brings, OnlyBytes;
    var both := [t] + used;
    assert both[1..] == used && buffer + (Brings(t) + BroughtAll(used)) == buffer + Brings(t) + BroughtAll(used);
    forall j | 0 <= j < |both| ensures both[j].doneFirst.Some? || !Ready(cfg, buffer + BroughtAll(both[..j])) {
      if j == 0 {
        assert buffer + [] == buffer && both[..0] == [];
      } else {
        assert both[..j][1..] == used[..j - 1] && both[j] == used[j - 1];
        assert buffer + (Brings(t) + BroughtAll(used[..j - 1])) == buffer + Brings(t) + BroughtAll(used[..j - 1]);
      }
    }
  }
}
