/** Laws of whole runs of GenericExecute: what the output is, that bytes are conserved, that runs end. */
module ExecuteLaws {
  import opened Bytes
  import opened Execute

  // ----- How runs end

  predicate Ordinary(p: Part) { p.entry.name != Prompt && p.entry.name != Echo }

  /** The last part is a prompt exactly when the script is done, and no other part is one. */
  predicate EndsWithPrompt(s: Script) {
    && (s.end == Done <==> s.parts != [] && s.parts[|s.parts| - 1].entry.name == Prompt)
    && forall i | 0 <= i < |s.parts| :: s.parts[i].entry.name != Echo && (i + 1 < |s.parts| ==> Ordinary(s.parts[i]))
  }

  lemma ThenEnds(part: Part, s: Script)
    requires EndsWithPrompt(s) && Ordinary(part)
    ensures EndsWithPrompt(Then(part, s))
  {
    var all := Then(part, s).parts;
    assert forall i | 1 <= i < |all| :: all[i] == s.parts[i - 1];
  }

  lemma {:induction false} PromptEnds(w: World, seenEcho: bool, promptBefore: bool, input: Input, turns: nat)
    requires Sane(w.matches)
    ensures EndsWithPrompt(Parts(w, seenEcho, promptBefore, input, turns))
    decreases turns
  {
    hide Parts, Next, Sane;
    if turns == 0 {
      NoTurns(w, seenEcho, promptBefore, input);
    } else {
      PartsStep(w, seenEcho, promptBefore, input, turns);
      NextKinds(w, seenEcho, promptBefore, input);
      match Next(w, seenEcho, promptBefore, input) {
        case EchoSeen(left) => PromptEnds(w, true, false, left, turns - 1);
        case PutBack(left) => PromptEnds(w, false, true, left, turns - 1);
        case Stopped(_) =>
        case Got(part, left) =>
          if part.entry.name != Prompt {
            PromptEnds(w, true, false, left, turns - 1);
            ThenEnds(part, Parts(w, true, false, left, turns - 1));
          }
      }
    }
  }

  /** The errors that are not about a part. */
  predicate IsFailure(why: Outcome) { why in {ReadError, EchoError, Waiting} }

  lemma NextKinds(w: World, seenEcho: bool, promptBefore: bool, input: Input)
    requires Sane(w.matches)
    ensures var step := Next(w, seenEcho, promptBefore, input);
            && (step.Got? ==> step.part.entry.name != Echo)
            && (step.Stopped? ==> IsFailure(step.why))
  {
    hide Reading, Expected, EchoRestAt, Sane;
  }

  lemma {:induction false} FailureKinds(w: World, seenEcho: bool, promptBefore: bool, input: Input, turns: nat)
    requires Sane(w.matches)
    ensures var end := Parts(w, seenEcho, promptBefore, input, turns).end; end.Failed? ==> IsFailure(end.why)
    decreases turns
  {
    hide Parts, Next, Sane;
    if turns == 0 {
      NoTurns(w, seenEcho, promptBefore, input);
    } else {
      PartsStep(w, seenEcho, promptBefore, input, turns);
      NextKinds(w, seenEcho, promptBefore, input);
      match Next(w, seenEcho, promptBefore, input) {
        case EchoSeen(left) => FailureKinds(w, true, false, left, turns - 1);
        case PutBack(left) => FailureKinds(w, false, true, left, turns - 1);
        case Stopped(_) =>
        case Got(part, left) =>
          FailureKinds(w, true, false, left, turns - 1);
      }
    }
  }

  /**
   There is output exactly when the prompt is reached and nothing before it was refused: the pages
   and the last output, in order.
   */
  lemma OutputExactly(w: World, input: Input, turns: nat, raw: Data)
    requires Sane(w.matches)
    ensures var s := Parts(w, false, false, input, turns);
            Result(w, s) == Some(Output(raw)) <==> s.end == Done && AllServed(w, s.parts) && raw == Pages(s.parts)
  {
    hide Parts, Pages, Sane;
    var s := Parts(w, false, false, input, turns);
    FailureKinds(w, false, false, input, turns);
    var n := Served(w, s.parts, 0);
    if n == |s.parts| {
      assert AllServed(w, s.parts);
    }
  }

  /** The branches for a bad index and an unknown name are never taken. */
  lemma NeverInvalid(w: World, input: Input, turns: nat)
    requires Sane(w.matches)
    ensures Result(w, Parts(w, false, false, input, turns)) !in {Some(InvalidIndex), Some(UnknownOption)}
  {
    hide Parts, Pages, Sane;
    var s := Parts(w, false, false, input, turns);
    FailureKinds(w, false, false, input, turns);
    PromptEnds(w, false, false, input, turns);
    var n := Served(w, s.parts, 0);
    if n < |s.parts| {
      assert s.parts[n].entry.name != Echo;
    }
  }

  /** At most a hundred callbacks are answered. */
  lemma {:induction false} AtMostHundred(w: World, ps: seq<Part>)
    requires AllServed(w, ps)
    ensures Callbacks(ps) <= 100
  {
    if ps != [] {
      var k := |ps| - 1;
      assert forall j | 0 <= j < k :: ps[..k][..j] == ps[..j] && ps[..k][j] == ps[j];
      AtMostHundred(w, ps[..k]);
      assert !React(w, ps[..k], ps[k]).Refuse?;
    }
  }

  /** The limit is hit exactly by the first callback after a hundred others, if nothing was refused before it. */
  lemma LimitExactly(w: World, s: Script)
    requires s.end.Failed? ==> IsFailure(s.end.why)
    ensures Result(w, s) == Some(CallbackLimit) <==>
            exists k | 0 <= k < |s.parts| :: OverLimit(w, s.parts, k)
  {
    var n := Served(w, s.parts, 0);
    if k :| 0 <= k < |s.parts| && OverLimit(w, s.parts, k) {
      ServedIs(w, s.parts, k);
    }
    if Result(w, s) == Some(CallbackLimit) {
      assert AllServed(w, s.parts[..n]) by {
        assert forall j | 0 <= j < n :: s.parts[..n][..j] == s.parts[..j];
      }
      assert OverLimit(w, s.parts, n);
    }
  }

  predicate OverLimit(w: World, ps: seq<Part>, k: nat)
    requires k < |ps|
  {
    ps[k].entry.name == Callback && Callbacks(ps[..k]) == 100 && AllServed(w, ps[..k])
  }

  // ----- Bytes

  function Stream(events: seq<Option<Data>>): Data {
    if events == [] then [] else (if events[0].Some? then events[0].value else []) + Stream(events[1..])
  }

  /** Everything that is at hand or will come. */
  function All(input: Input): Data { input.pending + Stream(input.events) }

  /** What the parts take from the stream. */
  function Tiles(ps: seq<Part>): Data {
    if ps == [] then [] else ps[0].before + ps[0].matched + Tiles(ps[1..])
  }

  lemma {:induction false} ReadingConserves(matches: Matcher, l: seq<Named>, input: Input)
    requires Sane(matches)
    ensures var r := Reading(matches, l, input);
            r.Found? ==>
              && r.hit.m.start <= r.hit.m.end <= |r.text| && r.left.pending == r.text[r.hit.m.end..]
              && All(input) == r.text + Stream(r.left.events)
    decreases |input.events|
  {
    hide First;
    if First(matches, l, input.pending) == None && input.events != [] && input.events[0].Some? {
      var d := input.events[0].value;
      ReadingConserves(matches, l, Input(input.pending + d, input.events[1..]));
      assert input.pending + (d + Stream(input.events[1..])) == input.pending + d + Stream(input.events[1..]);
    } else if First(matches, l, input.pending).Some? {
      FirstInside(matches, l, input.pending);
    }
  }

  lemma FirstInside(matches: Matcher, l: seq<Named>, text: Data)
    requires Sane(matches)
    ensures var r := First(matches, l, text);
            r.Some? ==> r.value.place < |l| && r.value.m.start <= r.value.m.end <= |text|
  {
  }

  /** Once the echo is gone, the parts and what is left are the stream: nothing is lost, invented or moved. */
  lemma {:induction false} Conserved(w: World, input: Input, turns: nat)
    requires Sane(w.matches)
    ensures var s := Parts(w, true, false, input, turns); All(input) == Tiles(s.parts) + All(s.left)
    decreases turns
  {
    hide Parts, Next, All, Sane;
    var s := Parts(w, true, false, input, turns);
    if turns == 0 {
      NoTurns(w, true, false, input);
    } else {
      PartsStep(w, true, false, input, turns);
      AfterEcho(w, input);
      match Next(w, true, false, input) {
        case Got(part, left) =>
          if part.entry.name != Prompt {
            Conserved(w, left, turns - 1);
            var rest := Parts(w, true, false, left, turns - 1);
            assert s.parts[1..] == rest.parts;
            assert part.before + part.matched + (Tiles(rest.parts) + All(rest.left)) == Tiles(s.parts) + All(s.left);
          } else {
            assert s.parts[1..] == [] && Tiles([part]) == part.before + part.matched;
          }
        case _ =>
      }
    }
  }

  /** What one turn takes after the echo. */
  lemma AfterEcho(w: World, input: Input)
    requires Sane(w.matches)
    ensures var step := Next(w, true, false, input);
            && (step.Got? || step.Stopped?)
            && (step.Got? ==> All(input) == step.part.before + step.part.matched + All(step.left))
  {
    hide Expected, Reading, EchoRestAt, Stream, Sane;
    var l := Expected(w, true);
    ReadFacts(w.matches, l, input);
    ReadingConserves(w.matches, l, input);
    var r := Reading(w.matches, l, input);
    if r.Found? {
      OneEcho(w, true, r.hit.place);
      var (i, j) := (r.hit.m.start, r.hit.m.end);
      assert r.text == r.text[..i] + r.text[i..j] + r.text[j..];
      assert r.text + Stream(r.left.events) == r.text[..i] + r.text[i..j] + (r.text[j..] + Stream(r.left.events));
    }
  }

  /** After a prompt in front of the echo the bytes before it are read again, but not the prompt itself. */
  lemma PutBackDropsPrompt(w: World, promptBefore: bool, input: Input)
    requires Sane(w.matches)
    ensures var (step, r) := (Next(w, false, promptBefore, input), Reading(w.matches, Expected(w, false), input));
            step.PutBack? ==>
              && r.Found? && r.hit.m.start <= r.hit.m.end <= |r.text|
              && All(input) == r.text + Stream(r.left.events)
              && All(step.left) == r.text[..r.hit.m.start] + r.text[r.hit.m.end..] + Stream(r.left.events)
  {
    hide Expected, Reading, EchoRestAt, Stream, Sane;
    var l := Expected(w, false);
    ReadingConserves(w.matches, l, input);
  }

  // ----- Bytes from the first one on

  /** What one turn takes from the stream: the text at hand and the match in it. */
  datatype Piece =
    | Echoed(text: Data, hit: Hit)    // everything up to and with the echo
    | Dropped(text: Data, hit: Hit)   // a prompt in front of the echo, taken out of what stays
    | Tile(text: Data, hit: Hit)      // the text of one part

  /** What the "store" group of a match keeps. */
  function Stored(m: Match): Data {
    match m.store
    case None => []
    case Some(kept) => kept
  }

  predicate Within(p: Piece) {
    p.hit.m.start <= p.hit.m.end <= |p.text|
  }

  function PieceOf(w: World, seenEcho: bool, promptBefore: bool, input: Input): Piece
    requires Sane(w.matches) && !Next(w, seenEcho, promptBefore, input).Stopped?
  {
    var r := Reading(w.matches, Expected(w, seenEcho), input);
    match Next(w, seenEcho, promptBefore, input)
    case EchoSeen(_) => Echoed(r.text, r.hit)
    case PutBack(_) => Dropped(r.text, r.hit)
    case Got(_, _) => Tile(r.text, r.hit)
  }

  /** The pieces behind the parts of a run, turn by turn. */
  function Pieces(w: World, seenEcho: bool, promptBefore: bool, input: Input, turns: nat): seq<Piece>
    requires Sane(w.matches)
    decreases turns
  {
    if turns == 0 || Next(w, seenEcho, promptBefore, input).Stopped? then []
    else
      var step := Next(w, seenEcho, promptBefore, input);
      [PieceOf(w, seenEcho, promptBefore, input)]
      + if step.Got? && step.part.entry.name == Prompt then []
        else Pieces(w, !step.PutBack?, step.PutBack?, step.left, turns - 1)
  }

  /**
   The stream `s` is what `ps` say, in order, and then `left`. The text of a piece is a beginning of
   what is still to be read, and its match is the first that the patterns find there. An echo goes with
   everything before it, a part with the text before it, and a prompt in front of the echo goes alone.
   */
  predicate Puts(w: World, seenEcho: bool, ps: seq<Piece>, parts: seq<Part>, s: Data, left: Data)
    requires Sane(w.matches)
    decreases |ps|
  {
    if ps == [] then parts == [] && s == left
    else
      var (p, m, l) := (ps[0], ps[0].hit.m, Expected(w, seenEcho));
      && Within(p) && p.text <= s && First(w.matches, l, p.text) == Some(p.hit) && p.hit.place < |l|
      && var (e, before, rest) := (l[p.hit.place], s[..m.start], s[m.end..]);
      match p
      case Echoed(_, _) => e.name == Echo && Puts(w, true, ps[1..], parts, rest, left)
      case Dropped(_, _) =>
        && !seenEcho && e.name == Prompt && |before| >= 2 && EchoRestAt(w, Prompt, before) == None
        && Puts(w, false, ps[1..], parts, before + rest, left)
      case Tile(_, _) =>
        && parts != []
        && (if seenEcho then parts[0] == Part(p.hit.place, e, before, s[m.start..m.end], Stored(m))
            else
              && |before| >= 2 && (e.name == Question || e.name == Prompt) && EchoRestAt(w, e.name, before).Some?
              && parts[0] == Part(p.hit.place, e, EchoRestAt(w, e.name, before).value, s[m.start..m.end], Stored(m)))
        && Puts(w, true, ps[1..], parts[1..], rest, left)
  }

  /** What a turn makes of the stream. */
  lemma TurnPuts(w: World, seenEcho: bool, promptBefore: bool, input: Input, ps: seq<Piece>, parts: seq<Part>,
      left: Data)
    requires Sane(w.matches)
    requires !Next(w, seenEcho, promptBefore, input).Stopped?
    requires var step := Next(w, seenEcho, promptBefore, input);
             && (step.Got? ==> parts != [] && parts[0] == step.part)
             && Puts(w, !step.PutBack?, ps, if step.Got? then parts[1..] else parts, All(step.left), left)
    ensures Puts(w, seenEcho, [PieceOf(w, seenEcho, promptBefore, input)] + ps, parts, All(input), left)
  {
    hide Expected, Reading, EchoRestAt, EchoRest, Stream, Sane, First;
    var l := Expected(w, seenEcho);
    ReadFacts(w.matches, l, input);
    ReadingConserves(w.matches, l, input);
    var (step, r) := (Next(w, seenEcho, promptBefore, input), Reading(w.matches, l, input));
    OneEcho(w, seenEcho, r.hit.place);
    var (i, j, s) := (r.hit.m.start, r.hit.m.end, All(input));
    var later := Stream(r.left.events);
    assert s[..i] == r.text[..i] && s[i..j] == r.text[i..j] && s[j..] == r.text[j..] + later;
    if step.PutBack? {
      assert All(step.left) == s[..i] + s[j..];
    } else {
      assert All(step.left) == s[j..];
    }
    var p := PieceOf(w, seenEcho, promptBefore, input);
    assert ([p] + ps)[1..] == ps;
  }

  /**
   From the first byte on, the stream is the echo with what came before it, the prompts dropped in front
   of it, the parts with the text before each, and what is left, in this order: nothing else is lost, and
   nothing is invented or moved.
   */
  lemma {:induction false} ConservedThroughout(w: World, seenEcho: bool, promptBefore: bool, input: Input, turns: nat)
    requires Sane(w.matches)
    ensures var s := Parts(w, seenEcho, promptBefore, input, turns);
            Puts(w, seenEcho, Pieces(w, seenEcho, promptBefore, input, turns), s.parts, All(input), All(s.left))
    decreases turns
  {
    hide Parts, Next, All, Sane, Puts, PieceOf;
    var s := Parts(w, seenEcho, promptBefore, input, turns);
    NoPieces(w, seenEcho, All(input));
    if turns == 0 {
      NoTurns(w, seenEcho, promptBefore, input);
    } else {
      PartsStep(w, seenEcho, promptBefore, input, turns);
      var step := Next(w, seenEcho, promptBefore, input);
      if !step.Stopped? {
        if step.Got? && step.part.entry.name == Prompt {
          NoPieces(w, true, All(step.left));
          assert s.parts[1..] == [];
          TurnPuts(w, seenEcho, promptBefore, input, [], s.parts, All(s.left));
        } else {
          var rest := Pieces(w, !step.PutBack?, step.PutBack?, step.left, turns - 1);
          ConservedThroughout(w, !step.PutBack?, step.PutBack?, step.left, turns - 1);
          assert step.Got? ==> s.parts[1..] == Parts(w, true, false, step.left, turns - 1).parts;
          TurnPuts(w, seenEcho, promptBefore, input, rest, s.parts, All(s.left));
        }
      }
    }
  }

  lemma NoPieces(w: World, seenEcho: bool, s: Data)
    requires Sane(w.matches)
    ensures Puts(w, seenEcho, [], [], s, s)
  {
  }

  // ----- The prompt that is lost

  /** What a piece keeps: nothing of a dropped prompt, else the text up to and with the match. */
  function Front(p: Piece): Data {
    if !p.Dropped? && Within(p) then p.text[..p.hit.m.end] else []
  }

  /** What the pieces keep, in order. */
  function Kept(ps: seq<Piece>): Data {
    if ps == [] then [] else Front(ps[0]) + Kept(ps[1..])
  }

  /** How many bytes of prompts are dropped. */
  function Lost(ps: seq<Piece>): int {
    if ps == [] then 0
    else (if ps[0].Dropped? then ps[0].hit.m.end - ps[0].hit.m.start else 0) + Lost(ps[1..])
  }

  /** What the first piece leaves to the others. */
  lemma PutsStep(w: World, seenEcho: bool, ps: seq<Piece>, parts: seq<Part>, s: Data, left: Data)
    requires Sane(w.matches) && Puts(w, seenEcho, ps, parts, s, left) && ps != []
    ensures var (p, m) := (ps[0], ps[0].hit.m);
            && Within(p) && m.end <= |s| && p.text[..m.end] == s[..m.end] && (p.Tile? ==> parts != [])
            && Puts(w, !p.Dropped?, ps[1..], if p.Tile? then parts[1..] else parts,
                    if p.Dropped? then s[..m.start] + s[m.end..] else s[m.end..], left)
  {
    hide Expected, EchoRestAt, Sane, First;
  }

  lemma {:induction false} KeptStep(ps: seq<Piece>, left: Data)
    requires ps != []
    ensures Lost(ps) == (if ps[0].Dropped? then ps[0].hit.m.end - ps[0].hit.m.start else 0) + Lost(ps[1..])
    ensures |Kept(ps)| == |Front(ps[0])| + |Kept(ps[1..])| && Kept(ps) + left == Front(ps[0]) + (Kept(ps[1..]) + left)
  {
    hide Front;
    var a, b := Front(ps[0]), Kept(ps[1..]);
    assert a + b + left == a + (b + left);
  }

  /** The bytes of the stream are those kept, those left and those of the dropped prompts. */
  lemma {:induction false} Accounted(w: World, seenEcho: bool, ps: seq<Piece>, parts: seq<Part>, s: Data, left: Data)
    requires Sane(w.matches) && Puts(w, seenEcho, ps, parts, s, left)
    ensures 0 <= Lost(ps) && |s| == |Kept(ps)| + |left| + Lost(ps)
    ensures Lost(ps) == 0 ==> s == Kept(ps) + left
    decreases |ps|
  {
    hide Sane, Puts, Kept, Lost;
    if ps == [] {
      PutsNothing(w, seenEcho, parts, s, left);
    } else {
      var (p, m) := (ps[0], ps[0].hit.m);
      PutsStep(w, seenEcho, ps, parts, s, left);
      KeptStep(ps, left);
      if p.Dropped? {
        Accounted(w, false, ps[1..], parts, s[..m.start] + s[m.end..], left);
        assert m.start == m.end ==> s[..m.start] + s[m.end..] == s;
      } else {
        Accounted(w, true, ps[1..], if p.Tile? then parts[1..] else parts, s[m.end..], left);
      }
    }
  }

  lemma {:induction false} PutsWithin(w: World, seenEcho: bool, ps: seq<Piece>, parts: seq<Part>, s: Data, left: Data)
    requires Sane(w.matches) && Puts(w, seenEcho, ps, parts, s, left)
    ensures forall p | p in ps :: Within(p)
    decreases |ps|
  {
    hide Sane, Puts;
    if ps != [] {
      var (p, m) := (ps[0], ps[0].hit.m);
      PutsStep(w, seenEcho, ps, parts, s, left);
      PutsWithin(w, !p.Dropped?, ps[1..], if p.Tile? then parts[1..] else parts,
          if p.Dropped? then s[..m.start] + s[m.end..] else s[m.end..], left);
      assert forall q | q in ps :: q == p || q in ps[1..];
    }
  }

  lemma PutsNothing(w: World, seenEcho: bool, parts: seq<Part>, s: Data, left: Data)
    requires Sane(w.matches) && Puts(w, seenEcho, [], parts, s, left)
    ensures s == left == Kept([]) + left && Lost([]) == 0 && Kept([]) == []
  {
    assert [] + left == left;
  }

  lemma {:induction false} LostExactly(ps: seq<Piece>)
    requires forall p | p in ps :: Within(p)
    ensures 0 <= Lost(ps)
    ensures Lost(ps) == 0 <==> forall p | p in ps :: p.Dropped? ==> p.hit.m.start == p.hit.m.end
  {
    if ps != [] {
      assert ps[0] in ps && forall p | p in ps[1..] :: p in ps;
      LostExactly(ps[1..]);
      assert forall p | p in ps :: p == ps[0] || p in ps[1..];
    }
  }

  /** No byte is lost exactly when no turn drops a prompt, or only prompts of no bytes. */
  lemma NothingLostExactly(w: World, seenEcho: bool, promptBefore: bool, input: Input, turns: nat)
    requires Sane(w.matches)
    ensures var (ps, s) := (Pieces(w, seenEcho, promptBefore, input, turns),
                            Parts(w, seenEcho, promptBefore, input, turns));
            All(input) == Kept(ps) + All(s.left)
            <==> forall p | p in ps :: p.Dropped? ==> p.hit.m.start == p.hit.m.end
  {
    hide Parts, Pieces, All, Sane, Puts;
    var (ps, s) := (Pieces(w, seenEcho, promptBefore, input, turns), Parts(w, seenEcho, promptBefore, input, turns));
    ConservedThroughout(w, seenEcho, promptBefore, input, turns);
    Accounted(w, seenEcho, ps, s.parts, All(input), All(s.left));
    PutsWithin(w, seenEcho, ps, s.parts, All(input), All(s.left));
    LostExactly(ps);
  }

  /** A turn drops a prompt exactly when a prompt is found before the echo and the echo is not before it. */
  lemma PutBackExactly(w: World, seenEcho: bool, promptBefore: bool, input: Input)
    requires Sane(w.matches)
    ensures var r := Reading(w.matches, Expected(w, seenEcho), input);
            Next(w, seenEcho, promptBefore, input).PutBack?
            <==> && r.Found? && !seenEcho && r.hit.place < |Expected(w, seenEcho)|
                 && Expected(w, seenEcho)[r.hit.place].name == Prompt
                 && 2 <= r.hit.m.start <= |r.text| && EchoRestAt(w, Prompt, r.text[..r.hit.m.start]) == None
  {
    hide Expected, Reading, EchoRestAt, EchoRest, Sane;
    ReadFacts(w.matches, Expected(w, seenEcho), input);
  }

  // ----- Runs end

  ghost predicate NeverEmpty(matches: Matcher) {
    forall p, d :: matches(p, d).Some? ==> matches(p, d).value.start < matches(p, d).value.end
  }

  /** Every turn that goes on takes at least one byte away. */
  lemma TurnTakes(w: World, seenEcho: bool, promptBefore: bool, input: Input)
    requires Sane(w.matches) && NeverEmpty(w.matches)
    ensures var step := Next(w, seenEcho, promptBefore, input);
            !step.Stopped? ==> |All(step.left)| < |All(input)|
  {
    hide Expected, Reading, EchoRestAt, Stream;
    var l := Expected(w, seenEcho);
    ReadFacts(w.matches, l, input);
    ReadingConserves(w.matches, l, input);
  }

  /** Where no pattern matches nothing, a run ends within as many turns as there are bytes, and one more. */
  lemma {:induction false} RunsEnd(w: World, seenEcho: bool, promptBefore: bool, input: Input, turns: nat)
    requires Sane(w.matches) && NeverEmpty(w.matches) && turns > |All(input)|
    ensures Parts(w, seenEcho, promptBefore, input, turns).end != Running
    decreases turns
  {
    hide Parts, Next, All, Sane, NeverEmpty;
    PartsStep(w, seenEcho, promptBefore, input, turns);
    TurnTakes(w, seenEcho, promptBefore, input);
    match Next(w, seenEcho, promptBefore, input) {
      case EchoSeen(left) => RunsEnd(w, true, false, left, turns - 1);
      case PutBack(left) => RunsEnd(w, false, true, left, turns - 1);
      case Stopped(_) =>
      case Got(part, left) =>
        if part.entry.name != Prompt {
          RunsEnd(w, true, false, left, turns - 1);
        }
    }
  }

  lemma NoTurns(w: World, seenEcho: bool, promptBefore: bool, input: Input)
    requires Sane(w.matches)
    ensures Parts(w, seenEcho, promptBefore, input, 0) == Script([], Running, input)
  {
    hide Sane, Next;
  }

  /** More turns change nothing about a run that has ended. */
  lemma {:induction false} MoreTurns(w: World, seenEcho: bool, promptBefore: bool, input: Input, turns: nat)
    requires Sane(w.matches) && Parts(w, seenEcho, promptBefore, input, turns).end != Running
    ensures Parts(w, seenEcho, promptBefore, input, turns + 1) == Parts(w, seenEcho, promptBefore, input, turns)
    decreases turns
  {
    hide Parts, Next, Sane;
    if turns == 0 {
      NoTurns(w, seenEcho, promptBefore, input);
    } else {
      PartsStep(w, seenEcho, promptBefore, input, turns);
    }
    PartsStep(w, seenEcho, promptBefore, input, turns + 1);
    match Next(w, seenEcho, promptBefore, input) {
      case EchoSeen(left) => MoreTurns(w, true, false, left, turns - 1);
      case PutBack(left) => MoreTurns(w, false, true, left, turns - 1);
      case Stopped(_) =>
      case Got(part, left) =>
        if part.entry.name != Prompt {
          MoreTurns(w, true, false, left, turns - 1);
        }
    }
  }

  // ----- How the stream was cut

  predicate Plain(input: Input) {
    forall e | e in input.events :: e.Some?
  }

  /** A beginning of the stream that is matched is matched as the whole of it is. */
  ghost predicate SettledOn(matches: Matcher, l: seq<Named>, s: Data) {
    forall n | 0 <= n <= |s| && First(matches, l, s[..n]).Some? :: First(matches, l, s[..n]) == First(matches, l, s)
  }

  /** What a read finds in a plain stream: the first match of the whole of it, whatever the cuts. */
  ghost predicate FindsFirst(matches: Matcher, l: seq<Named>, input: Input)
    requires Sane(matches)
  {
    var r := Reading(matches, l, input);
    match First(matches, l, All(input))
    case None => r == Waits
    case Some(hit) =>
      && r.Found? && r.hit == hit && r.text <= All(input) && hit.m.start <= hit.m.end <= |r.text|
      && Plain(r.left) && All(r.left) == All(input)[hit.m.end..]
  }

  lemma {:induction false} ReadingSettled(matches: Matcher, l: seq<Named>, input: Input)
    requires Sane(matches) && Plain(input) && SettledOn(matches, l, All(input))
    ensures FindsFirst(matches, l, input)
    decreases |input.events|
  {
    ReadingConserves(matches, l, input);
    var s := All(input);
    assert s[..|input.pending|] == input.pending;
    if First(matches, l, input.pending).Some? {
      FirstInside(matches, l, input.pending);
      var r := Reading(matches, l, input);
      assert All(r.left) == s[r.hit.m.end..];
    } else if input.events == [] {
      assert s == input.pending;
    } else {
      var next := Input(input.pending + input.events[0].value, input.events[1..]);
      assert All(next) == s;
      ReadingSettled(matches, l, next);
    }
  }

  /** A read does not depend on how the stream is cut exactly when no beginning of it is matched differently. */
  lemma SettledExactly(matches: Matcher, l: seq<Named>, s: Data)
    requires Sane(matches)
    ensures SettledOn(matches, l, s) <==>
            forall input | Plain(input) && All(input) == s :: FindsFirst(matches, l, input)
  {
    if SettledOn(matches, l, s) {
      forall input | Plain(input) && All(input) == s ensures FindsFirst(matches, l, input) {
        ReadingSettled(matches, l, input);
      }
    } else {
      var n :| 0 <= n <= |s| && First(matches, l, s[..n]).Some? && First(matches, l, s[..n]) != First(matches, l, s);
      var input := Input(s[..n], [Some(s[n..])]);
      assert Stream([Some(s[n..])]) == s[n..] + Stream([]) == s[n..];
      assert All(input) == s && Plain(input) && !FindsFirst(matches, l, input);
    }
  }

  ghost predicate SameBytes(a: Input, b: Input) {
    Plain(a) && Plain(b) && All(a) == All(b)
  }

  /** Two steps that differ only in how what is left is cut. */
  ghost predicate SameStep(a: Step, b: Step) {
    match a
    case EchoSeen(left) => b.EchoSeen? && SameBytes(left, b.left)
    case PutBack(left) => b.PutBack? && SameBytes(left, b.left)
    case Stopped(why) => b == a
    case Got(part, left) => b.Got? && b.part == part && SameBytes(left, b.left)
  }

  lemma NextSettled(w: World, seenEcho: bool, promptBefore: bool, a: Input, b: Input)
    requires Sane(w.matches) && SettledOn(w.matches, Expected(w, seenEcho), All(a)) && SameBytes(a, b)
    ensures SameStep(Next(w, seenEcho, promptBefore, a), Next(w, seenEcho, promptBefore, b))
  {
    var l := Expected(w, seenEcho);
    ReadingSettled(w.matches, l, a);
    ReadingSettled(w.matches, l, b);
    var (p, q) := (Reading(w.matches, l, a), Reading(w.matches, l, b));
    if p.Found? {
      ReadFacts(w.matches, l, a);
      ReadFacts(w.matches, l, b);
      JudgeSettled(w, seenEcho, p.hit, p.text, q.text, p.left, q.left);
    }
  }

  lemma JudgeSettled(w: World, seenEcho: bool, hit: Hit, s: Data, t: Data, a: Input, b: Input)
    requires Sane(w.matches) && hit.place < |Expected(w, seenEcho)|
    requires hit.m.start <= hit.m.end <= |s| && hit.m.end <= |t| && (s <= t || t <= s) && SameBytes(a, b)
    ensures SameStep(Judge(w, seenEcho, hit, s, a), Judge(w, seenEcho, hit, t, b))
  {
    hide Sane, Expected, EchoRestAt, Stream;
    var (i, j) := (hit.m.start, hit.m.end);
    assert s[..i] == t[..i] && s[i..j] == t[i..j];
    var (x, y) := (Input(s[..i] + a.pending, a.events), Input(s[..i] + b.pending, b.events));
    assert All(x) == s[..i] + All(a) && All(y) == s[..i] + All(b);
  }

  /** In each turn of a run over `s`, what is still to be read settles what is found. */
  ghost predicate SettledRun(w: World, seenEcho: bool, promptBefore: bool, s: Data, turns: nat)
    requires Sane(w.matches)
    decreases turns
  {
    turns > 0 ==>
      && SettledOn(w.matches, Expected(w, seenEcho), s)
      && match Next(w, seenEcho, promptBefore, Input(s, []))
         case EchoSeen(left) => SettledRun(w, true, false, All(left), turns - 1)
         case PutBack(left) => SettledRun(w, false, true, All(left), turns - 1)
         case Stopped(_) => true
         case Got(part, left) => part.entry.name != Prompt ==> SettledRun(w, true, false, All(left), turns - 1)
  }

  lemma SettledStep(w: World, seenEcho: bool, promptBefore: bool, a: Input, turns: nat)
    requires Sane(w.matches) && Plain(a) && turns > 0 && SettledRun(w, seenEcho, promptBefore, All(a), turns)
    ensures SettledOn(w.matches, Expected(w, seenEcho), All(a))
    ensures match Next(w, seenEcho, promptBefore, a)
            case EchoSeen(left) => SettledRun(w, true, false, All(left), turns - 1)
            case PutBack(left) => SettledRun(w, false, true, All(left), turns - 1)
            case Stopped(_) => true
            case Got(part, left) => part.entry.name != Prompt ==> SettledRun(w, true, false, All(left), turns - 1)
  {
    hide Next, SettledOn, Expected, Sane;
    assert All(Input(All(a), [])) == All(a);
    NextSettled(w, seenEcho, promptBefore, a, Input(All(a), []));
  }

  /** Over a stream that settles what each turn finds, the parts do not depend on how the network cut it. */
  lemma {:induction false} CutsDoNotMatter(w: World, seenEcho: bool, promptBefore: bool, a: Input, b: Input, turns: nat)
    requires Sane(w.matches) && SameBytes(a, b) && SettledRun(w, seenEcho, promptBefore, All(a), turns)
    ensures var s := Parts(w, seenEcho, promptBefore, a, turns);
            var t := Parts(w, seenEcho, promptBefore, b, turns);
            s.parts == t.parts && s.end == t.end && SameBytes(s.left, t.left)
    decreases turns
  {
    hide Parts, Next, SettledOn, SettledRun, Expected, All, Plain, Sane;
    if turns == 0 {
      NoTurns(w, seenEcho, promptBefore, a);
      NoTurns(w, seenEcho, promptBefore, b);
    } else {
      PartsStep(w, seenEcho, promptBefore, a, turns);
      PartsStep(w, seenEcho, promptBefore, b, turns);
      SettledStep(w, seenEcho, promptBefore, a, turns);
      NextSettled(w, seenEcho, promptBefore, a, b);
      var other := Next(w, seenEcho, promptBefore, b);
      match Next(w, seenEcho, promptBefore, a) {
        case EchoSeen(left) => CutsDoNotMatter(w, true, false, left, other.left, turns - 1);
        case PutBack(left) => CutsDoNotMatter(w, false, true, left, other.left, turns - 1);
        case Stopped(_) =>
        case Got(part, left) =>
          if part.entry.name != Prompt {
            CutsDoNotMatter(w, true, false, left, other.left, turns - 1);
          }
      }
    }
  }

  // ----- Where the cuts do matter

  /** The first place of a byte, as an unanchored pattern finds it. */
  function Search(b: nat, d: Data, i: nat): (r: Option<Match>)
    requires i <= |d|
    ensures r.Some? ==> r.value.start < r.value.end <= |d|
    decreases |d| - i
  {
    if i == |d| then None else if d[i] == b then Some(Match(i, i + 1, None)) else Search(b, d, i + 1)
  }

  /** A device whose echo is "e", whose prompt is "#" and whose pager is "M". */
  function Paging(): (w: World)
    ensures Sane(w.matches) && NeverEmpty(w.matches)
  {
    var matches: Matcher := (p: Pattern, d: Data) => Search(p.id, d, 0);
    World(matches, Pattern(0x65), Pattern(0x23), Pattern(0x4D), [], None, [], _ => [], (_, _) => None, d => Some(d))
  }

  /** What a turn reads when `text` comes in one piece and is the first to match. */
  lemma TurnReads(w: World, seenEcho: bool, text: Data, events: seq<Option<Data>>, hit: Hit)
    requires Sane(w.matches) && First(w.matches, Expected(w, seenEcho), []) == None
    requires First(w.matches, Expected(w, seenEcho), text) == Some(hit)
    ensures hit.place < |Expected(w, seenEcho)| && hit.m.start <= hit.m.end <= |text|
    ensures Reading(w.matches, Expected(w, seenEcho), Input([], [Some(text)] + events))
            == Found(hit, text, Input(text[hit.m.end..], events))
  {
    hide First, Expected, Sane;
    FirstInside(w.matches, Expected(w, seenEcho), text);
    assert ([Some(text)] + events)[1..] == events && [] + text == text;
    assert Reading(w.matches, Expected(w, seenEcho), Input(text, events)).Found?;
  }

  lemma TurnFinds(w: World, seenEcho: bool, text: Data, events: seq<Option<Data>>, hit: Hit)
    requires Sane(w.matches) && First(w.matches, Expected(w, seenEcho), []) == None
    requires First(w.matches, Expected(w, seenEcho), text) == Some(hit)
    ensures hit.place < |Expected(w, seenEcho)| && hit.m.start <= hit.m.end <= |text|
    ensures Next(w, seenEcho, false, Input([], [Some(text)] + events))
            == Judge(w, seenEcho, hit, text, Input(text[hit.m.end..], events))
  {
    hide First, Expected, Judge, Sane, Reading;
    TurnReads(w, seenEcho, text, events, hit);
  }

  /** The first match of the three patterns, by what they search for. */
  lemma PagingFirst(text: Data)
    ensures var (w, e, p, g) := (Paging(), Search(0x65, text, 0), Search(0x23, text, 0), Search(0x4D, text, 0));
            && First(w.matches, Expected(w, true), text)
               == (if p.Some? then Some(Hit(0, p.value)) else if g.Some? then Some(Hit(1, g.value)) else None)
            && First(w.matches, Expected(w, false), text)
               == if e.Some? then Some(Hit(0, e.value)) else if p.Some? then Some(Hit(1, p.value))
                  else if g.Some? then Some(Hit(2, g.value)) else None
  {
    hide Search;
    var w := Paging();
    var l, k := Expected(w, true), Expected(w, false);
    assert l == [Named(Prompt, w.prompt), Named(Pager, w.pager)];
    assert k == [Named(Echo, w.echo), Named(Prompt, w.prompt), Named(Pager, w.pager)];
    assert FirstFrom(w.matches, l, text, 2) == None && FirstFrom(w.matches, k, text, 3) == None;
    assert FirstFrom(w.matches, k, text, 2)
        == if Search(0x4D, text, 0).Some? then Some(Hit(2, Search(0x4D, text, 0).value)) else None;
    assert FirstFrom(w.matches, k, text, 1)
        == if Search(0x23, text, 0).Some? then Some(Hit(1, Search(0x23, text, 0).value))
           else FirstFrom(w.matches, k, text, 2);
  }

  lemma PagingTurns(events: seq<Option<Data>>)
    ensures var w := Paging();
            && Next(w, false, false, Input([], [Some([0x65])] + events)) == EchoSeen(Input([], events))
            && Next(w, true, false, Input([], [Some([0x4D, 0x23])] + events))
               == Got(Part(0, Named(Prompt, w.prompt), [0x4D], [0x23], []), Input([], events))
            && Next(w, true, false, Input([], [Some([0x4D])] + events))
               == Got(Part(1, Named(Pager, w.pager), [], [0x4D], []), Input([], events))
            && Next(w, true, false, Input([], [Some([0x23])] + events))
               == Got(Part(0, Named(Prompt, w.prompt), [], [0x23], []), Input([], events))
  {
    hide First, Next;
    var w := Paging();
    PagingFirst([]);
    PagingFirst([0x65]);
    PagingFirst([0x4D, 0x23]);
    PagingFirst([0x4D]);
    PagingFirst([0x23]);
    TurnFinds(w, false, [0x65], events, Hit(0, Match(0, 1, None)));
    TurnFinds(w, true, [0x4D, 0x23], events, Hit(0, Match(1, 2, None)));
    TurnFinds(w, true, [0x4D], events, Hit(1, Match(0, 1, None)));
    TurnFinds(w, true, [0x23], events, Hit(0, Match(0, 1, None)));
  }

  /** A script of at most one page and a prompt. */
  lemma PageAndPrompt(w: World, pages: seq<Part>, end: Part, left: Input)
    requires |pages| <= 1 && (forall p | p in pages :: p.entry.name == Pager) && end.entry.name == Prompt
    ensures Result(w, Script(pages + [end], Done, left)) == Some(Output(Pages(pages) + end.before + end.store))
  {
    hide Pages, Served, Questions, Repeats, Callbacks;
    var ps := pages + [end];
    OneMore(w, pages, end);
    assert forall k | 0 <= k < |ps| :: ps[k].entry.name in {Pager, Prompt};
    assert forall k | 0 <= k < |ps| :: !React(w, ps[..k], ps[k]).Refuse?;
  }

  lemma InOnePiece()
    ensures var w := Paging();
            Parts(w, false, false, Input([], [Some([0x65]), Some([0x4D, 0x23])]), 4)
            == Script([] + [Part(0, Named(Prompt, w.prompt), [0x4D], [0x23], [])], Done, Input([], []))
  {
    hide Next, Sane, NeverEmpty, Paging, Parts;
    var w := Paging();
    var a := [Some([0x4D, 0x23])];
    PagingTurns([]);
    PagingTurns(a);
    assert [Some([0x65]), Some([0x4D, 0x23])] == [Some([0x65])] + a && a == a + [];
    PartsStep(w, false, false, Input([], [Some([0x65])] + a), 4);
    PartsStep(w, true, false, Input([], a), 3);
  }

  lemma InTwoPieces()
    ensures var w := Paging();
            Parts(w, false, false, Input([], [Some([0x65]), Some([0x4D]), Some([0x23])]), 4)
            == Script([Part(1, Named(Pager, w.pager), [], [0x4D], [])]
                      + [Part(0, Named(Prompt, w.prompt), [], [0x23], [])], Done, Input([], []))
  {
    hide Next, Sane, NeverEmpty, Paging, Parts;
    var w := Paging();
    var b := [Some([0x4D]), Some([0x23])];
    PagingTurns([]);
    PagingTurns(b);
    PagingTurns([Some([0x23])]);
    assert [Some([0x65]), Some([0x4D]), Some([0x23])] == [Some([0x65])] + b && b == [Some([0x4D])] + [Some([0x23])];
    assert [Some([0x23])] == [Some([0x23])] + [];
    PartsStep(w, false, false, Input([], [Some([0x65])] + b), 4);
    PartsStep(w, true, false, Input([], b), 3);
    PartsStep(w, true, false, Input([], [Some([0x23])]), 2);
  }

  /**
   A pager's text right in front of a prompt: in one piece with the prompt it is output, in a piece of
   its own it is a page break.
   */
  lemma CutsMatter()
    ensures var w := Paging();
            var a := Input([], [Some([0x65]), Some([0x4D, 0x23])]);
            var b := Input([], [Some([0x65]), Some([0x4D]), Some([0x23])]);
            && All(a) == All(b)
            && Result(w, Parts(w, false, false, a, 4)) == Some(Output([0x4D]))
            && Result(w, Parts(w, false, false, b, 4)) == Some(Output([]))
  {
    hide Next, Sane, NeverEmpty, Paging, Result, Parts;
    var w := Paging();
    var page := Part(1, Named(Pager, w.pager), [], [0x4D], []);
    InOnePiece();
    InTwoPieces();
    PageAndPrompt(w, [], Part(0, Named(Prompt, w.prompt), [0x4D], [0x23], []), Input([], []));
    PageAndPrompt(w, [page], Part(0, Named(Prompt, w.prompt), [], [0x23], []), Input([], []));
    assert Pages([]) + [0x4D] + [] == [0x4D] && Pages([page]) + [] + [] == [];
    SameStream();
  }

  lemma NoEcho()
    ensures EchoRestAt(Paging(), Prompt, [0x78, 0x78]) == None
  {
    hide Expected;
    var (w, text, more) := (Paging(), [0x78, 0x78], [0x78, 0x78, LF]);
    assert Search(0x65, text, 1) == None && Search(0x65, more, 2) == None && Search(0x65, more, 1) == None;
    assert w.matches(w.echo, text) == None && w.matches(w.echo, more) == None;
    assert w.evaluate(text) == Some(text) && w.evaluate(more) == Some(more);
    assert text + [LF] == more;
  }

  lemma PromptSearch()
    ensures var text := [0x78, 0x78, 0x23];
            Search(0x65, text, 0) == None && Search(0x23, text, 0) == Some(Match(2, 3, None))
  {
    var text: Data := [0x78, 0x78, 0x23];
    assert Search(0x65, text, 2) == None && Search(0x65, text, 1) == None;
    assert Search(0x23, text, 2) == Some(Match(2, 3, None)) && Search(0x23, text, 1) == Search(0x23, text, 2);
  }

  lemma PromptPutBack()
    ensures var (w, input) := (Paging(), Input([], [Some([0x78, 0x78, 0x23])]));
            && Next(w, false, false, input) == PutBack(Input([0x78, 0x78], []))
            && PieceOf(w, false, false, input) == Dropped([0x78, 0x78, 0x23], Hit(1, Match(2, 3, None)))
  {
    hide First, Reading, EchoRestAt, EchoRest, Sane, NeverEmpty;
    var (w, text) := (Paging(), [0x78, 0x78, 0x23]);
    var hit := Hit(1, Match(2, 3, None));
    PagingFirst([]);
    PagingFirst(text);
    PromptSearch();
    assert [Some(text)] + [] == [Some(text)];
    TurnReads(w, false, text, [], hit);
    NoEcho();
    assert text[..2] == [0x78, 0x78] && text[3..] == [] && [0x78, 0x78] + [] == [0x78, 0x78];
    assert Judge(w, false, hit, text, Input([], [])) == PutBack(Input([0x78, 0x78], []));
  }

  /** A prompt in front of the echo is lost: of "xx#" only "xx" is read again. */
  lemma PromptLost()
    ensures var (w, input) := (Paging(), Input([], [Some([0x78, 0x78, 0x23])]));
            && Next(w, false, false, input) == PutBack(Input([0x78, 0x78], []))
            && Kept(Pieces(w, false, false, input, 1)) + All(Parts(w, false, false, input, 1).left) != All(input)
  {
    hide Parts, Next, Reading, All, Kept, Paging;
    var (w, input) := (Paging(), Input([], [Some([0x78, 0x78, 0x23])]));
    PromptPutBack();
    var ps := Pieces(w, false, false, input, 1);
    assert ps[0] in ps && ps[0].Dropped?;
    NothingLostExactly(w, false, false, input, 1);
  }

  lemma SameStream()
    ensures All(Input([], [Some([0x65]), Some([0x4D, 0x23])]))
            == All(Input([], [Some([0x65]), Some([0x4D]), Some([0x23])]))
  {
    StreamFirst([0x65], [Some([0x4D, 0x23])]);
    StreamFirst([0x65], [Some([0x4D]), Some([0x23])]);
    StreamFirst([0x4D, 0x23], []);
    StreamFirst([0x4D], [Some([0x23])]);
    StreamFirst([0x23], []);
  }

  lemma StreamFirst(data: Data, events: seq<Option<Data>>)
    ensures Stream([Some(data)] + events) == data + Stream(events)
  {
    assert ([Some(data)] + events)[1..] == events;
  }
}
