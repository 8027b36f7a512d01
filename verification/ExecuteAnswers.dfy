/** What GenericExecute sends, puts out and refuses, part by part; what it takes for the echo, and when it stops. */
module ExecuteAnswers {
  import opened Bytes
  import opened Execute
  import opened ExecuteLaws

  // ----- Questions in a row

  /** The last `n` entries are equal, and the one before them is not. */
  predicate InARow(qs: seq<Data>, n: nat) {
    && 1 <= n <= |qs| && (forall i | |qs| - n <= i < |qs| :: qs[i] == qs[|qs| - 1])
    && (n < |qs| ==> qs[|qs| - 1 - n] != qs[|qs| - 1])
  }

  lemma OneLength(qs: seq<Data>, n: nat, k: nat)
    requires InARow(qs, n) && InARow(qs, k)
    ensures n == k
  {
  }

  /** The repeat count is how often the last question was asked in a row. */
  lemma {:induction false} RepeatsExactly(qs: seq<Data>, n: nat)
    requires qs != []
    ensures InARow(qs, n) <==> n == Repeats(qs)
    decreases |qs|
  {
    if |qs| > 1 && qs[|qs| - 2] == qs[|qs| - 1] {
      var init := qs[..|qs| - 1];
      RepeatsExactly(init, Repeats(init));
      assert init[|init| - 1] == qs[|qs| - 2];
    }
    assert InARow(qs, Repeats(qs));
    if InARow(qs, n) {
      OneLength(qs, n, Repeats(qs));
    }
  }

  /** The texts of the questions among the parts, in order. */
  lemma {:induction false} QuestionsFront(p: Part, ps: seq<Part>)
    ensures Questions([p] + ps) == (if p.entry.name == Question then [p.matched] else []) + Questions(ps)
    decreases |ps|
  {
    if ps == [] {
      assert [p] + ps == [p] && [p][..0] == [];
    } else {
      var init := ps[..|ps| - 1];
      assert ([p] + ps)[..|ps|] == [p] + init;
      QuestionsFront(p, init);
    }
  }

  /** What is done about a question that was asked `n` times in a row before: the handler is told n + 1. */
  lemma QuestionAsked(w: World, ps: seq<Part>, p: Part, n: nat)
    requires p.entry.name == Question && n <= |Questions(ps)|
    requires forall i | |Questions(ps)| - n <= i < |Questions(ps)| :: Questions(ps)[i] == p.matched
    requires n < |Questions(ps)| ==> Questions(ps)[|Questions(ps)| - 1 - n] != p.matched
    ensures var a := w.question(p.matched, n + 1);
            && React(w, ps, p) == (if a == None then Refuse(QuestionError) else Send(a.value))
            && Answers(w, ps + [p]) == Answers(w, ps) + if a == None then [] else [a.value]
  {
    hide Repeats, Questions, Pages, Answers;
    var qs := Questions(ps) + [p.matched];
    assert n < |Questions(ps)| ==> qs[|qs| - 2 - n] == Questions(ps)[|qs| - 2 - n];
    assert InARow(qs, n + 1);
    RepeatsExactly(qs, n + 1);
    OneMore(w, ps, p);
  }

  // ----- The other parts

  /** A pager is answered by a space, a callback by what belongs to its pattern, the first hundred times. */
  lemma OthersAnswered(w: World, ps: seq<Part>, p: Part)
    ensures p.entry.name == Pager ==> Answers(w, ps + [p]) == Answers(w, ps) + [[0x20]]
    ensures p.entry.name == Callback ==>
              Answers(w, ps + [p])
              == Answers(w, ps) + if Callbacks(ps) == 100 then [] else [w.answerTo(p.entry.pattern)]
    ensures p.entry.name in {Prompt, Login, Echo} ==> Answers(w, ps + [p]) == Answers(w, ps)
    ensures React(w, ps, p).Refuse? <==>
            || (p.entry.name == Login) || (p.entry.name == Echo) || (p.entry.name == Callback && Callbacks(ps) == 100)
            || (p.entry.name == Question && w.question(p.matched, Repeats(Questions(ps) + [p.matched])) == None)
  {
    hide Repeats, Questions, Pages, Callbacks, Answers;
    OneMore(w, ps, p);
  }

  lemma {:induction false} CallbacksFront(p: Part, ps: seq<Part>)
    ensures Callbacks([p] + ps) == (if p.entry.name == Callback then 1 else 0) + Callbacks(ps)
    decreases |ps|
  {
    if ps == [] {
      assert [p] + ps == [p] && [p][..0] == [];
    } else {
      assert ([p] + ps)[..|ps|] == [p] + ps[..|ps| - 1];
      CallbacksFront(p, ps[..|ps| - 1]);
    }
  }

  /** What a part adds to the output: a pager and a prompt the text before them and what they store. */
  function Shown(p: Part): Data {
    if p.entry.name in {Prompt, Pager} then p.before + p.store else []
  }

  lemma PagesLast(ps: seq<Part>, p: Part)
    ensures Pages(ps + [p]) == Pages(ps) + Shown(p)
  {
    assert (ps + [p])[..|ps|] == ps;
  }

  /** The output is what the parts add, in order. */
  lemma {:induction false} PagesFront(p: Part, ps: seq<Part>)
    ensures Pages([p] + ps) == Shown(p) + Pages(ps) && Pages([]) == []
    decreases |ps|
  {
    hide Pages, Shown;
    NoPages();
    if ps == [] {
      PagesLast([], p);
      assert [p] + ps == [] + [p] && [] + Shown(p) == Shown(p) == Shown(p) + [];
    } else {
      var init, q := ps[..|ps| - 1], ps[|ps| - 1];
      PagesFront(p, init);
      PagesLast(init, q);
      PagesLast([p] + init, q);
      assert ps == init + [q] && [p] + ps == ([p] + init) + [q];
      assert Shown(p) + Pages(init) + Shown(q) == Shown(p) + (Pages(init) + Shown(q));
    }
  }

  lemma NoPages()
    ensures Pages([]) == []
  {
  }

  // ----- The echo

  /** In what the terminal makes of the text, everything behind the first echo. */
  lemma BehindEcho(w: World, name: Name, text: Data, shown: Data, m: Match)
    requires Sane(w.matches) && text != [] && w.evaluate(text) == Some(shown) && w.matches(w.echo, shown) == Some(m)
    ensures EchoRestAt(w, name, text) == Some(shown[m.end..])
  {
  }

  /** Only a prompt, and only one that no line feed precedes, is given one for the echo. */
  lemma WithLineFeed(w: World, name: Name, text: Data)
    requires Sane(w.matches) && text != []
    requires w.evaluate(text) == None || w.matches(w.echo, w.evaluate(text).value) == None
    ensures var more := text + [0x0A];
            EchoRestAt(w, name, text) ==
            if name != Prompt || text[|text| - 1] == 0x0A || w.evaluate(more) == None then None
            else
              var m := w.matches(w.echo, w.evaluate(more).value);
              if m == None then None else Some(w.evaluate(more).value[m.value.end..])
  {
  }

  // ----- When a turn stops

  /**
   Without a match a turn waits, or fails for a read that failed; after the echo no match stops it; before
   the echo any match does that is not the echo itself, but for a question with the echo in front of it and a
   prompt, both with at least two bytes before them.
   */
  lemma StopsExactly(w: World, seenEcho: bool, promptBefore: bool, input: Input)
    requires Sane(w.matches)
    ensures var (r, l) := (Reading(w.matches, Expected(w, seenEcho), input), Expected(w, seenEcho));
            var step := Next(w, seenEcho, promptBefore, input);
            if r == Waits then step == Stopped(Waiting)
            else if r == Fails then step == Stopped(if promptBefore then EchoError else ReadError)
            else
              && r.hit.place < |l| && r.hit.m.start <= |r.text|
              && var (name, before) := (l[r.hit.place].name, r.text[..r.hit.m.start]);
                 step.Stopped? <==>
                 && !seenEcho && name != Echo
                 && (|before| < 2 || name !in {Question, Prompt}
                     || (name == Question && EchoRestAt(w, Question, before) == None))
    ensures var step := Next(w, seenEcho, promptBefore, input);
            Reading(w.matches, Expected(w, seenEcho), input).Found? && step.Stopped? ==> step.why == EchoError
  {
    hide Expected, Reading, EchoRestAt, EchoRest, Sane;
    ReadFacts(w.matches, Expected(w, seenEcho), input);
    var r := Reading(w.matches, Expected(w, seenEcho), input);
    if r.Found? {
      OneEcho(w, seenEcho, r.hit.place);
    }
  }

  // ----- The list

  /** The patterns in order: echo, prompt, pager, questions, login, callbacks. */
  lemma ExpectedAre(w: World)
    ensures Expected(w, false) == [Named(Echo, w.echo)] + Expected(w, true)
    ensures var (q, k) := (|w.questions|, |w.questions| + if w.login.Some? then 1 else 0);
            var l := Expected(w, true);
            && |l| == 2 + k + |w.callbacks| && l[0] == Named(Prompt, w.prompt) && l[1] == Named(Pager, w.pager)
            && (forall i | 0 <= i < q :: l[2 + i] == Named(Question, w.questions[i]))
            && (w.login.Some? ==> l[2 + q] == Named(Login, w.login.value))
            && (forall i | 0 <= i < |w.callbacks| :: l[2 + k + i] == Named(Callback, w.callbacks[i]))
  {
    EchoFirst(w);
  }
}
