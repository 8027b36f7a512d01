/**
 Running a command: the loop of GenericExecute in pkg/device/genericcli/genericcli.go
 over the pattern list of pkg/expr/expr.go, which shrinks while the loop runs.

 Regular expressions are patterns that a parameter of the run matches against text.

 `Script` is the reference: it cuts the stream of the device into parts, without
 answering anything. `React` is the answer to one part after those before it.
 `Execution.Run` is the program: it reads and answers in one loop.
 */
module Execute {
  import opened Bytes

  type Data = seq<byte>

  datatype Name = Echo | Prompt | Pager | Question | Login | Callback

  datatype Pattern = Pattern(id: nat)

  datatype Match = Match(start: nat, end: nat, store: Option<Data>)

  // ----- The list of patterns

  datatype Named = Named(name: Name, pattern: Pattern)

  /** All entries but those of one name, in order. */
  function Without(l: seq<Named>, name: Name): seq<Named> {
    if l == [] then [] else (if l[0].name != name then [l[0]] else []) + Without(l[1..], name)
  }

  lemma {:induction false} WithoutAppend(l: seq<Named>, e: Named, name: Name)
    ensures Without(l + [e], name) == Without(l, name) + if e.name != name then [e] else []
  {
    if l == [] {
      assert [] + [e] == [e] && [e][1..] == [];
    } else {
      assert (l + [e])[1..] == l[1..] + [e];
      WithoutAppend(l[1..], e, name);
    }
  }

  lemma {:induction false} WithoutNone(l: seq<Named>, name: Name)
    requires forall e | e in l :: e.name != name
    ensures Without(l, name) == l
  {
    if l != [] {
      assert l[0] in l && forall e | e in l[1..] :: e in l;
      WithoutNone(l[1..], name);
    }
  }

  type Matcher = (Pattern, Data) -> Option<Match>

  ghost predicate Sane(matches: Matcher) {
    forall p, d :: matches(p, d).Some? ==> matches(p, d).value.start <= matches(p, d).value.end <= |d|
  }

  /** A match of the pattern at a place in the list. */
  datatype Hit = Hit(place: nat, m: Match)

  function FirstFrom(matches: Matcher, l: seq<Named>, text: Data, i: nat): (r: Option<Hit>)
    ensures r == None ==> forall j | i <= j < |l| :: matches(l[j].pattern, text) == None
    ensures r.Some? ==>
              var (k, m) := (r.value.place, r.value.m);
              && i <= k < |l| && matches(l[k].pattern, text) == Some(m)
              && forall j | i <= j < k :: matches(l[j].pattern, text) == None
    decreases |l| - i
  {
    if i >= |l| then None
    else
      match matches(l[i].pattern, text)
      case None => FirstFrom(matches, l, text, i + 1)
      case Some(m) => Some(Hit(i, m))
  }

  /** The first pattern of the list that matches. */
  function First(matches: Matcher, l: seq<Named>, text: Data): Option<Hit> {
    FirstFrom(matches, l, text, 0)
  }

  class SimpleExprList {
    var exprs: seq<Pattern>
    var exprsName: map<nat, Name>

    constructor ()
      ensures Valid() && List() == []
    {
      exprs, exprsName := [], map[];
    }

    ghost predicate Valid()
      reads this
    {
      forall i: nat :: i in exprsName <==> i < |exprs|
    }

    ghost function List(): (l: seq<Named>)
      requires Valid()
      reads this
      ensures |l| == |exprs|
    {
      seq(|exprs|, i requires 0 <= i < |exprs| reads this requires Valid() => Named(exprsName[i], exprs[i]))
    }

    method Add(name: Name, expr: Pattern)
      requires Valid()
      modifies this
      ensures Valid() && List() == old(List()) + [Named(name, expr)]
    {
      ghost var before := List();
      exprsName := exprsName[|exprs| := name];
      exprs := exprs + [expr];
      assert List() == before + [Named(name, expr)];
    }

    /** The names are put in order first, for a map is iterated in any order. */
    method Delete(name: Name)
      requires Valid()
      modifies this
      ensures Valid() && List() == Without(old(List()), name)
    {
      ghost var l := List();
      var tmpExprs: seq<Name> := [];
      var k := 0;
      while k < |exprs|
        invariant 0 <= k <= |exprs| && |tmpExprs| == k && forall j | 0 <= j < k :: tmpExprs[j] == exprsName[j]
      {
        tmpExprs := tmpExprs + [exprsName[k]];
        k := k + 1;
      }
      var newList := new SimpleExprList();
      k := 0;
      assert l[..0] == [];
      while k < |tmpExprs|
        modifies newList
        invariant 0 <= k <= |tmpExprs| == |exprs| && newList.Valid()
        invariant newList.List() == Without(l[..k], name)
      {
        assert l[..k + 1] == l[..k] + [l[k]];
        WithoutAppend(l[..k], l[k], name);
        if tmpExprs[k] != name {
          newList.Add(tmpExprs[k], exprs[k]);
        }
        k := k + 1;
      }
      assert l[..|l|] == l;
      ghost var shorter := newList.List();
      exprs, exprsName := newList.exprs, newList.exprsName;
      assert List() == shorter;
    }

    method GetName(index: nat) returns (name: Option<Name>)
      requires Valid()
      ensures name == if index < |List()| then Some(List()[index].name) else None
    {
      name := if index in exprsName then Some(exprsName[index]) else None;
    }

    method FindMatch(matches: Matcher, text: Data) returns (r: Option<Hit>)
      requires Valid()
      ensures r == First(matches, List(), text)
    {
      var i := 0;
      while i < |exprs|
        invariant 0 <= i <= |exprs| && First(matches, List(), text) == FirstFrom(matches, List(), text, i)
      {
        var m := matches(exprs[i], text);
        if m.Some? {
          return Some(Hit(i, m.value));
        }
        i := i + 1;
      }
      r := None;
    }
  }

  // ----- A command

  /** What command, device and connector bring: patterns, answers and the ways of looking at text. */
  datatype World = World(
    matches: Matcher,
    echo: Pattern,
    prompt: Pattern,
    pager: Pattern,
    questions: seq<Pattern>,
    login: Option<Pattern>,
    callbacks: seq<Pattern>,
    answerTo: Pattern -> Data,
    question: (Data, nat) -> Option<Data>,
    evaluate: Data -> Option<Data>)

  function NamedAll(name: Name, ps: seq<Pattern>): (l: seq<Named>)
    ensures |l| == |ps| && forall i | 0 <= i < |ps| :: l[i] == Named(name, ps[i])
  {
    seq(|ps|, i requires 0 <= i < |ps| => Named(name, ps[i]))
  }

  /** Everything in front of the callbacks. */
  function Fixed(w: World, seenEcho: bool): seq<Named> {
    (if seenEcho then [] else [Named(Echo, w.echo)])
    + [Named(Prompt, w.prompt), Named(Pager, w.pager)] + NamedAll(Question, w.questions)
    + (if w.login.Some? then [Named(Login, w.login.value)] else [])
  }

  function Expected(w: World, seenEcho: bool): seq<Named> {
    Fixed(w, seenEcho) + NamedAll(Callback, w.callbacks)
  }

  lemma EchoFirst(w: World)
    ensures Expected(w, false) == [Named(Echo, w.echo)] + Expected(w, true)
    ensures Without(Expected(w, false), Echo) == Expected(w, true)
    ensures |Fixed(w, false)| == |Fixed(w, true)| + 1
  {
    assert Fixed(w, false) == [Named(Echo, w.echo)] + Fixed(w, true);
    assert Expected(w, false)[1..] == Expected(w, true);
    WithoutNone(Expected(w, true), Echo);
  }

  /** Where the callbacks are, and where everything else is. */
  lemma CallbacksLast(w: World, seenEcho: bool, i: nat)
    requires i < |Expected(w, seenEcho)|
    ensures Expected(w, seenEcho)[i].name == Callback <==> i >= |Fixed(w, seenEcho)|
    ensures i >= |Fixed(w, seenEcho)| ==>
              && i - |Fixed(w, seenEcho)| < |w.callbacks|
              && Expected(w, seenEcho)[i].pattern == w.callbacks[i - |Fixed(w, seenEcho)|]
  {
    assert forall e | e in Fixed(w, seenEcho) :: e.name != Callback;
    if i < |Fixed(w, seenEcho)| {
      assert Expected(w, seenEcho)[i] == Fixed(w, seenEcho)[i];
    }
  }

  /** An entry of the name of the echo is the echo, and only in front of it all. */
  lemma OneEcho(w: World, seenEcho: bool, i: nat)
    requires i < |Expected(w, seenEcho)|
    ensures Expected(w, seenEcho)[i].name == Echo <==> !seenEcho && i == 0
  {
    EchoFirst(w);
    assert forall e | e in Expected(w, true) :: e.name != Echo;
    if !seenEcho && i > 0 {
      assert Expected(w, false)[i] == Expected(w, true)[i - 1];
    }
  }

  // ----- What the device sends, cut into parts

  /** Bytes at hand, and what comes later; None is a read that fails. */
  datatype Input = Input(pending: Data, events: seq<Option<Data>>)

  datatype Read =
    | Found(hit: Hit, text: Data, left: Input)
    | Fails
    | Waits   // nothing matches, and nothing more has come

  /** ReadTo: as little is taken in as one of the patterns needs to match. */
  function Reading(matches: Matcher, l: seq<Named>, input: Input): Read
    requires Sane(matches)
    decreases |input.events|
  {
    var (text, events) := (input.pending, input.events);
    match First(matches, l, text)
    case Some(hit) => Found(hit, text, Input(text[hit.m.end..], events))
    case None =>
      if events == [] then Waits
      else
        match events[0]
        case None => Fails
        case Some(data) => Reading(matches, l, Input(text + data, events[1..]))
  }

  lemma {:induction false} ReadFacts(matches: Matcher, l: seq<Named>, input: Input)
    requires Sane(matches)
    ensures var r := Reading(matches, l, input);
            r.Found? ==>
              && r.hit.place < |l| && r.hit.m.start <= r.hit.m.end <= |r.text|
              && First(matches, l, r.text) == Some(r.hit)
    decreases |input.events|
  {
    if First(matches, l, input.pending) == None && input.events != [] && input.events[0].Some? {
      ReadFacts(matches, l, Input(input.pending + input.events[0].value, input.events[1..]));
    }
  }

  /** A match that has to be dealt with: the output in front of it, its text, and what its "store" group keeps. */
  datatype Part = Part(place: nat, entry: Named, before: Data, matched: Data, store: Data)

  datatype Outcome =
    | Output(raw: Data)
    | ReadError
    | EchoError
    | QuestionError
    | CallbackLimit
    | InvalidIndex
    | LoginSeen
    | UnknownOption
    | Waiting

  /** What one turn of the loop finds. */
  datatype Step =
    | EchoSeen(left: Input)
    | PutBack(left: Input)   // a prompt in front of the echo
    | Got(part: Part, left: Input)
    | Stopped(why: Outcome)

  /** What follows the echo in a text, once it has gone through a terminal. */
  function EchoRest(w: World, text: Data): Option<Data>
    requires Sane(w.matches)
  {
    match w.evaluate(text)
    case None => None
    case Some(t) =>
      match w.matches(w.echo, t)
      case None => None
      case Some(m) => Some(t[m.end..])
  }

  /** A prompt may have taken the line feed that the echo needs. */
  function EchoRestAt(w: World, name: Name, text: Data): Option<Data>
    requires Sane(w.matches) && text != []
  {
    var rest := EchoRest(w, text);
    if rest == None && name == Prompt && text[|text| - 1] != LF then EchoRest(w, text + [LF]) else rest
  }

  function PartOf(e: Named, place: nat, before: Data, text: Data, m: Match): Part
    requires m.start <= m.end <= |text|
  {
    Part(place, e, before, text[m.start..m.end], if m.store.Some? then m.store.value else [])
  }

  /** What a match means, before or after the echo. */
  function Judge(w: World, seenEcho: bool, hit: Hit, text: Data, left: Input): Step
    requires Sane(w.matches) && hit.place < |Expected(w, seenEcho)| && hit.m.start <= hit.m.end <= |text|
  {
    var e := Expected(w, seenEcho)[hit.place];
    var before := text[..hit.m.start];
    if e.name == Echo then EchoSeen(left)
    else if seenEcho then Got(PartOf(e, hit.place, before, text, hit.m), left)
    else if |before| < 2 || (e.name != Question && e.name != Prompt) then Stopped(EchoError)
    else
      match EchoRestAt(w, e.name, before)
      case Some(rest) => Got(PartOf(e, hit.place, rest, text, hit.m), left)
      case None =>
        if e.name == Question then Stopped(EchoError)
        else PutBack(Input(before + left.pending, left.events))
  }

  function Next(w: World, seenEcho: bool, promptBefore: bool, input: Input): Step
    requires Sane(w.matches)
  {
    match Reading(w.matches, Expected(w, seenEcho), input)
    case Waits => Stopped(Waiting)
    case Fails => Stopped(if promptBefore then EchoError else ReadError)
    case Found(hit, text, left) =>
      ReadFacts(w.matches, Expected(w, seenEcho), input);
      Judge(w, seenEcho, hit, text, left)
  }

  datatype Ending =
    | Running              // the turns are used up
    | Done                 // a prompt
    | Failed(why: Outcome)

  datatype Script = Script(parts: seq<Part>, end: Ending, left: Input)

  function Then(part: Part, s: Script): Script {
    Script([part] + s.parts, s.end, s.left)
  }

  /** What at most `turns` turns find, up to and with the first prompt. */
  function Parts(w: World, seenEcho: bool, promptBefore: bool, input: Input, turns: nat): Script
    requires Sane(w.matches)
    decreases turns
  {
    if turns == 0 then Script([], Running, input)
    else
      match Next(w, seenEcho, promptBefore, input)
      case EchoSeen(left) => Parts(w, true, false, left, turns - 1)
      case PutBack(left) => Parts(w, false, true, left, turns - 1)
      case Stopped(why) => Script([], Failed(why), input)
      case Got(part, left) =>
        if part.entry.name == Prompt then Script([part], Done, left)
        else Then(part, Parts(w, true, false, left, turns - 1))
  }

  lemma PartsStep(w: World, seenEcho: bool, promptBefore: bool, input: Input, turns: nat)
    requires Sane(w.matches) && turns > 0
    ensures var (step, s) := (Next(w, seenEcho, promptBefore, input), Parts(w, seenEcho, promptBefore, input, turns));
            if step.EchoSeen? then s == Parts(w, true, false, step.left, turns - 1)
            else if step.PutBack? then s == Parts(w, false, true, step.left, turns - 1)
            else if step.Stopped? then s == Script([], Failed(step.why), input)
            else if step.part.entry.name == Prompt then s == Script([step.part], Done, step.left)
            else s == Then(step.part, Parts(w, true, false, step.left, turns - 1))
  {
    hide Next, Sane;
  }

  // ----- What is done about the parts

  /** The output of pages and of the last prompt, in order. */
  function Pages(ps: seq<Part>): Data {
    if ps == [] then []
    else
      var p := ps[|ps| - 1];
      Pages(ps[..|ps| - 1]) + if p.entry.name == Prompt || p.entry.name == Pager then p.before + p.store else []
  }

  function Callbacks(ps: seq<Part>): nat {
    if ps == [] then 0 else Callbacks(ps[..|ps| - 1]) + if ps[|ps| - 1].entry.name == Callback then 1 else 0
  }

  function Questions(ps: seq<Part>): seq<Data> {
    if ps == [] then []
    else Questions(ps[..|ps| - 1]) + if ps[|ps| - 1].entry.name == Question then [ps[|ps| - 1].matched] else []
  }

  /** How often in a row the last question has been asked. */
  function Repeats(qs: seq<Data>): nat {
    if qs == [] then 0
    else 1 + if |qs| > 1 && qs[|qs| - 2] == qs[|qs| - 1] then Repeats(qs[..|qs| - 1]) else 0
  }

  datatype Reaction = Send(data: Data) | Nothing | Refuse(why: Outcome)

  /** What is done about one part after the others. */
  function React(w: World, before: seq<Part>, p: Part): Reaction {
    match p.entry.name
    case Prompt => Nothing
    case Pager => Send([0x20])
    case Question =>
      (match w.question(p.matched, Repeats(Questions(before) + [p.matched]))
       case None => Refuse(QuestionError)
       case Some(a) => Send(a))
    case Callback => if Callbacks(before) == 100 then Refuse(CallbackLimit) else Send(w.answerTo(p.entry.pattern))
    case Login => Refuse(LoginSeen)
    case Echo => Refuse(UnknownOption)
  }

  /** What has been sent for the parts, in order. */
  function Answers(w: World, ps: seq<Part>): seq<Data> {
    if ps == [] then []
    else
      var r := React(w, ps[..|ps| - 1], ps[|ps| - 1]);
      Answers(w, ps[..|ps| - 1]) + if r.Send? then [r.data] else []
  }

  predicate AllServed(w: World, ps: seq<Part>) {
    forall k | 0 <= k < |ps| :: !React(w, ps[..k], ps[k]).Refuse?
  }

  /** The first part from `k` on that is refused, or the end. */
  function Served(w: World, ps: seq<Part>, k: nat): (n: nat)
    requires k <= |ps|
    ensures k <= n <= |ps|
    ensures forall j | k <= j < n :: !React(w, ps[..j], ps[j]).Refuse?
    ensures n < |ps| ==> React(w, ps[..n], ps[n]).Refuse?
    decreases |ps| - k
  {
    if k == |ps| || React(w, ps[..k], ps[k]).Refuse? then k else Served(w, ps, k + 1)
  }

  /** How a run over a script ends; None when the turns are used up. */
  function Result(w: World, s: Script): Option<Outcome> {
    var n := Served(w, s.parts, 0);
    if n < |s.parts| then Some(React(w, s.parts[..n], s.parts[n]).why)
    else
      match s.end
      case Running => None
      case Done => Some(Output(Pages(s.parts)))
      case Failed(why) => Some(why)
  }

  lemma OneMore(w: World, ps: seq<Part>, p: Part)
    ensures Pages(ps + [p]) ==
            if p.entry.name == Prompt || p.entry.name == Pager then Pages(ps) + p.before + p.store else Pages(ps)
    ensures Callbacks(ps + [p]) == Callbacks(ps) + if p.entry.name == Callback then 1 else 0
    ensures Questions(ps + [p]) == if p.entry.name == Question then Questions(ps) + [p.matched] else Questions(ps)
    ensures Answers(w, ps + [p]) ==
            if React(w, ps, p).Send? then Answers(w, ps) + [React(w, ps, p).data] else Answers(w, ps)
  {
    hide React, Repeats;
    assert (ps + [p])[..|ps|] == ps;
    assert Pages(ps) + (p.before + p.store) == Pages(ps) + p.before + p.store;
  }

  // ----- The program

  /** Where a run stands after a turn. */
  datatype Stand = Stand(handled: seq<Part>, seenEcho: bool, promptBefore: bool, coming: Input)

  predicate Answered(w: World, before: seq<Part>, part: Part, r: Option<Outcome>, after: seq<Part>) {
    match React(w, before, part)
    case Refuse(why) => r == Some(why) && after == before
    case _ =>
      && after == before + [part]
      && r == if part.entry.name == Prompt then Some(Output(Pages(after))) else None
  }

  /** What a turn does with what it finds. */
  predicate Turned(w: World, step: Step, before: seq<Part>, r: Option<Outcome>, now: Stand) {
    match step
    case EchoSeen(left) => r == None && now == Stand(before, true, false, left)
    case PutBack(left) => r == None && now == Stand(before, false, true, left)
    case Stopped(why) => r == Some(why) && now.handled == before
    case Got(part, left) =>
      Answered(w, before, part, r, now.handled) && now == Stand(now.handled, true, false, left)
  }

  class Connector {
    var pending: Data
    var events: seq<Option<Data>>
    var sent: seq<Data>

    constructor (events: seq<Option<Data>>)
      ensures pending == [] && this.events == events && sent == []
    {
      this.pending, this.events, this.sent := [], events, [];
    }

    function Coming(): Input
      reads this
    {
      Input(pending, events)
    }

    method ReadTo(matches: Matcher, exprs: SimpleExprList) returns (r: Read)
      requires Sane(matches) && exprs.Valid()
      modifies this`pending, this`events
      ensures r == Reading(matches, exprs.List(), old(Coming()))
      ensures r.Found? ==> Coming() == r.left
    {
      ghost var start := Coming();
      while true
        invariant Reading(matches, exprs.List(), start) == Reading(matches, exprs.List(), Coming())
        decreases |events|
      {
        var hit := exprs.FindMatch(matches, pending);
        if hit.Some? {
          var text := pending;
          pending := text[hit.value.m.end..];
          return Found(hit.value, text, Input(pending, events));
        }
        if events == [] {
          return Waits;
        }
        var event := events[0];
        if event == None {
          return Fails;
        }
        pending, events := pending + event.value, events[1..];
      }
    }

    method PrependBuffer(data: Data)
      modifies this`pending
      ensures pending == data + old(pending)
    {
      pending := data + pending;
    }

    method Write(data: Data)
      modifies this`sent
      ensures sent == old(sent) + [data]
    {
      sent := sent + [data];
    }
  }

  class Execution {
    const w: World
    const exprs: SimpleExprList
    const connector: Connector
    var callbackPatternStart: int
    var cbLimit: int
    var seenEcho: bool
    /** lastPromptBeforeEchoError is set */
    var promptBefore: bool
    var lastQuestion: Data
    var repeatedQuestionCount: nat
    var buffer: Data
    /** The parts dealt with so far. */
    ghost var handled: seq<Part>

    ghost predicate Valid()
      reads this, exprs, connector
    {
      Listed() && Told() && Asked()
    }

    /** The pattern list is the expected one, and callbackPatternStart is where the callbacks begin. */
    ghost predicate Listed()
      reads this, exprs
    {
      && Sane(w.matches) && exprs.Valid()
      && exprs.List() == Expected(w, seenEcho)
      && callbackPatternStart == |Fixed(w, seenEcho)|
      && (seenEcho ==> !promptBefore)
    }

    ghost predicate Told()
      reads this`buffer, this`handled, this`cbLimit, connector`sent
    {
      && buffer == Pages(handled) && connector.sent == Answers(w, handled)
      && cbLimit >= 0 && Callbacks(handled) == 100 - cbLimit
      && AllServed(w, handled)
    }

    ghost predicate Asked()
      reads this`handled, this`repeatedQuestionCount, this`lastQuestion
    {
      var qs := Questions(handled);
      && repeatedQuestionCount == Repeats(qs)
      && lastQuestion == if qs == [] then [] else qs[|qs| - 1]
    }

    lemma ValidFacts()
      ensures Valid() <==> Listed() && Told() && Asked()
      ensures Listed() ==> Sane(w.matches)
      ensures Told() ==> AllServed(w, handled) && connector.sent == Answers(w, handled)
    {
      hide Sane, Expected, Fixed, AllServed, Answers, Pages, Callbacks, Questions, Repeats;
    }

    constructor (w: World, connector: Connector)
      requires Sane(w.matches) && connector.sent == []
      ensures Valid() && this.w == w && this.connector == connector && fresh(exprs)
      ensures handled == [] && !seenEcho && !promptBefore
    {
      this.w, this.connector := w, connector;
      var list := new SimpleExprList();
      exprs := list;
      callbackPatternStart, cbLimit, seenEcho, promptBefore := 0, 100, false, false;
      lastQuestion, repeatedQuestionCount, buffer, handled := [], 0, [], [];
      new;
      BuildList();
    }

    /** The patterns in their order, and how many there are in front of the callbacks. */
    method BuildList()
      requires Sane(w.matches) && exprs.Valid() && exprs.List() == [] && !seenEcho && !promptBefore
      modifies exprs, this`callbackPatternStart
      ensures Listed()
    {
      exprs.Add(Echo, w.echo);
      exprs.Add(Prompt, w.prompt);
      exprs.Add(Pager, w.pager);
      AddAll(exprs, Question, w.questions);
      callbackPatternStart := 3 + |w.questions|;
      if w.login.Some? {
        exprs.Add(Login, w.login.value);
        callbackPatternStart := callbackPatternStart + 1;
      }
      assert exprs.List() == Fixed(w, false);
      AddAll(exprs, Callback, w.callbacks);
    }

    /** The echo has been seen: its pattern goes, and the callbacks move up by one. */
    method DropEcho()
      requires Listed() && !seenEcho
      modifies this`seenEcho, this`promptBefore, this`callbackPatternStart, exprs
      ensures Listed() && seenEcho && !promptBefore
    {
      hide Sane;
      EchoFirst(w);
      hide Expected, Fixed;
      seenEcho, promptBefore := true, false;
      exprs.Delete(Echo);
      callbackPatternStart := callbackPatternStart - 1;
    }

    /** checkEcho: what follows the echo in what came before a match. */
    method CheckEcho(mBefore: Data) returns (r: Option<Data>)
      requires Listed() && !seenEcho
      modifies this`seenEcho, this`promptBefore, this`callbackPatternStart, exprs
      ensures r == EchoRest(w, mBefore)
      ensures Listed() && seenEcho == r.Some? && promptBefore == (old(promptBefore) && r == None)
    {
      var termParsedEcho := w.evaluate(mBefore);
      if termParsedEcho == None {
        return None;
      }
      var mres := exprs.FindMatch(w.matches, termParsedEcho.value);
      EchoFirst(w);
      if mres == None {
        return None;
      }
      var name := exprs.GetName(mres.value.place);
      OneEcho(w, false, mres.value.place);
      if name != Some(Echo) {
        return None;
      }
      assert mres.value.m.end <= |termParsedEcho.value|;
      r := Some(termParsedEcho.value[mres.value.m.end..]);
      hide Expected, Fixed, Sane;
      DropEcho();
    }

    /** A match before the echo has been seen, if it is a question or a prompt: the output between echo and match. */
    method BeforeEcho(name: Name, mbefore: Data) returns (r: Option<Data>)
      requires Listed() && !seenEcho && mbefore != []
      modifies this`seenEcho, this`promptBefore, this`callbackPatternStart, exprs
      ensures r == EchoRestAt(w, name, mbefore)
      ensures Listed() && seenEcho == r.Some? && promptBefore == (old(promptBefore) && r == None)
    {
      hide Listed, EchoRest;
      r := CheckEcho(mbefore);
      if r == None && name == Prompt && mbefore[|mbefore| - 1] != LF {
        r := CheckEcho(mbefore + [LF]);
      }
    }

    /** One turn of the loop: None goes on, anything else is the result. */
    method Turn() returns (r: Option<Outcome>)
      requires Valid()
      modifies this, exprs, connector
      ensures Listed() && Told() && (r == None ==> Asked())
      ensures Turned(w, Next(w, old(seenEcho), old(promptBefore), old(connector.Coming())), old(handled), r,
                     Stand(handled, seenEcho, promptBefore, connector.Coming()))
    {
      hide Told, Asked, Expected, Fixed, Judge, First;
      var read := connector.ReadTo(w.matches, exprs);
      if read.Waits? {
        return Some(Waiting);
      }
      if read.Fails? {
        return Some(if promptBefore then EchoError else ReadError);
      }
      ReadFacts(w.matches, exprs.List(), old(connector.Coming()));
      hide Sane, Reading, Listed, Turned;
      r := OnMatch(read.hit, read.text);
    }

    method OnMatch(hit: Hit, text: Data) returns (r: Option<Outcome>)
      requires Valid() && hit.place < |exprs.List()| && hit.m.start <= hit.m.end <= |text|
      modifies this, exprs, connector
      ensures Listed() && Told() && (r == None ==> Asked())
      ensures Turned(w, Judge(w, old(seenEcho), hit, text, old(connector.Coming())), old(handled), r,
                     Stand(handled, seenEcho, promptBefore, connector.Coming()))
    {
      hide Told, Asked, Fixed, Pages, React, EchoRestAt, Sane, Expected, SimpleExprList.List, Answered, NamedAll;
      OneEcho(w, seenEcho, hit.place);
      ghost var e := exprs.List()[hit.place];
      var matchName := exprs.GetName(hit.place);
      var name := matchName.value;
      if name == Echo {
        DropEcho();
        return None;
      }
      var mbefore := text[..hit.m.start];
      if !seenEcho {
        if |mbefore| < 2 || (name != Question && name != Prompt) {
          return Some(EchoError);
        }
        var rest := BeforeEcho(name, mbefore);
        if rest == None {
          if name == Question {
            return Some(EchoError);
          }
          promptBefore := true;
          connector.PrependBuffer(mbefore);
          return None;
        }
        mbefore := rest.value;
      }
      var store := if hit.m.store.Some? then hit.m.store.value else [];
      r := Dispatch(e, hit.place, name, mbefore, text[hit.m.start..hit.m.end], store);
    }

    /** What is done about a match, by the name of its pattern. */
    method Dispatch(ghost e: Named, matchId: nat, name: Name, mbefore: Data, matched: Data, store: Data)
      returns (r: Option<Outcome>)
      requires Valid() && seenEcho && name == e.name && name != Echo
      requires name == Callback ==> matchId < |exprs.List()| && exprs.List()[matchId] == e
      modifies this`buffer, this`handled, this`cbLimit, this`lastQuestion, this`repeatedQuestionCount, connector`sent
      ensures Listed() && Told() && (r == None ==> Asked())
      ensures Answered(w, old(handled), Part(matchId, e, mbefore, matched, store), r, handled)
    {
      hide Sane, Expected, Fixed, Pages, Answers, Callbacks, Questions, Repeats, AllServed;
      ghost var part := Part(matchId, e, mbefore, matched, store);
      OneMore(w, handled, part);
      MoreServed(w, handled, part);
      r := None;
      if name == Prompt {
        buffer := buffer + mbefore + store;
        handled := handled + [part];
        r := Some(Output(buffer));
      } else if name == Pager {
        buffer := buffer + mbefore + store;
        connector.Write([0x20]);
        handled := handled + [part];
      } else if name == Question {
        r := OnQuestion(part, matched);
      } else if name == Callback {
        r := OnCallback(part, matchId);
      } else if name == Login {
        r := Some(LoginSeen);
      } else {
        r := Some(UnknownOption);
      }
    }

    method OnQuestion(ghost part: Part, question: Data) returns (r: Option<Outcome>)
      requires Valid() && part.entry.name == Question && part.matched == question
      modifies this`lastQuestion, this`repeatedQuestionCount, this`handled, connector`sent
      ensures Listed() && Told() && (r == None ==> Asked())
      ensures Answered(w, old(handled), part, r, handled)
    {
      hide Sane, Expected, Fixed, Pages, Answers, Callbacks, Questions, AllServed;
      ghost var qs := Questions(handled);
      OneMore(w, handled, part);
      MoreServed(w, handled, part);
      assert (qs + [question])[..|qs|] == qs;
      if question == lastQuestion {
        repeatedQuestionCount := repeatedQuestionCount + 1;
      } else {
        repeatedQuestionCount := 1;
        lastQuestion := question;
      }
      var answer := w.question(question, repeatedQuestionCount);
      if answer == None {
        return Some(QuestionError);
      }
      connector.Write(answer.value);
      handled := handled + [part];
      r := None;
    }

    /** The answer is looked up by how far behind the first callback the matching pattern is. */
    method OnCallback(ghost part: Part, matchId: nat) returns (r: Option<Outcome>)
      requires Valid() && part.place == matchId < |exprs.List()|
      requires exprs.List()[matchId] == part.entry && part.entry.name == Callback
      modifies this`cbLimit, this`handled, connector`sent
      ensures Valid() && Answered(w, old(handled), part, r, handled)
    {
      hide Sane, Pages, Answers, Callbacks, Questions, AllServed, Expected, Fixed;
      CallbacksLast(w, seenEcho, matchId);
      OneMore(w, handled, part);
      MoreServed(w, handled, part);
      if cbLimit == 0 {
        return Some(CallbackLimit);
      }
      cbLimit := cbLimit - 1;
      var callbackIndex := matchId - callbackPatternStart;
      if callbackIndex < 0 || callbackIndex >= |w.callbacks| {
        return Some(InvalidIndex);
      }
      connector.Write(w.answerTo(w.callbacks[callbackIndex]));
      handled := handled + [part];
      r := None;
    }

    /** The loop, for at most so many turns; None when they are used up. */
    method Run(turns: nat) returns (r: Option<Outcome>)
      requires Valid() && handled == [] && !seenEcho && !promptBefore
      modifies this, exprs, connector
      ensures var s := Parts(w, false, false, old(connector.Coming()), turns);
              && r == Result(w, s)
              && handled == s.parts[..Served(w, s.parts, 0)]
              && connector.sent == Answers(w, handled)
    {
      hide Valid, Listed, Told, Asked, Sane, Parts, Next, Turned, Served, AllServed, Answers, After, Result;
      ValidFacts();
      ghost var s := Parts(w, false, false, connector.Coming(), turns);
      NothingBefore(s);
      var i := 0;
      while i < turns
        invariant 0 <= i <= turns && Valid()
        invariant s == After(handled, Parts(w, seenEcho, promptBefore, connector.Coming(), turns - i))
      {
        ValidFacts();
        ghost var was := Stand(handled, seenEcho, promptBefore, connector.Coming());
        r := Turn();
        ValidFacts();
        ghost var now := Stand(handled, seenEcho, promptBefore, connector.Coming());
        if r.Some? {
          TurnEnds(w, was, turns - i, r, now);
          return;
        }
        TurnGoes(w, was, turns - i, now);
        i := i + 1;
      }
      ValidFacts();
      TurnsUsedUp(w, handled, seenEcho, promptBefore, connector.Coming());
      r := None;
    }
  }

  /** A script behind the parts that have been dealt with. */
  function After(ps: seq<Part>, s: Script): Script {
    Script(ps + s.parts, s.end, s.left)
  }

  lemma ServedIs(w: World, ps: seq<Part>, k: nat)
    requires k <= |ps| && AllServed(w, ps[..k]) && (k < |ps| ==> React(w, ps[..k], ps[k]).Refuse?)
    ensures Served(w, ps, 0) == k
  {
    hide React;
    assert forall j | 0 <= j < k :: ps[..k][..j] == ps[..j];
  }

  lemma NothingBefore(s: Script)
    ensures After([], s) == s
  {
    assert [] + s.parts == s.parts;
  }

  lemma TurnsUsedUp(w: World, ps: seq<Part>, seenEcho: bool, promptBefore: bool, input: Input)
    requires Sane(w.matches) && AllServed(w, ps)
    ensures var s := After(ps, Parts(w, seenEcho, promptBefore, input, 0));
            Result(w, s) == None && ps == s.parts[..Served(w, s.parts, 0)]
  {
    hide AllServed, Pages, Served, React;
    assert ps + [] == ps == ps[..|ps|];
    ServedIs(w, ps, |ps|);
  }

  lemma TurnGoes(w: World, was: Stand, n: nat, now: Stand)
    requires Sane(w.matches) && n > 0
    requires Turned(w, Next(w, was.seenEcho, was.promptBefore, was.coming), was.handled, None, now)
    ensures After(was.handled, Parts(w, was.seenEcho, was.promptBefore, was.coming, n))
            == After(now.handled, Parts(w, now.seenEcho, now.promptBefore, now.coming, n - 1))
  {
    hide Parts, Next, React, Pages, Sane;
    PartsStep(w, was.seenEcho, was.promptBefore, was.coming, n);
    var step := Next(w, was.seenEcho, was.promptBefore, was.coming);
    if step.Got? {
      var rest := Parts(w, true, false, step.left, n - 1);
      assert was.handled + ([step.part] + rest.parts) == was.handled + [step.part] + rest.parts;
    }
  }

  lemma TurnEnds(w: World, was: Stand, n: nat, r: Option<Outcome>, now: Stand)
    requires Sane(w.matches) && n > 0 && AllServed(w, was.handled) && AllServed(w, now.handled) && r.Some?
    requires Turned(w, Next(w, was.seenEcho, was.promptBefore, was.coming), was.handled, r, now)
    ensures var s := After(was.handled, Parts(w, was.seenEcho, was.promptBefore, was.coming, n));
            r == Result(w, s) && now.handled == s.parts[..Served(w, s.parts, 0)]
  {
    hide Parts, Next, React, Pages, AllServed, Served, Sane;
    PartsStep(w, was.seenEcho, was.promptBefore, was.coming, n);
    var step := Next(w, was.seenEcho, was.promptBefore, was.coming);
    var script := Parts(w, was.seenEcho, was.promptBefore, was.coming, n);
    var s := After(was.handled, script);
    assert s.parts[..|was.handled|] == was.handled;
    if step.Got? && !React(w, was.handled, step.part).Refuse? {
      assert s.parts == now.handled == now.handled[..|now.handled|];
      ServedIs(w, s.parts, |now.handled|);
    } else {
      assert step.Got? ==> s.parts[|was.handled|] == script.parts[0] == step.part;
      assert !step.Got? ==> s.parts == was.handled;
      ServedIs(w, s.parts, |was.handled|);
    }
  }

  lemma MoreServed(w: World, ps: seq<Part>, p: Part)
    requires AllServed(w, ps)
    ensures !React(w, ps, p).Refuse? ==> AllServed(w, ps + [p])
  {
    assert (ps + [p])[..|ps|] == ps;
    assert forall k | 0 <= k < |ps| :: (ps + [p])[..k] == ps[..k];
  }

  method AddAll(exprs: SimpleExprList, name: Name, ps: seq<Pattern>)
    requires exprs.Valid()
    modifies exprs
    ensures exprs.Valid() && exprs.List() == old(exprs.List()) + NamedAll(name, ps)
  {
    var i := 0;
    while i < |ps|
      invariant 0 <= i <= |ps| && exprs.Valid() && exprs.List() == old(exprs.List()) + NamedAll(name, ps[..i])
    {
      assert NamedAll(name, ps[..i + 1]) == NamedAll(name, ps[..i]) + [Named(name, ps[i])];
      exprs.Add(name, ps[i]);
      i := i + 1;
    }
    assert ps[..|ps|] == ps;
  }
}
