/** What the terminal evaluator promises, for every input. */
module TerminalLaws {
  import opened Bytes
  import opened Terminal

  // ----- Line feeds

  function Tally(tokens: seq<Token>, t: Token): nat {
    if tokens == [] then 0 else (if tokens[0] == t then 1 else 0) + Tally(tokens[1..], t)
  }

  lemma {:induction false} LexCounts(s: seq<byte>)
    requires Bad !in Lex(s)
    ensures Plain(LF) !in Lex(s)
    ensures Count(s, LF) == Tally(Lex(s), Feed) + Tally(Lex(s), Stray(LF))
    decreases |s|
  {
    hide FinalAt, Control, Count;
    CountZero([], LF);
    if s != [] {
      var (t, n) := Next(s);
      assert Lex(s) == [t] + Lex(s[n..]) && Lex(s)[1..] == Lex(s[n..]);
      LexCounts(s[n..]);
      TokenFeeds(s);
      if s[0] == ESC {
        EscapeTokens(s);
      } else {
        SimpleToken(s);
      }
      assert s == s[..n] + s[n..];
      CountAppend(s[..n], s[n..], LF);
    }
  }

  lemma TokenFeeds(s: seq<byte>)
    requires s != [] && Next(s).0 != Bad
    ensures Count(s[..Next(s).1], LF) == if Next(s).0 in {Feed, Stray(LF)} then 1 else 0
  {
    hide Atoi, IsDigit, Decimal, ParameterLen, IntermediateLen;
    var (t, n) := Next(s);
    var head := s[..n];
    if s[0] != ESC {
      SimpleToken(s);
      assert head == [s[0]] && head[1..] == [];
    } else {
      EscapeTokens(s);
      CountZero(head, LF);
      if t.Stray? {
        assert head == [ESC, s[1]];
        CountPair(ESC, s[1], LF);
      } else if s[1] == CSI {
        NextControl(s);
        var tail := s[2..];
        var p := ParameterLen(tail);
        forall i | 0 <= i < n ensures head[i] != LF {
          if 2 <= i < 2 + p {
            assert s[i] == tail[i - 2];
          } else if 2 + p <= i < n - 1 {
            assert s[i] == tail[p..][i - 2 - p];
          }
        }
      }
    }
  }

  /** What a cursor move cuts off the line. */
  function CutPart(ed: Editor, t: Token): seq<byte> {
    if t.Back? then ed.line[if t.n <= |ed.line| then |ed.line| - t.n else 0..] else []
  }

  /** The line feeds that cursor moves cut off, all along the evaluation. */
  function CutAll(ed: Editor, tokens: seq<Token>): nat
    decreases tokens
  {
    if tokens == [] then 0
    else
      Count(CutPart(ed, tokens[0]), LF)
      + if Apply(ed, tokens[0]).Edited? then CutAll(Apply(ed, tokens[0]).ed, tokens[1..]) else 0
  }

  lemma {:induction false} FoldCounts(ed: Editor, tokens: seq<Token>, t: seq<byte>)
    requires Fold(ed, tokens) == Text(t) && Plain(LF) !in tokens
    ensures Count(t, LF) + CutAll(ed, tokens)
            == Count(ed.All(), LF) + Tally(tokens, Feed) + Tally(tokens, Stray(LF))
    decreases tokens
  {
    hide Count, CutPart;
    if tokens != [] {
      var next := Apply(ed, tokens[0]).ed;
      ApplyCounts(ed, tokens[0]);
      FoldCounts(next, tokens[1..], t);
    }
  }

  lemma {:induction false} FoldCountsDone(ed: Editor, tokens: seq<Token>, t: seq<byte>)
    requires Fold(ed, tokens) == Text(t) && Plain(LF) !in tokens
    ensures Count(ed.done, LF) + Tally(tokens, Feed) <= Count(t, LF)
    decreases tokens
  {
    hide Count;
    CountAppend(ed.done, ed.line, LF);
    if tokens != [] {
      var next := Apply(ed, tokens[0]).ed;
      ApplyCountsDone(ed, tokens[0]);
      FoldCountsDone(next, tokens[1..], t);
    }
  }

  lemma CountPair(a: byte, b: byte, x: byte)
    ensures Count([a, b], x) == (if a == x then 1 else 0) + if b == x then 1 else 0
  {
    assert [a, b] == [a] + [b];
    CountAppend([a], [b], x);
  }

  lemma ApplyCounts(ed: Editor, token: Token)
    requires Apply(ed, token).Edited? && token != Plain(LF)
    ensures Count(Apply(ed, token).ed.All(), LF) + Count(CutPart(ed, token), LF)
            == Count(ed.All(), LF) + if token == Feed || token == Stray(LF) then 1 else 0
  {
    hide Count, LastIndex;
    if token.ClearLine? || token.Erase? || token.Back? {
      RemovalCounts(ed, token);
    } else {
      AdditionCounts(ed, token);
    }
  }

  lemma AdditionCounts(ed: Editor, token: Token)
    requires Apply(ed, token).Edited? && token != Plain(LF) && !(token.ClearLine? || token.Erase? || token.Back?)
    ensures Count(Apply(ed, token).ed.All(), LF)
            == Count(ed.All(), LF) + if token == Feed || token == Stray(LF) then 1 else 0
    ensures Count(CutPart(ed, token), LF) == 0
  {
    hide Count, LastIndex;
    CountZero([], LF);
    var next := Apply(ed, token).ed;
    match token {
      case Plain(b) => Appended(ed.All(), [b], next.All());
      case Feed => Appended(ed.All(), [LF], next.All());
      case KeptReturn => Appended(ed.All(), [CR], next.All());
      case Nothing =>
      case Stray(b) =>
        Appended(ed.All(), [ESC, b], next.All());
        CountPair(ESC, b, LF);
    }
  }

  /** What these tokens remove is the end of the line, without line feeds but for what a cursor move cuts off. */
  lemma RemovalCounts(ed: Editor, token: Token)
    requires Apply(ed, token).Edited? && (token.ClearLine? || token.Erase? || token.Back?)
    ensures Count(Apply(ed, token).ed.All(), LF) + Count(CutPart(ed, token), LF) == Count(ed.All(), LF)
  {
    hide Count, Apply, CutPart;
    CountZero([], LF);
    var removed := Removed(ed, token);
    Appended(Apply(ed, token).ed.All(), removed, ed.All());
    CountZero(removed, LF);
  }

  lemma Removed(ed: Editor, token: Token) returns (removed: seq<byte>)
    requires Apply(ed, token).Edited? && (token.ClearLine? || token.Erase? || token.Back?)
    ensures ed.All() == Apply(ed, token).ed.All() + removed
    ensures if token.Back? then removed == CutPart(ed, token) else CutPart(ed, token) == [] && LF !in removed
  {
    if token.ClearLine? {
      removed := ed.line[LastIndex(ed.line, LF) + 1..];
    } else {
      hide LastIndex;
      removed := ed.line[|Apply(ed, token).ed.line|..];
    }
  }

  lemma ApplyCountsDone(ed: Editor, token: Token)
    requires Apply(ed, token).Edited?
    ensures Count(ed.done, LF) + (if token == Feed then 1 else 0) <= Count(Apply(ed, token).ed.done, LF)
  {
    hide Count, LastIndex;
    var next := Apply(ed, token).ed;
    if token == Feed {
      CountAppend(ed.done, ed.line, LF);
      Appended(ed.All(), [LF], next.done);
    } else if token == ClearLine {
      Appended(ed.done, ed.line[..LastIndex(ed.line, LF) + 1], next.done);
    }
  }

  lemma Appended(a: seq<byte>, b: seq<byte>, c: seq<byte>)
    requires c == a + b
    ensures Count(c, LF) == Count(a, LF) + Count(b, LF)
    ensures |b| == 1 ==> Count(b, LF) == if b[0] == LF then 1 else 0
  {
    CountAppend(a, b, LF);
  }

  lemma {:induction false} TextHasNoBad(ed: Editor, tokens: seq<Token>)
    requires Fold(ed, tokens).Text?
    ensures Bad !in tokens
    decreases tokens
  {
    if tokens != [] {
      TextHasNoBad(Apply(ed, tokens[0]).ed, tokens[1..]);
    }
  }

  /** The output has the line feeds of the input but for those that cursor moves cut off. */
  lemma LineFeedsKept(s: seq<byte>, t: seq<byte>)
    requires Evaluate(s) == Text(t)
    ensures Count(t, LF) + CutAll(BLANK, Lex(s)) == Count(s, LF)
  {
    hide Fold, Lex, CutAll, Tally;
    TextHasNoBad(BLANK, Lex(s));
    LexCounts(s);
    FoldCounts(BLANK, Lex(s), t);
    assert BLANK.All() == [];
    CountZero([], LF);
  }

  /** Only those that follow a stray ESC can be cut off. */
  lemma OnlyStraysLost(s: seq<byte>, t: seq<byte>)
    requires Evaluate(s) == Text(t)
    ensures CutAll(BLANK, Lex(s)) <= Tally(Lex(s), Stray(LF))
  {
    hide Fold, Lex, CutAll, Tally;
    TextHasNoBad(BLANK, Lex(s));
    LexCounts(s);
    LineFeedsKept(s, t);
    FoldCountsDone(BLANK, Lex(s), t);
  }

  lemma {:induction false} NothingCut(ed: Editor, tokens: seq<Token>)
    requires Fold(ed, tokens).Text?
    ensures CutAll(ed, tokens) == 0 <==>
            forall k, mid | 0 <= k < |tokens| && Reaches(ed, tokens[..k], mid) :: LF !in CutPart(mid, tokens[k])
    decreases tokens
  {
    if tokens != [] {
      var next, rest := Apply(ed, tokens[0]).ed, tokens[1..];
      NothingCut(next, rest);
      CountZero(CutPart(ed, tokens[0]), LF);
      assert tokens[..0] == [] && Reaches(ed, tokens[..0], ed);
      forall k, mid | 0 <= k < |rest| ensures Reaches(next, rest[..k], mid) <==> Reaches(ed, tokens[..k + 1], mid) {
        assert tokens[..k + 1][1..] == rest[..k];
      }
      hide CutPart, Count;
      if k, mid :| 0 <= k < |rest| && Reaches(next, rest[..k], mid) && LF in CutPart(mid, rest[k]) {
        assert Reaches(ed, tokens[..k + 1], mid) && tokens[k + 1] == rest[k];
      }
      forall k, mid | 0 <= k < |tokens| && Reaches(ed, tokens[..k], mid) && CutAll(ed, tokens) == 0
        ensures LF !in CutPart(mid, tokens[k])
      {
        if k > 0 {
          assert Reaches(next, rest[..k - 1], mid) && rest[k - 1] == tokens[k];
        }
      }
    }
  }

  /** All line feeds are kept exactly when no cursor move reaches one that followed a stray ESC. */
  lemma LineFeedsKeptExactly(s: seq<byte>, t: seq<byte>)
    requires Evaluate(s) == Text(t)
    ensures Count(t, LF) == Count(s, LF) <==>
            forall k, mid | 0 <= k < |Lex(s)| && Reaches(BLANK, Lex(s)[..k], mid) :: LF !in CutPart(mid, Lex(s)[k])
  {
    hide Lex, Fold, CutAll, CutPart, Count, Reaches;
    LineFeedsKept(s, t);
    NothingCut(BLANK, Lex(s));
  }

  lemma StrayLineFeedLost()
    ensures Evaluate([ESC, LF, ESC, CSI, 0x31, CUB]) == Text([ESC])
  {
    var s: seq<byte> := [ESC, LF, ESC, CSI, 0x31, CUB];
    var c: seq<byte> := [ESC, CSI, 0x31, CUB];
    var a := Apply(BLANK, Stray(LF)).ed;
    assert s[2..] == c && a.line == [ESC, LF];
    FoldNext(BLANK, s);
    BackOne(c);
    FoldNext(a, c);
    assert Apply(a, Back(1)).ed.All() == [ESC];
  }

  lemma BackOne(c: seq<byte>)
    requires c == [ESC, CSI, 0x31, CUB]
    ensures Next(c) == (Back(1), 4) && c[4..] == []
  {
    var tail := c[2..];
    assert tail == [0x31, CUB] && tail[1..] == [CUB];
    assert ParameterLen(tail[1..]) == 0 && ParameterLen(tail) == 1;
    assert IntermediateLen(tail[1..]) == 0;
    assert tail[..1] == [0x31] && tail[..1][..0] == [];
    assert Decimal(tail[..1]) == 1;
    NextControl(c);
  }

  // ----- Settled text

  /** Text with nothing left to evaluate. */
  predicate Settled(t: seq<byte>) {
    && ESC !in t && BS !in t
    && forall i | 0 <= i < |t| && t[i] == CR :: i + 1 < |t| && t[i + 1] in {CR, LF}
  }

  predicate HasStray(s: seq<byte>) {
    exists t | t in Lex(s) :: t.Stray?
  }

  /** The line being edited holds no CR unless CR or LF comes next. */
  ghost predicate Good(ed: Editor, rest: seq<byte>) {
    && ed.Valid() && Settled(ed.done)
    && ESC !in ed.line && BS !in ed.line && LF !in ed.line
    && (CR in ed.line ==> rest != [] && rest[0] in {CR, LF})
    && forall i, j | 0 <= i < j < |ed.line| && ed.line[i] == CR :: ed.line[j] == CR
  }

  lemma GoodNext(ed: Editor, rest: seq<byte>)
    requires rest != [] && Good(ed, rest) && !Next(rest).0.Stray? && Apply(ed, Next(rest).0).Edited?
    ensures Good(Apply(ed, Next(rest).0).ed, rest[Next(rest).1..])
  {
    hide Next, LastIndex;
    if rest[0] == ESC {
      EscapeTokens(rest);
      assert CR !in ed.line;
    } else {
      SimpleToken(rest);
      if rest[0] == LF {
        GoodFeed(ed, rest);
      }
    }
  }

  lemma GoodFeed(ed: Editor, rest: seq<byte>)
    requires rest != [] && rest[0] == LF && Good(ed, rest)
    ensures Good(Apply(ed, Feed).ed, rest[1..])
  {
    hide LastIndex;
    var next := Apply(ed, Feed).ed;
    forall i | 0 <= i < |next.done| && next.done[i] == CR
      ensures i + 1 < |next.done| && next.done[i + 1] in {CR, LF}
    {
      if i < |ed.done| {
        assert ed.done[i] == CR;
      } else {
        assert ed.line[i - |ed.done|] == CR;
      }
    }
  }

  lemma {:induction false} FoldSettles(ed: Editor, rest: seq<byte>, t: seq<byte>)
    requires Good(ed, rest) && !HasStray(rest) && Fold(ed, Lex(rest)) == Text(t)
    ensures Settled(t)
    decreases |rest|
  {
    hide Next, LastIndex;
    if rest != [] {
      var (token, n) := Next(rest);
      assert Lex(rest) == [token] + Lex(rest[n..]);
      assert token in Lex(rest);
      assert forall x | x in Lex(rest[n..]) :: x in Lex(rest);
      GoodNext(ed, rest);
      FoldSettles(Apply(ed, token).ed, rest[n..], t);
    }
  }

  /** Without a stray ESC, the output holds no ESC, no BS, and CR only in front of CR or LF. */
  lemma OutputSettled(s: seq<byte>, t: seq<byte>)
    requires Evaluate(s) == Text(t) && !HasStray(s)
    ensures Settled(t)
  {
    FoldSettles(BLANK, s, t);
  }

  // ----- Fixed points

  predicate Kept(t: Token) { t.Plain? || t == Feed || t == KeptReturn || t.Stray? }

  function Written(t: Token): seq<byte>
    requires Kept(t)
  {
    match t
    case Plain(b) => [b]
    case Feed => [LF]
    case KeptReturn => [CR]
    case Stray(b) => [ESC, b]
  }

  lemma {:induction false} KeptText(ed: Editor, s: seq<byte>)
    requires forall t | t in Lex(s) :: Kept(t)
    ensures Fold(ed, Lex(s)) == Text(ed.All() + s)
    decreases |s|
  {
    hide FinalAt, Control, Next, LastIndex;
    if s == [] {
      assert ed.All() + s == ed.All();
    } else {
      var (t, n) := Next(s);
      assert Lex(s) == [t] + Lex(s[n..]) && t in Lex(s);
      assert forall x | x in Lex(s[n..]) :: x in Lex(s);
      KeptBytes(s);
      var next := Apply(ed, t).ed;
      assert next.All() == ed.All() + Written(t);
      KeptText(next, s[n..]);
      assert s == Written(t) + s[n..];
      assert next.All() + s[n..] == ed.All() + s;
    }
  }

  lemma KeptBytes(s: seq<byte>)
    requires s != [] && Kept(Next(s).0)
    ensures s[..Next(s).1] == Written(Next(s).0)
  {
    hide FinalAt, Atoi;
    if s[0] == ESC {
      EscapeTokens(s);
    } else {
      SimpleToken(s);
    }
  }

  /** No token writes more bytes than it was read from, and only kept ones write as many. */
  lemma ApplyLength(ed: Editor, rest: seq<byte>)
    requires rest != [] && Apply(ed, Next(rest).0).Edited?
    ensures var (t, n) := Next(rest);
            var next := Apply(ed, t).ed;
            |next.All()| <= |ed.All()| + n && (!Kept(t) ==> |next.All()| < |ed.All()| + n)
  {
    hide FinalAt, Control, LastIndex;
    if rest[0] == ESC {
      EscapeTokens(rest);
    } else {
      SimpleToken(rest);
    }
  }

  lemma {:induction false} FoldLength(ed: Editor, rest: seq<byte>, t: seq<byte>)
    requires Fold(ed, Lex(rest)) == Text(t)
    ensures |t| <= |ed.All()| + |rest|
    ensures (exists x | x in Lex(rest) :: !Kept(x)) ==> |t| < |ed.All()| + |rest|
    decreases |rest|
  {
    hide Next, LastIndex;
    if rest != [] {
      var (token, n) := Next(rest);
      assert Lex(rest) == [token] + Lex(rest[n..]);
      ApplyLength(ed, rest);
      FoldLength(Apply(ed, token).ed, rest[n..], t);
      if x :| x in Lex(rest) && !Kept(x) {
        assert x == token || x in Lex(rest[n..]);
      }
    }
  }

  /** Evaluation leaves a text as it is exactly when every one of its tokens is kept. */
  lemma FixedPoints(s: seq<byte>)
    ensures Evaluate(s) == Text(s) <==> forall t | t in Lex(s) :: Kept(t)
  {
    if forall t | t in Lex(s) :: Kept(t) {
      KeptText(BLANK, s);
      assert BLANK.All() + s == s;
    } else if Evaluate(s) == Text(s) {
      FoldLength(BLANK, s, s);
    }
  }

  /** The output never grows, and only an untouched text keeps its length. */
  lemma NeverLonger(s: seq<byte>, t: seq<byte>)
    requires Evaluate(s) == Text(t)
    ensures |t| <= |s| && (|t| == |s| ==> t == s)
  {
    FoldLength(BLANK, s, t);
    if |t| == |s| {
      FixedPoints(s);
    }
  }

  lemma {:induction false} SettledTokens(t: seq<byte>)
    requires Settled(t)
    ensures forall x | x in Lex(t) :: Kept(x)
    decreases |t|
  {
    if t != [] {
      SimpleToken(t);
      var (x, n) := Next(t);
      assert Lex(t) == [x] + Lex(t[1..]);
      assert t[0] == CR ==> t[1] in {CR, LF};
      forall i | 0 <= i < |t[1..]| && t[1..][i] == CR
        ensures i + 1 < |t[1..]| && t[1..][i + 1] in {CR, LF}
      {
        assert t[i + 1] == CR;
      }
      SettledTokens(t[1..]);
    }
  }

  /** Evaluating an output once more changes nothing. */
  lemma Idempotent(s: seq<byte>, t: seq<byte>)
    requires Evaluate(s) == Text(t) && !HasStray(s)
    ensures Evaluate(t) == Text(t)
  {
    OutputSettled(s, t);
    SettledTokens(t);
    FixedPoints(t);
  }

  /** With a stray ESC an output may not even evaluate: erasing can leave an ESC in front of '['. */
  lemma StrayNotIdempotent()
    ensures exists s, t :: Evaluate(s) == Text(t) && Evaluate(t) == Malformed
  {
    hide Next, Lex, LastIndex;
    var s: seq<byte> := [ESC, 0x61, BS, CSI, CUB];
    var t: seq<byte> := [ESC, CSI, CUB];
    StrayErased(s);
    BackWithoutNumber(t);
    FoldNext(BLANK, t);
    assert Evaluate(s) == Text(t) && Evaluate(t) == Malformed;
  }

  lemma StrayErased(s: seq<byte>)
    requires s == [ESC, 0x61, BS, CSI, CUB]
    ensures Evaluate(s) == Text([ESC, CSI, CUB])
  {
    hide FinalAt, Control, Fold, Lex, IsParameter;
    var a, b := Editor([], [ESC, 0x61]), Editor([], [ESC]);
    FoldNext(BLANK, s);
    assert Apply(BLANK, Stray(0x61)) == Edited(a) && Apply(a, Erase) == Edited(b);
    assert s[2..] == [BS, CSI, CUB] && s[2..][1..] == [CSI, CUB];
    FoldNext(a, s[2..]);
    PlainPair(b, CSI, CUB);
    assert b.All() + [CSI, CUB] == [ESC, CSI, CUB];
  }

  lemma PlainPair(ed: Editor, x: byte, y: byte)
    requires ESC !in [x, y] && CR !in [x, y] && BS !in [x, y] && LF !in [x, y]
    ensures Fold(ed, Lex([x, y])) == Text(ed.All() + [x, y])
  {
    assert Settled([x, y]);
    SettledTokens([x, y]);
    KeptText(ed, [x, y]);
  }

  lemma BackWithoutNumber(t: seq<byte>)
    requires t == [ESC, CSI, CUB]
    ensures Next(t).0 == Bad
  {
    var tail := t[2..];
    assert tail == [CUB] && tail[0..] == [CUB];
    assert ParameterLen(tail) == 0 && IntermediateLen(tail) == 0;
    NextControl(t);
  }

  /** The last-return rule of ParseDropLastReturn only ever meets a CR that followed a stray ESC. */
  lemma LastReturnIsStray(s: seq<byte>, t: seq<byte>)
    requires Evaluate(s) == Text(t) && t != [] && t[|t| - 1] == CR
    ensures HasStray(s)
  {
    if !HasStray(s) {
      OutputSettled(s, t);
    }
  }

  // ----- The panic

  lemma {:induction false} FoldAppend(ed: Editor, a: seq<Token>, b: seq<Token>, mid: Editor)
    requires Reaches(ed, a, mid)
    ensures Fold(ed, a + b) == Fold(mid, b)
    decreases a
  {
    if a == [] {
      assert a + b == b;
    } else {
      assert (a + b)[1..] == a[1..] + b;
      FoldAppend(Apply(ed, a[0]).ed, a[1..], b, mid);
    }
  }

  ghost predicate Reaches(ed: Editor, tokens: seq<Token>, mid: Editor)
    decreases tokens
  {
    if tokens == [] then mid == ed
    else Apply(ed, tokens[0]).Edited? && Reaches(Apply(ed, tokens[0]).ed, tokens[1..], mid)
  }

  lemma {:induction false} CrashPoint(ed: Editor, tokens: seq<Token>) returns (k: nat, mid: Editor)
    requires Fold(ed, tokens) == Crashed
    ensures k < |tokens| && tokens[k] == Erase && Reaches(ed, tokens[..k], mid) && mid.All() == []
    decreases tokens
  {
    if Apply(ed, tokens[0]).Stop? {
      return 0, ed;
    }
    var j;
    j, mid := CrashPoint(Apply(ed, tokens[0]).ed, tokens[1..]);
    k := j + 1;
    assert tokens[..k][1..] == tokens[1..][..j];
  }

  /** The program panics exactly when a backspace comes while the whole text is empty. */
  lemma CrashesExactly(s: seq<byte>)
    ensures Evaluate(s) == Crashed <==>
            exists k, mid | 0 <= k < |Lex(s)| ::
              Lex(s)[k] == Erase && Reaches(BLANK, Lex(s)[..k], mid) && mid.All() == []
  {
    var tokens := Lex(s);
    if Evaluate(s) == Crashed {
      var k, mid := CrashPoint(BLANK, tokens);
      assert Lex(s)[k] == Erase && Reaches(BLANK, Lex(s)[..k], mid) && mid.All() == [];
    }
    forall k, mid | 0 <= k < |tokens| && tokens[k] == Erase && Reaches(BLANK, tokens[..k], mid) && mid.All() == []
      ensures Evaluate(s) == Crashed
    {
      assert tokens == tokens[..k] + tokens[k..];
      FoldAppend(BLANK, tokens[..k], tokens[k..], mid);
      assert tokens[k..][0] == Erase;
    }
  }
}
