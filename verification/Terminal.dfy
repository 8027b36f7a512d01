/**
 The terminal evaluator of pkg/terminal/parser.go.

 `Evaluate` is the reference: the input is cut into tokens once, from left to
 right, and a line editor (finished lines plus the line being edited) applies
 them one by one. `Parser.Run` is the program: it edits its buffer in place,
 moves its cursor back and reads bytes again.
 */
module Terminal {
  import opened Bytes

  const CSI: byte := 0x5B       // '['
  const KEYPAD: byte := 0x3E    // '>'
  const CUB: byte := 0x44       // 'D'
  const ELINE: byte := 0x4B     // 'K'
  const SGR: byte := 0x6D       // 'm'
  const CUP: byte := 0x48       // 'H'
  const ED: byte := 0x4A        // 'J'
  const SET: byte := 0x68       // 'h'
  const RESET: byte := 0x6C     // 'l'
  const CURSOR_KEYS: seq<byte> := [0x3F, 0x31]  // "?1"
  const MAX_INT: nat := 0x7FFF_FFFF_FFFF_FFFF

  /** What one run produces: the edited text, an error, or an index panic. */
  datatype Outcome = Text(text: seq<byte>) | Malformed | Crashed

  // ----- Tokens

  datatype Token =
    | Plain(b: byte)      // any byte without a meaning of its own
    | Feed                // LF
    | KeptReturn          // CR in front of LF or CR
    | ClearLine           // any other CR
    | Erase               // BS
    | Back(n: nat)        // CSI n D
    | Nothing             // a sequence that only disappears
    | Stray(b: byte)      // ESC followed by neither '[' nor '>'
    | Bad                 // an incomplete or unknown sequence

  predicate IsParameter(b: byte) { 0x30 <= b <= 0x3F }

  predicate IsIntermediate(b: byte) { 0x20 <= b < 0x2F }

  function ParameterLen(s: seq<byte>): (n: nat)
    ensures n <= |s| && (forall i | 0 <= i < n :: IsParameter(s[i])) && (n < |s| ==> !IsParameter(s[n]))
  {
    if s == [] || !IsParameter(s[0]) then 0 else 1 + ParameterLen(s[1..])
  }

  function IntermediateLen(s: seq<byte>): (n: nat)
    ensures n <= |s| && (forall i | 0 <= i < n :: IsIntermediate(s[i])) && (n < |s| ==> !IsIntermediate(s[n]))
  {
    if s == [] || !IsIntermediate(s[0]) then 0 else 1 + IntermediateLen(s[1..])
  }

  predicate IsDigit(b: byte) { 0x30 <= b <= 0x39 }

  function Decimal(s: seq<byte>): nat
    requires forall b | b in s :: IsDigit(b)
  {
    if s == [] then 0
    else assert IsDigit(s[|s| - 1]); 10 * Decimal(s[..|s| - 1]) + (s[|s| - 1] as int - 0x30)
  }

  /** strconv.Atoi on bytes that can hold no sign. */
  function Atoi(s: seq<byte>): Option<nat> {
    if s == [] || (exists b | b in s :: !IsDigit(b)) then None
    else if Decimal(s) > MAX_INT then None
    else Some(Decimal(s))
  }

  /** The token of a control sequence with these parameter bytes and this final byte. */
  function Control(parameter: seq<byte>, final: byte): Token {
    if !(0x40 <= final < 0x7E) then Bad
    else if final == CUB then
      match Atoi(parameter)
      case None => Bad
      case Some(n) => Back(if n == 0 then 1 else n)
    else if final in {ELINE, SGR, CUP, ED} then Nothing
    else if final in {SET, RESET} && parameter == CURSOR_KEYS then Nothing
    else Bad
  }

  /** Where the final byte of the control sequence that starts at `s` stands. */
  function FinalAt(s: seq<byte>): (n: nat)
    ensures n <= |s|
  {
    var p := ParameterLen(s);
    p + IntermediateLen(s[p..])
  }

  /** The first token of `s` and its length in bytes. */
  function Next(s: seq<byte>): (r: (Token, nat))
    requires s != []
    ensures 1 <= r.1 <= |s|
  {
    if s[0] == ESC then
      if |s| == 1 then (Bad, 1)
      else if s[1] == KEYPAD then (Nothing, 2)
      else if s[1] != CSI then (Stray(s[1]), 2)
      else
        var n := FinalAt(s[2..]);
        if n == |s[2..]| then (Bad, 1)
        else (Control(s[2..][..ParameterLen(s[2..])], s[2 + n]), 3 + n)
    else if s[0] == CR then
      if |s| > 1 && s[1] in {LF, CR} then (KeptReturn, 1) else (ClearLine, 1)
    else if s[0] == BS then (Erase, 1)
    else if s[0] == LF then (Feed, 1)
    else (Plain(s[0]), 1)
  }

  function Lex(s: seq<byte>): seq<Token> {
    if s == [] then []
    else
      var (t, n) := Next(s);
      [t] + Lex(s[n..])
  }

  // ----- The line editor

  /** Finished lines, and the line still being edited. */
  datatype Editor = Editor(done: seq<byte>, line: seq<byte>) {
    function All(): seq<byte> { done + line }

    predicate Valid() { done == [] || done[|done| - 1] == LF }
  }

  const BLANK := Editor([], [])

  function LastIndex(s: seq<byte>, b: byte): (i: int)
    ensures -1 <= i < |s|
    ensures i >= 0 ==> s[i] == b
    ensures b !in s[i + 1..]
  {
    if s == [] then -1 else if s[|s| - 1] == b then |s| - 1 else LastIndex(s[..|s| - 1], b)
  }

  datatype Edit = Edited(ed: Editor) | Stop(why: Outcome)

  /**
   What one token does to the editor. A line feed that a stray ESC carried into
   the line counts as text, until a CR clears back to it.
   */
  function Apply(ed: Editor, t: Token): Edit {
    match t
    case Plain(b) => Edited(ed.(line := ed.line + [b]))
    case Feed => Edited(Editor(ed.All() + [LF], []))
    case KeptReturn => Edited(ed.(line := ed.line + [CR]))
    case ClearLine =>
      Edited(Editor(ed.done + ed.line[..LastIndex(ed.line, LF) + 1], []))
    case Erase =>
      if ed.All() == [] then Stop(Crashed)
      else if ed.All()[|ed.All()| - 1] == LF || ed.line == [] then Edited(ed)
      else Edited(ed.(line := ed.line[..|ed.line| - 1]))
    case Back(n) =>
      Edited(ed.(line := ed.line[..if n <= |ed.line| then |ed.line| - n else 0]))
    case Nothing => Edited(ed)
    case Stray(b) => Edited(ed.(line := ed.line + [ESC, b]))
    case Bad => Stop(Malformed)
  }

  function Fold(ed: Editor, tokens: seq<Token>): Outcome
    decreases tokens
  {
    if tokens == [] then Text(ed.All())
    else
      match Apply(ed, tokens[0])
      case Edited(next) => Fold(next, tokens[1..])
      case Stop(why) => why
  }

  function Evaluate(s: seq<byte>): Outcome {
    Fold(BLANK, Lex(s))
  }

  // ----- The program

  lemma FoldNext(ed: Editor, rest: seq<byte>)
    requires rest != []
    ensures Fold(ed, Lex(rest)) ==
            match Apply(ed, Next(rest).0)
            case Edited(next) => Fold(next, Lex(rest[Next(rest).1..]))
            case Stop(why) => why
  {
  }

  class Parser {
    var pos: int
    var data: seq<byte>

    constructor (data: seq<byte>)
      ensures this.data == data && pos == -1
    {
      this.data := data;
      pos := -1;
    }

    method Consume() returns (r: Option<byte>)
      requires -1 <= pos < |data|
      modifies this`pos
      ensures old(pos) + 1 == |data| ==> r == None && pos == old(pos)
      ensures old(pos) + 1 < |data| ==> pos == old(pos) + 1 && r == Some(data[pos])
    {
      if pos + 1 == |data| {
        return None;
      }
      pos := pos + 1;
      return Some(data[pos]);
    }

    method Unconsume()
      modifies this`pos
      ensures pos == old(pos) - 1
    {
      pos := pos - 1;
    }

    /** The parameter loop: None when the bytes run out before another kind of byte comes. */
    method Parameters() returns (r: Option<seq<byte>>)
      requires -1 <= pos < |data|
      modifies this`pos
      ensures var rest := data[old(pos) + 1..];
              var n := ParameterLen(rest);
              if n == |rest| then r == None else r == Some(rest[..n]) && pos == old(pos) + n
    {
      ghost var start := pos + 1;
      ghost var rest := data[start..];
      var parameter := [];
      while true
        invariant -1 <= pos < |data| && start <= pos + 1
        invariant parameter == data[start..pos + 1]
        invariant ParameterLen(rest) == |parameter| + ParameterLen(data[pos + 1..])
        decreases |data| - pos
      {
        var c := Consume();
        if c == None {
          return None;
        }
        assert data[pos..][1..] == data[pos + 1..];
        if IsParameter(c.value) {
          assert data[start..pos + 1] == data[start..pos] + [c.value];
          parameter := parameter + [c.value];
        } else {
          Unconsume();
          assert parameter == rest[..|parameter|];
          return Some(parameter);
        }
      }
    }

    method Intermediates() returns (ok: bool)
      requires -1 <= pos < |data|
      modifies this`pos
      ensures var rest := data[old(pos) + 1..];
              var n := IntermediateLen(rest);
              if n == |rest| then !ok else ok && pos == old(pos) + n
    {
      ghost var start := pos + 1;
      ghost var rest := data[start..];
      while true
        invariant -1 <= pos < |data| && start <= pos + 1
        invariant IntermediateLen(rest) == pos + 1 - start + IntermediateLen(data[pos + 1..])
        decreases |data| - pos
      {
        var c := Consume();
        if c == None {
          return false;
        }
        assert data[pos..][1..] == data[pos + 1..];
        if !IsIntermediate(c.value) {
          Unconsume();
          return true;
        }
      }
    }

    /** Parameter, intermediate and final bytes; None when the bytes run out. */
    method ControlBytes() returns (r: Option<(seq<byte>, byte)>)
      requires -1 <= pos < |data|
      modifies this`pos
      ensures var rest := data[old(pos) + 1..];
              var n := FinalAt(rest);
              if n == |rest| then r == None
              else r == Some((rest[..ParameterLen(rest)], rest[n])) && pos == old(pos) + n + 1
    {
      ghost var rest := data[pos + 1..];
      var parameter := Parameters();
      if parameter == None {
        return None;
      }
      assert data[pos + 1..] == rest[ParameterLen(rest)..];
      var complete := Intermediates();
      if !complete {
        return None;
      }
      var final := Consume();
      return Some((parameter.value, final.value));
    }

    /** The text in front of the cursor and the unread input. */
    ghost predicate Holds(text: seq<byte>, rest: seq<byte>)
      reads this
    {
      data == text + rest && pos + 1 == |text|
    }

    /** sliceEdit up to the cursor, which then stands where the cut began. */
    method CutBack(begin: nat, ghost rest: seq<byte>)
      requires begin <= pos + 1 <= |data| && data[pos + 1..] == rest
      modifies this
      ensures Holds(old(data[..begin]), rest)
    {
      data := data[..begin] + data[pos + 1..];
      pos := begin - 1;
    }

    /** An escape sequence, its ESC just consumed: the token and what it leaves of `text`. */
    method Escape(lastNewline: int, ghost text: seq<byte>, ghost rest: seq<byte>)
      returns (ok: bool)
      requires rest != [] && rest[0] == ESC && pos == |text| && data == text + rest
      requires -1 <= lastNewline < |text|
      modifies this
      ensures ok == (Next(rest).0 != Bad)
      ensures Refused(text, Next(rest).0) == if ok then None else Some(Malformed)
      ensures ok ==> Holds(After(text, lastNewline, Next(rest).0), rest[Next(rest).1..])
    {
      hide FinalAt, Atoi, LastIndex;
      var escStart := pos;
      assert data[..pos] == text && data[pos + 1..] == rest[1..];
      var c := Consume();
      if c == None {
        return false;
      }
      assert c.value == rest[1] && data[pos + 1..] == rest[2..];
      if c.value == KEYPAD {
        CutBack(escStart, rest[2..]);
        return true;
      }
      if c.value != CSI {
        assert rest == [ESC, c.value] + rest[2..];
        return true;
      }
      ok := ControlSequence(escStart, lastNewline, text, rest[2..]);
      NextControl(rest);
    }

    method ControlSequence(escStart: nat, lastNewline: int, ghost text: seq<byte>, ghost rest: seq<byte>)
      returns (ok: bool)
      requires -1 <= lastNewline < escStart == |text| == pos - 1
      requires pos < |data| && data[..escStart] == text && data[pos + 1..] == rest
      modifies this
      ensures var n := FinalAt(rest);
              var t := if n == |rest| then Bad else Control(rest[..ParameterLen(rest)], rest[n]);
              && ok == (t != Bad)
              && (ok ==> Holds(After(text, lastNewline, t), rest[n + 1..]))
    {
      hide Atoi;
      var r := ControlBytes();
      if r == None {
        return false;
      }
      assert data[pos + 1..] == rest[FinalAt(rest) + 1..];
      match Control(r.value.0, r.value.1) {
        case Back(n) =>
          var begin := if lastNewline + 1 > escStart - n then lastNewline + 1 else escStart - n;
          assert data[..begin] == text[..begin];
          CutBack(begin, rest[FinalAt(rest) + 1..]);
          return true;
        case Nothing =>
          CutBack(escStart, rest[FinalAt(rest) + 1..]);
          return true;
        case _ =>
          return false;
      }
    }

    /**
     A CR, just consumed, that neither LF nor CR follows. The cursor goes back
     in front of the line feed that closes the finished lines, which is read again.
     */
    method ClearToLineStart(ghost text: seq<byte>, ghost rest: seq<byte>)
      requires pos == |text| && data == text + rest && rest != []
      modifies this
      ensures Holds(After(text, -1, ClearLine), Left(text, ClearLine, rest[1..]))
    {
      assert data[..pos] == text && data[pos + 1..] == rest[1..];
      var lineStart := LastIndex(data[..pos], LF);
      if lineStart == -1 {
        lineStart := 0;
        data := data[pos + 1..];
      } else {
        assert data[..lineStart + 1] == text[..lineStart] + [LF];
        data := data[..lineStart + 1] + data[pos + 1..];
      }
      pos := lineStart - 1;
    }

    /** A BS, just consumed; false when the source would index before the buffer. */
    method EraseBack(ghost text: seq<byte>, ghost rest: seq<byte>) returns (ok: bool)
      requires pos == |text| && data == text + rest && rest != []
      modifies this
      ensures Refused(text, Erase) == if ok then None else Some(Crashed)
      ensures ok ==> Holds(After(text, -1, Erase), rest[1..])
    {
      assert data[..pos] == text && data[pos + 1..] == rest[1..];
      if pos > 0 && data[pos - 1] == LF {
        CutBack(pos, rest[1..]);
        return true;
      }
      if pos == 0 {
        return false;
      }
      assert data[..pos - 1] == text[..|text| - 1];
      CutBack(pos - 1, rest[1..]);
      return true;
    }

    /** One turn of the loop; stop is set when it ends the run. */
    method Turn(lastNewline: int, ghost text: seq<byte>, ghost rest: seq<byte>, ghost t: Token, ghost tail: seq<byte>)
      returns (stop: Option<Outcome>, newline: int)
      requires Holds(text, rest) && rest != [] && -1 <= lastNewline
      requires t == Next(rest).0 && tail == rest[Next(rest).1..]
      requires t == Feed || lastNewline < |text|
      modifies this
      ensures stop == Refused(text, t)
      ensures stop == None ==> Holds(After(text, lastNewline, t), Left(text, t, tail))
      ensures stop == None ==> newline == if t == Feed then |text| else lastNewline
    {
      hide Next, LastIndex;
      newline := lastNewline;
      var c := Consume();
      assert data[pos..] == rest && c == Some(rest[0]);
      if c.value == ESC {
        EscapeTokens(rest);
        var ok := Escape(lastNewline, text, rest);
        return if ok then None else Some(Malformed), newline;
      }
      SimpleToken(rest);
      if c.value == LF {
        newline := pos;
      }
      stop := Simple(text, rest, t);
    }

    /** Any byte but ESC, just consumed. */
    method Simple(ghost text: seq<byte>, ghost rest: seq<byte>, ghost t: Token) returns (stop: Option<Outcome>)
      requires rest != [] && rest[0] != ESC && pos == |text| && data == text + rest
      requires (t, 1) == Next(rest)
      modifies this
      ensures stop == Refused(text, t)
      ensures stop == None ==> Holds(After(text, -1, t), Left(text, t, rest[1..]))
    {
      hide Next, LastIndex;
      SimpleToken(rest);
      var c := data[pos];
      if c == CR && !(pos + 1 < |data| && data[pos + 1] in {LF, CR}) {
        assert t == ClearLine;
        ClearToLineStart(text, rest);
        return None;
      }
      if c == BS {
        assert t == Erase;
        var ok := EraseBack(text, rest);
        return if ok then None else Some(Crashed);
      }
      assert After(text, -1, t) == text + [c];
      return None;
    }

    method Run() returns (r: Outcome)
      requires pos == -1
      modifies this
      ensures r == Evaluate(old(data))
    {
      hide Next, After, Go, Left, LastIndex;
      var lastNewline := -1;
      ghost var ed, rest := BLANK, data;
      while pos + 1 < |data|
        invariant Holds(ed.All(), rest)
        invariant Lined(ed, rest, lastNewline)
        invariant Fold(ed, Lex(rest)) == Evaluate(old(data))
        decreases |data|, |data| - pos
      {
        ghost var t, tail := Next(rest).0, rest[Next(rest).1..];
        FoldNext(ed, rest);
        FeedToken(rest);
        ghost var lined := lastNewline;
        var stop;
        stop, lastNewline := Turn(lastNewline, ed.All(), rest, t, tail);
        if stop != None {
          return stop.value;
        }
        AfterIsApply(ed, lined, t);
        TurnKeeps(ed, t, tail);
        LinedNext(ed, t, tail, lined);
        Progress(ed.All(), lined, rest);
        ed, rest := Go(ed, t), Left(ed.All(), t, tail);
      }
      return Text(data);
    }
  }

  method Parse(data: seq<byte>) returns (r: Outcome)
    ensures r == Evaluate(data)
  {
    var parser := new Parser(data);
    r := parser.Run();
  }

  function TrimLastLine(input: seq<byte>): seq<byte> {
    input[..LastIndex(input, LF) + 1]
  }

  method ParseDropLastReturn(data: seq<byte>) returns (r: Outcome)
    ensures Evaluate(data).Text? ==>
              var t := Evaluate(data).text;
              r == Text(if t != [] && t[|t| - 1] == CR then TrimLastLine(t) else t)
    ensures !Evaluate(data).Text? ==> r == Evaluate(data)
  {
    r := Parse(data);
    if r.Text? && |r.text| > 0 && r.text[|r.text| - 1] == CR {
      r := Text(TrimLastLine(r.text));
    }
  }

  // ----- One turn of the loop, on the flat buffer and on the editor

  function Refused(text: seq<byte>, t: Token): Option<Outcome> {
    if t == Bad then Some(Malformed)
    else if t == Erase && text == [] then Some(Crashed)
    else None
  }

  /** What a token leaves of the text in front of the cursor. */
  function After(text: seq<byte>, lastNewline: int, t: Token): seq<byte>
    requires Refused(text, t) == None && -1 <= lastNewline
    requires t.Back? ==> lastNewline < |text|
  {
    match t
    case Plain(b) => text + [b]
    case Feed => text + [LF]
    case KeptReturn => text + [CR]
    case ClearLine => if LastIndex(text, LF) == -1 then [] else text[..LastIndex(text, LF)]
    case Erase => if text[|text| - 1] == LF then text else text[..|text| - 1]
    case Back(n) => text[..if lastNewline + 1 > |text| - n then lastNewline + 1 else |text| - n]
    case Nothing => text
    case Stray(b) => text + [ESC, b]
  }

  /** What is left to read; a cleared line puts the line feed before it back. */
  function Left(text: seq<byte>, t: Token, tail: seq<byte>): seq<byte> {
    if t == ClearLine && LastIndex(text, LF) != -1 then [LF] + tail else tail
  }

  /** The editor state that stands for the buffer after one turn. */
  function Go(ed: Editor, t: Token): Editor
    requires Apply(ed, t).Edited?
  {
    var next := Apply(ed, t).ed;
    if t == ClearLine && next.done != [] then Editor(next.done[..|next.done| - 1], []) else next
  }

  lemma AfterIsApply(ed: Editor, lastNewline: int, t: Token)
    requires Refused(ed.All(), t) == None && -1 <= lastNewline
    requires t.ClearLine? || t.Back? || t.Erase? ==> ed.Valid() && lastNewline == |ed.done| - 1
    ensures Apply(ed, t).Edited?
    ensures After(ed.All(), lastNewline, t) == Go(ed, t).All()
  {
    hide LastIndex;
    match t {
      case Erase => ErasedText(ed, lastNewline);
      case ClearLine => ClearedText(ed);
      case Back(n) => BackText(ed, lastNewline, n);
      case _ =>
    }
  }

  lemma ErasedText(ed: Editor, lastNewline: int)
    requires ed.Valid() && ed.All() != [] && -1 <= lastNewline
    ensures Apply(ed, Erase).Edited?
    ensures After(ed.All(), lastNewline, Erase) == Apply(ed, Erase).ed.All()
  {
    hide LastIndex;
    if ed.line == [] {
      assert ed.All() == ed.done;
    } else {
      assert ed.All()[..|ed.All()| - 1] == ed.done + ed.line[..|ed.line| - 1];
    }
  }

  lemma BackText(ed: Editor, lastNewline: int, n: nat)
    requires lastNewline == |ed.done| - 1
    ensures After(ed.All(), lastNewline, Back(n)) == Apply(ed, Back(n)).ed.All()
  {
    hide LastIndex;
    var kept := if n <= |ed.line| then |ed.line| - n else 0;
    assert ed.All()[..|ed.done| + kept] == ed.done + ed.line[..kept];
  }

  /** The turn goes from one editor state to the next without changing what will come out. */
  lemma TurnKeeps(ed: Editor, t: Token, tail: seq<byte>)
    requires Refused(ed.All(), t) == None && (t == ClearLine ==> ed.Valid())
    ensures Apply(ed, t).Edited?
    ensures Fold(Apply(ed, t).ed, Lex(tail)) == Fold(Go(ed, t), Lex(Left(ed.All(), t, tail)))
  {
    hide Lex, Fold, Next;
    if t == ClearLine {
      ClearedText(ed);
      var cleared := Apply(ed, ClearLine).ed;
      if cleared.done != [] {
        ReadAgain(cleared, tail);
      }
    }
  }

  lemma LinedNext(ed: Editor, t: Token, tail: seq<byte>, lastNewline: int)
    requires Refused(ed.All(), t) == None && Apply(ed, t).Edited?
    requires -1 <= lastNewline && (t == Feed || (ed.Valid() && lastNewline == |ed.done| - 1))
    ensures Lined(Go(ed, t), Left(ed.All(), t, tail), if t == Feed then |ed.All()| else lastNewline)
  {
    if t == ClearLine {
      ClearedText(ed);
    }
  }

  /** A turn that does not carry the cursor forward makes the buffer shorter. */
  lemma Progress(text: seq<byte>, lastNewline: int, rest: seq<byte>)
    requires rest != [] && -1 <= lastNewline
    requires var t := Next(rest).0; Refused(text, t) == None && (t.Back? ==> lastNewline < |text|)
    ensures var (t, n) := Next(rest);
            var (after, left) := (After(text, lastNewline, t), Left(text, t, rest[n..]));
            |after| + |left| < |text| + |rest| || (|after| + |left| == |text| + |rest| && |after| > |text|)
  {
    hide Control;
    if rest[0] == ESC {
      EscapeTokens(rest);
    }
  }

  lemma SimpleToken(rest: seq<byte>)
    requires rest != [] && rest[0] != ESC
    ensures Next(rest).1 == 1
    ensures Next(rest).0 ==
            if rest[0] == CR then if |rest| > 1 && rest[1] in {LF, CR} then KeptReturn else ClearLine
            else if rest[0] == BS then Erase
            else if rest[0] == LF then Feed
            else Plain(rest[0])
  {
  }

  lemma EscapeTokens(rest: seq<byte>)
    requires rest != [] && rest[0] == ESC
    ensures var t := Next(rest).0; t.Back? || t.Nothing? || t.Stray? || t == Bad
  {
    hide FinalAt, Atoi;
  }

  lemma FeedToken(rest: seq<byte>)
    requires rest != []
    ensures Next(rest).0 == Feed <==> rest[0] == LF
  {
    if rest[0] == ESC {
      EscapeTokens(rest);
    }
  }

  lemma NextControl(rest: seq<byte>)
    requires |rest| >= 2 && rest[0] == ESC && rest[1] == CSI
    ensures var tail := rest[2..];
            var n := FinalAt(tail);
            if n == |tail| then Next(rest) == (Bad, 1)
            else Next(rest) == (Control(tail[..ParameterLen(tail)], tail[n]), 3 + n)
                 && rest[3 + n..] == tail[n + 1..]
  {
  }

  /**
   The last newline the program remembers ends the editor's finished lines,
   unless it is about to be read.
   */
  ghost predicate Lined(ed: Editor, rest: seq<byte>, lastNewline: int) {
    -1 <= lastNewline && ((rest != [] && rest[0] == LF) || (ed.Valid() && lastNewline == |ed.done| - 1))
  }

  /** Reading the line feed behind the finished lines once more changes nothing. */
  lemma ReadAgain(ed: Editor, rest: seq<byte>)
    requires ed.Valid() && ed.done != [] && ed.line == []
    ensures Fold(Editor(ed.done[..|ed.done| - 1], []), Lex([LF] + rest)) == Fold(ed, Lex(rest))
  {
    var before := Editor(ed.done[..|ed.done| - 1], []);
    assert ([LF] + rest)[1..] == rest;
    FoldNext(before, [LF] + rest);
    assert Apply(before, Feed) == Edited(ed);
  }

  lemma ClearedText(ed: Editor)
    requires ed.Valid()
    ensures Apply(ed, ClearLine).ed.done == ed.All()[..LastIndex(ed.All(), LF) + 1]
  {
    hide LastIndex;
    LastIndexAppend(ed.done, ed.line, LF);
    if LF !in ed.line && ed.done != [] {
      assert LastIndex(ed.done, LF) == |ed.done| - 1;
    }
  }

  lemma {:induction false} LastIndexAppend(s: seq<byte>, t: seq<byte>, b: byte)
    ensures LastIndex(s + t, b) == if b in t then |s| + LastIndex(t, b) else LastIndex(s, b)
  {
    if t == [] {
      assert s + t == s;
    } else {
      assert t == t[..|t| - 1] + [t[|t| - 1]];
      assert (s + t)[..|s + t| - 1] == s + t[..|t| - 1];
      LastIndexAppend(s, t[..|t| - 1], b);
    }
  }
}
