/**
 What each control does to a line of plain text, with the bytes written out: the numbers are those of
 the terminal documents that pkg/terminal/parser.go refers to.
 */
module TerminalEdits {
  import opened Bytes
  import opened Terminal
  import opened TerminalLaws

  // ----- Numbers

  /** A number as it is printed. */
  function Digits(n: nat): (s: seq<byte>)
    ensures s != [] && forall b | b in s :: 0x30 <= b <= 0x39
  {
    if n < 10 then [0x30 + n] else Digits(n / 10) + [0x30 + n % 10]
  }

  lemma {:induction false} NumberIs(n: nat)
    ensures (forall b | b in Digits(n) :: IsDigit(b)) && Decimal(Digits(n)) == n
  {
    var s := Digits(n);
    if n < 10 {
      assert s[..0] == [];
    } else {
      NumberIs(n / 10);
      assert s[..|s| - 1] == Digits(n / 10);
    }
  }

  /** The number read is the number printed, as far as 63 bits go. */
  lemma NumberRead(n: nat)
    ensures Atoi(Digits(n)) == if n <= 0x7FFF_FFFF_FFFF_FFFF then Some(n) else None
  {
    hide Decimal;
    NumberIs(n);
  }

  // ----- Texts

  /** Bytes that stand for themselves: no BS, LF, CR or ESC. */
  predicate PlainText(p: seq<byte>) {
    forall b | b in p :: b !in {0x08, 0x0A, 0x0D, 0x1B}
  }

  /** Finished lines, with nothing left to evaluate in them. */
  predicate Lines(f: seq<byte>) {
    Settled(f) && (f != [] ==> f[|f| - 1] == 0x0A)
  }

  lemma {:induction false} PlainFold(ed: Editor, p: seq<byte>, rest: seq<byte>)
    requires PlainText(p)
    ensures Fold(ed, Lex(p + rest)) == Fold(ed.(line := ed.line + p), Lex(rest))
    decreases |p|
  {
    hide Next, Lex, Fold;
    if p == [] {
      assert p + rest == rest && ed.line + p == ed.line;
    } else {
      var s, b := p + rest, p[0];
      assert b in p && s[0] == b && s[1..] == p[1..] + rest && forall x | x in p[1..] :: x in p;
      SimpleToken(s);
      FoldNext(ed, s);
      assert Apply(ed, Plain(b)) == Edited(ed.(line := ed.line + [b]));
      PlainFold(ed.(line := ed.line + [b]), p[1..], rest);
      assert ed.line + [b] + p[1..] == ed.line + p;
    }
  }

  lemma {:induction false} LinesFold(ed: Editor, f: seq<byte>, rest: seq<byte>)
    requires Lines(f) && f != []
    ensures Fold(ed, Lex(f + rest)) == Fold(Editor(ed.All() + f, []), Lex(rest))
    decreases |f|
  {
    hide Next, Lex, Fold, LastIndex;
    var s, b := f + rest, f[0];
    assert s[0] == b && s[1..] == f[1..] + rest;
    SimpleToken(s);
    FoldNext(ed, s);
    var next := Apply(ed, Next(s).0).ed;
    if |f| == 1 {
      assert s[1..] == rest && ed.All() + [LF] == ed.All() + f;
    } else {
      assert f[0] == CR ==> f[1] in {CR, LF};
      SettledTail(f);
      assert next.All() == ed.All() + [b];
      LinesFold(next, f[1..], rest);
      assert ed.All() + [b] + f[1..] == ed.All() + f;
    }
  }

  lemma SettledTail(f: seq<byte>)
    requires Lines(f) && |f| > 1
    ensures Lines(f[1..])
  {
    forall i | 0 <= i < |f[1..]| && f[1..][i] == CR ensures i + 1 < |f[1..]| && f[1..][i + 1] in {CR, LF} {
      assert f[i + 1] == CR;
    }
  }

  /** Evaluation up to a control that follows finished lines and a line of plain text. */
  lemma UpTo(f: seq<byte>, p: seq<byte>, rest: seq<byte>)
    requires Lines(f) && PlainText(p)
    ensures Evaluate(f + p + rest) == Fold(Editor(f, p), Lex(rest))
  {
    hide Lex, Fold;
    assert f + p + rest == f + (p + rest);
    if f == [] {
      assert f + (p + rest) == p + rest;
    } else {
      LinesFold(BLANK, f, p + rest);
      assert BLANK.All() + f == f;
    }
    PlainFold(Editor(f, []), p, rest);
    assert [] + p == p;
  }

  lemma Rest(ed: Editor, q: seq<byte>)
    requires PlainText(q)
    ensures Fold(ed, Lex(q)) == Text(ed.done + ed.line + q)
  {
    PlainFold(ed, q, []);
    assert q + [] == q && ed.done + (ed.line + q) == ed.done + ed.line + q;
  }

  // ----- Control sequences

  /** ESC '[', parameter bytes, intermediate bytes and a final byte. */
  function Sequence(parameter: seq<byte>, intermediate: seq<byte>, final: byte): seq<byte> {
    [0x1B, 0x5B] + parameter + intermediate + [final]
  }

  predicate Proper(parameter: seq<byte>, intermediate: seq<byte>) {
    && (forall b | b in parameter :: 0x30 <= b <= 0x3F)
    && (forall b | b in intermediate :: 0x20 <= b <= 0x2E)
  }

  lemma {:induction false} ParametersEnd(parameter: seq<byte>, rest: seq<byte>)
    requires (forall b | b in parameter :: 0x30 <= b <= 0x3F) && (rest != [] ==> !(0x30 <= rest[0] <= 0x3F))
    ensures ParameterLen(parameter + rest) == |parameter|
  {
    if parameter == [] {
      assert parameter + rest == rest;
    } else {
      assert parameter[0] in parameter && forall b | b in parameter[1..] :: b in parameter;
      assert (parameter + rest)[1..] == parameter[1..] + rest;
      ParametersEnd(parameter[1..], rest);
    }
  }

  lemma {:induction false} IntermediatesEnd(intermediate: seq<byte>, rest: seq<byte>)
    requires (forall b | b in intermediate :: 0x20 <= b <= 0x2E) && (rest != [] ==> !(0x20 <= rest[0] <= 0x2E))
    ensures IntermediateLen(intermediate + rest) == |intermediate|
  {
    if intermediate == [] {
      assert intermediate + rest == rest;
    } else {
      assert intermediate[0] in intermediate && forall b | b in intermediate[1..] :: b in intermediate;
      assert (intermediate + rest)[1..] == intermediate[1..] + rest;
      IntermediatesEnd(intermediate[1..], rest);
    }
  }

  /** The token of a whole sequence is that of its parameters and its final byte. */
  lemma SequenceToken(parameter: seq<byte>, intermediate: seq<byte>, final: byte, rest: seq<byte>)
    requires Proper(parameter, intermediate) && !(0x20 <= final <= 0x2E) && !(0x30 <= final <= 0x3F)
    ensures var s := Sequence(parameter, intermediate, final) + rest;
            var n := |Sequence(parameter, intermediate, final)|;
            Next(s) == (Control(parameter, final), n) && s[n..] == rest
  {
    hide Control, ParameterLen, IntermediateLen, IsParameter, IsIntermediate;
    var s := Sequence(parameter, intermediate, final) + rest;
    var tail := intermediate + ([final] + rest);
    assert s == [0x1B, 0x5B] + (parameter + tail) && s[2..] == parameter + tail;
    assert intermediate != [] ==> tail[0] == intermediate[0] && intermediate[0] in intermediate;
    ParametersEnd(parameter, tail);
    IntermediatesEnd(intermediate, [final] + rest);
    assert (parameter + tail)[|parameter|..] == tail && (parameter + tail)[..|parameter|] == parameter;
    assert s[2 + |parameter| + |intermediate|] == final;
  }

  lemma SequenceFold(ed: Editor, parameter: seq<byte>, intermediate: seq<byte>, final: byte, rest: seq<byte>)
    requires Proper(parameter, intermediate) && !(0x20 <= final <= 0x2E) && !(0x30 <= final <= 0x3F)
    ensures var r := Apply(ed, Control(parameter, final));
            Fold(ed, Lex(Sequence(parameter, intermediate, final) + rest))
            == if r.Edited? then Fold(r.ed, Lex(rest)) else r.why
  {
    hide Next, Control, Lex, Fold, Apply;
    SequenceToken(parameter, intermediate, final, rest);
    FoldNext(ed, Sequence(parameter, intermediate, final) + rest);
  }

  /** CSI n D takes the last n bytes of the line, as many as there are; no number less than 1 is meant. */
  lemma CursorMove(f: seq<byte>, p: seq<byte>, n: nat, intermediate: seq<byte>, q: seq<byte>)
    requires Lines(f) && PlainText(p) && PlainText(q) && Proper([], intermediate) && n <= 0x7FFF_FFFF_FFFF_FFFF
    ensures var k := if n == 0 then 1 else n;
            Evaluate(f + p + (Sequence(Digits(n), intermediate, 0x44) + q))
            == Text(f + p[..if k <= |p| then |p| - k else 0] + q)
  {
    hide Lex, Fold, Atoi, Digits;
    NumberRead(n);
    UpTo(f, p, Sequence(Digits(n), intermediate, 0x44) + q);
    SequenceFold(Editor(f, p), Digits(n), intermediate, 0x44, q);
    var k := if n == 0 then 1 else n;
    Rest(Editor(f, p[..if k <= |p| then |p| - k else 0]), q);
  }

  /** Without a number, or with one that is too large, it is refused. */
  lemma CursorMoveRefused(f: seq<byte>, p: seq<byte>, parameter: seq<byte>, intermediate: seq<byte>, q: seq<byte>)
    requires Lines(f) && PlainText(p) && Proper(parameter, intermediate)
    requires parameter == [] || (exists b | b in parameter :: b > 0x39)
             || (exists n :: n > 0x7FFF_FFFF_FFFF_FFFF && parameter == Digits(n))
    ensures Evaluate(f + p + (Sequence(parameter, intermediate, 0x44) + q)) == Malformed
  {
    hide Lex, Fold, Decimal, Digits;
    if n :| n > 0x7FFF_FFFF_FFFF_FFFF && parameter == Digits(n) {
      NumberRead(n);
    }
    UpTo(f, p, Sequence(parameter, intermediate, 0x44) + q);
    SequenceFold(Editor(f, p), parameter, intermediate, 0x44, q);
  }

  /** Erasing in line or display, colours and cursor positions disappear, and so do two settings of the keys. */
  lemma Disappears(f: seq<byte>, p: seq<byte>, parameter: seq<byte>, intermediate: seq<byte>, final: byte, q: seq<byte>)
    requires Lines(f) && PlainText(p) && PlainText(q) && Proper(parameter, intermediate)
    requires final in {0x48, 0x4A, 0x4B, 0x6D} || (final in {0x68, 0x6C} && parameter == [0x3F, 0x31])
    ensures Evaluate(f + p + (Sequence(parameter, intermediate, final) + q)) == Text(f + p + q)
  {
    hide Lex, Fold, Atoi;
    UpTo(f, p, Sequence(parameter, intermediate, final) + q);
    SequenceFold(Editor(f, p), parameter, intermediate, final, q);
    Rest(Editor(f, p), q);
  }

  /** Every other sequence is refused. */
  lemma OthersRefused(f: seq<byte>, p: seq<byte>, parameter: seq<byte>, intermediate: seq<byte>, final: byte,
      q: seq<byte>)
    requires Lines(f) && PlainText(p) && Proper(parameter, intermediate)
    requires !(0x20 <= final <= 0x2E) && !(0x30 <= final <= 0x3F)
    requires final !in {0x44, 0x48, 0x4A, 0x4B, 0x6D} && !(final in {0x68, 0x6C} && parameter == [0x3F, 0x31])
    ensures Evaluate(f + p + (Sequence(parameter, intermediate, final) + q)) == Malformed
  {
    hide Lex, Fold, Atoi;
    UpTo(f, p, Sequence(parameter, intermediate, final) + q);
    SequenceFold(Editor(f, p), parameter, intermediate, final, q);
  }

  lemma SequenceShort(parameter: seq<byte>, intermediate: seq<byte>)
    requires Proper(parameter, intermediate)
    ensures Next([0x1B, 0x5B] + parameter + intermediate).0 == Bad
  {
    hide Control, ParameterLen, IntermediateLen;
    var s := [0x1B, 0x5B] + parameter + intermediate;
    assert s[2..] == parameter + intermediate && (parameter + intermediate)[|parameter|..] == intermediate;
    assert intermediate != [] ==> intermediate[0] in intermediate;
    ParametersEnd(parameter, intermediate);
    IntermediatesEnd(intermediate, []);
    assert intermediate + [] == intermediate;
  }

  /** So is a sequence that the text breaks off. */
  lemma CutShort(f: seq<byte>, p: seq<byte>, parameter: seq<byte>, intermediate: seq<byte>)
    requires Lines(f) && PlainText(p) && Proper(parameter, intermediate)
    ensures Evaluate(f + p + [0x1B]) == Malformed
    ensures Evaluate(f + p + ([0x1B, 0x5B] + parameter + intermediate)) == Malformed
  {
    hide Lex, Fold, ParameterLen, IntermediateLen, Control;
    UpTo(f, p, [0x1B]);
    FoldNext(Editor(f, p), [0x1B]);
    var s := [0x1B, 0x5B] + parameter + intermediate;
    SequenceShort(parameter, intermediate);
    UpTo(f, p, s);
    hide Next;
    FoldNext(Editor(f, p), s);
  }

  /** ESC '>' disappears; ESC with any other byte but '[' stays, and so does that byte. */
  lemma OtherEscapes(f: seq<byte>, p: seq<byte>, b: byte, q: seq<byte>)
    requires Lines(f) && PlainText(p) && PlainText(q) && b != 0x5B
    ensures Evaluate(f + p + ([0x1B, b] + q)) == Text(if b == 0x3E then f + p + q else f + p + [0x1B, b] + q)
  {
    hide Lex, Fold;
    var s := [0x1B, b] + q;
    UpTo(f, p, s);
    FoldNext(Editor(f, p), s);
    assert s[2..] == q;
    Rest(Editor(f, p), q);
    Rest(Editor(f, p + [0x1B, b]), q);
    assert f + (p + [0x1B, b]) + q == f + p + [0x1B, b] + q;
  }

  // ----- Single bytes

  /** A CR clears the line, and no line before it. */
  lemma ReturnClears(f: seq<byte>, p: seq<byte>, q: seq<byte>)
    requires Lines(f) && PlainText(p) && PlainText(q)
    ensures Evaluate(f + p + ([0x0D] + q)) == Text(f + q)
  {
    hide Lex, Fold, Next, LastIndex;
    var s := [0x0D] + q;
    UpTo(f, p, s);
    SimpleToken(s);
    FoldNext(Editor(f, p), s);
    assert q != [] ==> q[0] in q && s[1] == q[0];
    assert Next(s) == (ClearLine, 1) && s[1..] == q;
    assert LF !in p;
    Rest(Editor(f, []), q);
    assert f + p[..0] == f && f + [] + q == f + q;
  }

  /** A CR in front of a line feed or another CR stays. */
  lemma ReturnStays(f: seq<byte>, p: seq<byte>, q: seq<byte>)
    requires Lines(f) && PlainText(p) && PlainText(q)
    ensures Evaluate(f + p + ([0x0D, 0x0A] + q)) == Text(f + p + [0x0D, 0x0A] + q)
  {
    hide Lex, Fold, Next, LastIndex;
    var s := [0x0D, 0x0A] + q;
    UpTo(f, p, s);
    SimpleToken(s);
    FoldNext(Editor(f, p), s);
    var a := Editor(f, p + [CR]);
    assert s[1..] == [0x0A] + q && s[1..][1..] == q;
    SimpleToken(s[1..]);
    FoldNext(a, s[1..]);
    var g := f + p + [0x0D, 0x0A];
    assert a.All() + [LF] == g;
    Rest(Editor(g, []), q);
    assert g + [] + q == g + q;
  }

  /** A BS takes the last byte of the line, nothing of the lines before it, and panics on an empty text. */
  lemma BackspaceErases(f: seq<byte>, p: seq<byte>, q: seq<byte>)
    requires Lines(f) && PlainText(p) && PlainText(q)
    ensures Evaluate(f + p + ([0x08] + q))
            == if f + p == [] then Crashed else Text(f + (if p == [] then [] else p[..|p| - 1]) + q)
  {
    hide Lex, Fold, Next, LastIndex;
    var s := [0x08] + q;
    UpTo(f, p, s);
    SimpleToken(s);
    FoldNext(Editor(f, p), s);
    assert s[1..] == q;
    if p != [] {
      assert p[|p| - 1] in p && (f + p)[|f + p| - 1] == p[|p| - 1];
      Rest(Editor(f, p[..|p| - 1]), q);
    } else {
      assert f + p == f;
      Rest(Editor(f, []), q);
    }
  }
}
