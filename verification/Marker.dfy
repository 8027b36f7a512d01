/** The payload of a discovery run: cmd/gconsolecheck/discovery_all.go, makeAllPortsDiscoveryPayload and its parser. */
module Marker {
  import opened Bytes

  const PAYLOAD_SIZE := 128

  type Fields = map<string, string>

  // ----- Making

  function TestName(): string { "test_discovery_all_ports" }

  function TestField(): string { "test=" + TestName() }

  /** The text of a payload, before it is filled up. */
  function MarkerOf(source: string, run: string): string {
    "|" + (TestField() + "|" + ("source=" + source) + "|" + ("run=" + run)) + "|"
  }

  function Spaces(n: nat): (s: string)
    ensures |s| == n && forall i | 0 <= i < n :: s[i] == ' '
  {
    seq(n, _ => ' ')
  }

  predicate Printable(c: char) { 0x20 as char <= c <= 0x7e as char }

  function Make(source: string, run: string): Option<string> {
    var marker := MarkerOf(source, run);
    if |marker| > PAYLOAD_SIZE then None
    else
      var payload := marker + Spaces(PAYLOAD_SIZE - |marker|);
      if forall c | c in payload :: Printable(c) then Some(payload) else None
  }

  method MakePayload(source: string, run: string) returns (r: Option<string>)
    ensures r == Make(source, run)
  {
    hide MarkerOf;
    var marker := MarkerOf(source, run);
    if |marker| > PAYLOAD_SIZE {
      return None;
    }
    var payload := marker + Spaces(PAYLOAD_SIZE - |marker|);
    for index := 0 to |payload|
      invariant forall c | c in payload[..index] :: Printable(c)
    {
      var value := payload[index];
      assert value in payload;
      if value < 0x20 as char || value > 0x7e as char {
        return None;
      }
      assert payload[..index + 1] == payload[..index] + [value];
    }
    assert payload[..|payload|] == payload;
    r := Some(payload);
  }

  // ----- Parsing

  /** unicode.IsSpace */
  predicate IsSpace(c: char) {
    || c in {'\t', '\n', '\U{0b}', '\U{0c}', '\r', ' ', '\U{85}', '\U{a0}', '\U{1680}'}
    || '\U{2000}' <= c <= '\U{200a}'
    || c in {'\U{2028}', '\U{2029}', '\U{202f}', '\U{205f}', '\U{3000}'}
  }

  predicate IsBar(c: char) { c == '|' }

  function TrimLeft(s: string, cut: char -> bool): string {
    if s != [] && cut(s[0]) then TrimLeft(s[1..], cut) else s
  }

  function TrimRight(s: string, cut: char -> bool): string {
    if s != [] && cut(s[|s| - 1]) then TrimRight(s[..|s| - 1], cut) else s
  }

  function Trim(s: string, cut: char -> bool): string {
    TrimRight(TrimLeft(s, cut), cut)
  }

  /** strings.Split at '|' */
  function Split(s: string): (parts: seq<string>)
    ensures parts != [] && forall p | p in parts :: '|' !in p
  {
    if s == [] then [[]]
    else
      var rest := Split(s[1..]);
      if s[0] == '|' then [[]] + rest else [[s[0]] + rest[0]] + rest[1..]
  }

  /** strings.Cut at '=': key and value. */
  function Cut(s: string): (r: Option<(string, string)>)
    ensures r.Some? ==> '=' !in r.value.0 && s == r.value.0 + "=" + r.value.1
    ensures r == None <==> '=' !in s
  {
    if s == [] then None
    else if s[0] == '=' then Some(([], s[1..]))
    else
      match Cut(s[1..])
      case None => None
      case Some((key, value)) => Some(([s[0]] + key, value))
  }

  /** The fields of the parts, the last one of a key standing. */
  function FieldsOf(parts: seq<string>): Fields {
    if parts == [] then map[]
    else
      var before := FieldsOf(parts[..|parts| - 1]);
      match Cut(parts[|parts| - 1])
      case None => before
      case Some((key, value)) => before[key := value]
  }

  /** A field that is missing reads as the empty text. */
  function Field(fields: Fields, key: string): string {
    if key in fields then fields[key] else []
  }

  function Parts(payload: string): seq<string> {
    Split(Trim(Trim(payload, IsSpace), IsBar))
  }

  function Told(fields: Fields): Option<(string, string)> {
    if Field(fields, "test") != TestName() || Field(fields, "source") == [] || Field(fields, "run") == []
    then None
    else Some((Field(fields, "source"), Field(fields, "run")))
  }

  function Parse(payload: string): Option<(string, string)> {
    Told(FieldsOf(Parts(payload)))
  }

  method ParsePayload(payload: string) returns (r: Option<(string, string)>)
    ensures r == Parse(payload)
  {
    hide Parts, Told, Cut;
    var parts := Parts(payload);
    var fields: Fields := map[];
    for i := 0 to |parts|
      invariant fields == FieldsOf(parts[..i])
    {
      assert parts[..i + 1][..i] == parts[..i];
      var cut := Cut(parts[i]);
      if cut.Some? {
        fields := fields[cut.value.0 := cut.value.1];
      }
    }
    assert parts[..|parts|] == parts;
    r := Told(fields);
  }

  // ----- What comes back

  lemma {:induction false} SpacesTrimmed(s: string, n: nat)
    requires s != [] && !IsSpace(s[|s| - 1])
    ensures TrimRight(s + Spaces(n), IsSpace) == s
  {
    hide IsSpace;
    var t := s + Spaces(n);
    if n == 0 {
      assert t == s;
    } else {
      assert IsSpace(' ') by {
        SpaceIsSpace();
      }
      assert t[|t| - 1] == ' ' && t[..|t| - 1] == s + Spaces(n - 1);
      SpacesTrimmed(s, n - 1);
    }
  }

  lemma SpaceIsSpace()
    ensures IsSpace(' ') && !IsSpace('|')
  {
  }

  /** The bars around a text that neither begins nor ends in one. */
  lemma BarsTrimmed(s: string)
    requires s != [] && s[0] != '|' && s[|s| - 1] != '|'
    ensures Trim("|" + s + "|", IsBar) == s
  {
    var t := "|" + s + "|";
    assert t[1..] == s + "|" && TrimLeft(s + "|", IsBar) == s + "|";
    assert (s + "|")[..|s|] == s && TrimRight(s, IsBar) == s;
  }

  lemma {:induction false} SplitPlain(s: string)
    requires '|' !in s
    ensures Split(s) == [s]
  {
    if s != [] {
      SplitPlain(s[1..]);
      assert s == [s[0]] + s[1..];
    }
  }

  lemma {:induction false} SplitAtBar(s: string, t: string)
    requires '|' !in s
    ensures Split(s + "|" + t) == [s] + Split(t)
  {
    var all := s + "|" + t;
    if s == [] {
      assert all[1..] == t;
    } else {
      SplitAtBar(s[1..], t);
      assert all[1..] == s[1..] + "|" + t;
      assert s == [s[0]] + s[1..];
      assert ([s[1..]] + Split(t))[1..] == Split(t);
    }
  }

  lemma {:induction false} CutAt(key: string, value: string)
    requires '=' !in key
    ensures Cut(key + "=" + value) == Some((key, value))
  {
    var all := key + "=" + value;
    if key == [] {
      assert all[1..] == value;
    } else {
      CutAt(key[1..], value);
      assert all[1..] == key[1..] + "=" + value;
      assert key == [key[0]] + key[1..];
    }
  }

  lemma ThreeFields(a: string, b: string, c: string)
    requires Cut(a).Some? && Cut(b).Some? && Cut(c).Some?
    ensures FieldsOf([a, b, c]) ==
            map[][Cut(a).value.0 := Cut(a).value.1][Cut(b).value.0 := Cut(b).value.1][Cut(c).value.0 := Cut(c).value.1]
  {
    hide Cut;
    assert [a, b, c][..2] == [a, b] && [a, b][..1] == [a] && [a][..0] == [];
    assert FieldsOf([a]) == map[][Cut(a).value.0 := Cut(a).value.1];
  }

  lemma ThreeParts(a: string, b: string, c: string, n: nat)
    requires a != [] && c != [] && '|' !in a && '|' !in b && '|' !in c
    ensures Parts("|" + (a + "|" + b + "|" + c) + "|" + Spaces(n)) == [a, b, c]
  {
    hide Split, IsSpace;
    var inner := a + "|" + b + "|" + c;
    var marker := "|" + inner + "|";
    SpaceIsSpace();
    assert TrimLeft(marker + Spaces(n), IsSpace) == marker + Spaces(n);
    SpacesTrimmed(marker, n);
    assert inner[0] == a[0] && inner[|inner| - 1] == c[|c| - 1] && c[|c| - 1] in c;
    BarsTrimmed(inner);
    SplitAtBar(a, b + "|" + c);
    assert a + "|" + (b + "|" + c) == inner;
    SplitAtBar(b, c);
    SplitPlain(c);
  }

  /** The parts of a payload are the three fields, if there is no bar in source and run. */
  lemma PartsBack(source: string, run: string, n: nat)
    requires '|' !in source && '|' !in run
    ensures Parts(MarkerOf(source, run) + Spaces(n)) == [TestField(), "source=" + source, "run=" + run]
  {
    hide Parts, TestName;
    TestNamePlain();
    ThreeParts(TestField(), "source=" + source, "run=" + run, n);
  }

  lemma TestNamePlain()
    ensures '|' !in TestName()
  {
  }

  lemma FieldsBack(source: string, run: string)
    ensures Told(FieldsOf([TestField(), "source=" + source, "run=" + run])) ==
            if source == [] || run == [] then None else Some((source, run))
  {
    hide Cut, TestName, FieldsOf;
    assert "test" + "=" + TestName() == TestField();
    CutAt("test", TestName());
    var s, r := "source=" + source, "run=" + run;
    assert "source" + "=" + source == s && "run" + "=" + run == r;
    CutAt("source", source);
    CutAt("run", run);
    ThreeFields(TestField(), s, r);
    assert "test" != "source" && "test" != "run" && "source" != "run";
  }

  predicate NoBars(fields: Fields) {
    forall key | key in fields :: '|' !in fields[key]
  }

  /** No field that is read holds a bar. */
  lemma {:induction false} FieldsPlain(parts: seq<string>)
    requires forall p | p in parts :: '|' !in p
    ensures NoBars(FieldsOf(parts))
  {
    if parts == [] {
      assert FieldsOf(parts) == map[];
    } else {
      hide Cut;
      var init, last := parts[..|parts| - 1], parts[|parts| - 1];
      assert last in parts && forall p | p in init :: p in parts;
      FieldsPlain(init);
      match Cut(last) {
        case None => assert FieldsOf(parts) == FieldsOf(init);
        case Some(cut) =>
          assert FieldsOf(parts) == FieldsOf(init)[cut.0 := cut.1];
          assert forall i | 0 <= i < |cut.1| :: cut.1[i] == last[|last| - |cut.1| + i];
      }
    }
  }

  lemma FieldPlain(fields: Fields, key: string)
    requires NoBars(fields)
    ensures '|' !in Field(fields, key)
  {
  }

  /** A payload that can be made tells source and run exactly when both are there and neither holds a bar. */
  lemma RoundTrip(source: string, run: string)
    requires Make(source, run).Some?
    ensures Parse(Make(source, run).value) == Some((source, run)) <==>
            source != [] && run != [] && '|' !in source && '|' !in run
  {
    hide Parts, FieldsOf, TestField, MarkerOf;
    var marker := MarkerOf(source, run);
    var n := PAYLOAD_SIZE - |marker|;
    if '|' !in source && '|' !in run {
      PartsBack(source, run, n);
      FieldsBack(source, run);
    } else {
      PartsPlain(marker + Spaces(n));
      var fields := FieldsOf(Parts(marker + Spaces(n)));
      FieldsPlain(Parts(marker + Spaces(n)));
      FieldPlain(fields, "source");
      FieldPlain(fields, "run");
    }
  }

  lemma PartsPlain(payload: string)
    ensures forall p | p in Parts(payload) :: '|' !in p
  {
  }

  function Barred(parts: seq<string>): string {
    if |parts| == 0 then "" else if |parts| == 1 then parts[0] else parts[0] + "|" + Barred(parts[1..])
  }

  /** The parts with bars between them are the text. */
  lemma {:induction false} SplitJoins(s: string)
    ensures Barred(Split(s)) == s
  {
    if s != [] {
      SplitJoins(s[1..]);
      var rest := Split(s[1..]);
      if s[0] == '|' {
        assert ([[]] + rest)[1..] == rest;
      } else {
        assert ([[s[0]] + rest[0]] + rest[1..])[1..] == rest[1..];
      }
      assert s == [s[0]] + s[1..];
    }
  }

  /** What stands in front of the source. */
  function Front(): (s: string)
    ensures |s| == 38
  {
    "|" + ("test=" + "test_discovery_all_ports") + "|" + "source="
  }

  lemma MarkerText(source: string, run: string)
    ensures MarkerOf(source, run) == Front() + source + ("|" + "run=" + run + "|")
    ensures |MarkerOf(source, run)| == 44 + |source| + |run|
  {
    hide Front;
    Grouped(TestField(), "source=", source, "run=", run);
    assert "|" + TestField() + "|" + "source=" == Front() by {
      FrontText();
    }
  }

  lemma FrontText()
    ensures "|" + TestField() + "|" + "source=" == Front()
  {
  }

  lemma Grouped(t: string, n: string, source: string, r: string, run: string)
    ensures "|" + (t + "|" + (n + source) + "|" + (r + run)) + "|"
            == ("|" + t + "|" + n) + source + (("|" + r) + run + "|")
  {
  }

  predicate AllPrintable(s: string) {
    forall c | c in s :: Printable(c)
  }

  lemma PrintableParts(a: string, b: string)
    ensures AllPrintable(a + b) <==> AllPrintable(a) && AllPrintable(b)
  {
    assert forall c | c in a + b :: c in a || c in b;
    assert forall c | c in a || c in b :: c in a + b;
  }

  lemma FixedPrintable(n: nat)
    ensures AllPrintable(Front()) && AllPrintable("|" + "run=") && AllPrintable("|")
    ensures AllPrintable(Spaces(n))
  {
  }

  /** A payload is 128 characters, and can be made if there is room and nothing unprintable in source or run. */
  lemma PayloadIs(source: string, run: string)
    ensures Make(source, run) ==
            if |source| + |run| > 84 || exists c | c in source + run :: !(0x20 as char <= c <= 0x7e as char) then None
            else Some(Front() + source + ("|" + "run=" + run + "|") + Spaces(84 - |source| - |run|))
  {
    hide MarkerOf, Spaces, AllPrintable, Front;
    MarkerText(source, run);
    var (text, middle) := (MarkerOf(source, run), "|" + "run=");
    if |source| + |run| <= 84 {
      var n := 84 - |source| - |run|;
      FixedPrintable(n);
      PrintableParts(text, Spaces(n));
      PrintableParts(Front() + source, middle + run + "|");
      PrintableParts(Front(), source);
      PrintableParts(middle + run, "|");
      PrintableParts(middle, run);
      PrintableParts(source, run);
      PrintableIs(text + Spaces(n));
      PrintableIs(source + run);
    }
  }

  lemma PrintableIs(s: string)
    ensures AllPrintable(s) <==> forall c | c in s :: Printable(c)
    ensures !AllPrintable(s) <==> exists c | c in s :: !(0x20 as char <= c <= 0x7e as char)
  {
  }
}
