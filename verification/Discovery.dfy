/**
 The all-ports pairing report: cmd/gconsolecheck/discovery_all.go.
 Every port sends a marker with its own name; what each port receives says which ports are wired together.
 Characters stand for bytes.
 */
module Discovery {
  import opened Bytes

  type Name = string

  const MAX_INT := 0x7fff_ffff_ffff_ffff

  // ----- The order of port names

  predicate IsDigit(c: char) {
    '0' <= c <= '9'
  }

  /** Where the digits at the end begin. */
  function DigitsFrom(s: Name): (i: nat)
    ensures i <= |s|
  {
    if s == [] || !IsDigit(s[|s| - 1]) then |s| else DigitsFrom(s[..|s| - 1])
  }

  function Digit(c: char): nat
    requires IsDigit(c)
  {
    c as int - '0' as int
  }

  function Number(digits: string): nat
    requires forall c | c in digits :: IsDigit(c)
  {
    if digits == [] then 0
    else
      assert forall c | c in digits[..|digits| - 1] :: c in digits;
      assert IsDigit(digits[|digits| - 1]);
      Number(digits[..|digits| - 1]) * 10 + Digit(digits[|digits| - 1])
  }

  lemma {:induction false} DigitsAreDigits(s: Name)
    ensures forall c | c in s[DigitsFrom(s)..] :: IsDigit(c)
  {
    if s != [] && IsDigit(s[|s| - 1]) {
      var init := s[..|s| - 1];
      DigitsAreDigits(init);
      assert s[DigitsFrom(s)..] == init[DigitsFrom(init)..] + [s[|s| - 1]];
    }
  }

  /** splitConsolePortNumber: prefix and number, if the name ends in a number that fits into an int. */
  function Split(s: Name): Option<(Name, nat)> {
    var i := DigitsFrom(s);
    DigitsAreDigits(s);
    if i == |s| || Number(s[i..]) > MAX_INT then None else Some((s[..i], Number(s[i..])))
  }

  /** Go's order of strings. */
  predicate Before(a: Name, b: Name) {
    if b == [] then false
    else if a == [] then true
    else if a[0] != b[0] then a[0] < b[0]
    else Before(a[1..], b[1..])
  }

  /** consolePortLess */
  predicate Less(a: Name, b: Name) {
    var x, y := Split(a), Split(b);
    if x.Some? && y.Some? && x.value.0 == y.value.0 && x.value.1 != y.value.1 then x.value.1 < y.value.1
    else Before(a, b)
  }

  lemma {:induction false} BeforeTotal(a: Name, b: Name)
    ensures !(Before(a, b) && Before(b, a))
    ensures a != b ==> Before(a, b) || Before(b, a)
  {
    if a != [] && b != [] {
      assert a == [a[0]] + a[1..] && b == [b[0]] + b[1..];
      BeforeTotal(a[1..], b[1..]);
    }
  }

  /** Of two different names exactly one is less than the other. */
  lemma ExactlyOneLess(a: Name, b: Name)
    requires a != b
    ensures Less(a, b) <==> !Less(b, a)
  {
    BeforeTotal(a, b);
  }

  /** And yet it is no order: three names can go round in a circle. */
  lemma Circle()
    ensures Less("a2", "a10") && Less("a10", "a1b") && Less("a1b", "a2")
  {
    SplitDigit("a", '2');
    TwoDigits();
    assert "a1b"[2] == 'b' && DigitsFrom("a1b") == 3;
    assert "a1b"[1..] == "1b" && "a10"[1..] == "10" && "a2"[1..] == "2";
    assert "1b"[1..] == "b" && "10"[1..] == "0";
  }

  lemma SplitDigit(p: Name, d: char)
    requires IsDigit(d) && (p == [] || !IsDigit(p[|p| - 1]))
    ensures Split(p + [d]) == Some((p, Digit(d)))
  {
    var s := p + [d];
    assert s[..|s| - 1] == p && DigitsFrom(s) == |p|;
    assert s[|p|..] == [d] && [d][..0] == [] && s[..|p|] == p;
    assert Number([d]) == Digit(d);
  }

  lemma TwoDigits()
    ensures Split("a10") == Some(("a", 10))
  {
    var s := "a10";
    assert s[..2] == "a1" && "a1"[..1] == "a";
    assert DigitsFrom("a1") == 1 && DigitsFrom(s) == 1;
    assert s[1..] == "10" && "10"[..1] == "1" && "1"[..0] == [];
    assert Number("1") == 1 && Number("10") == 10 && s[..1] == "a";
  }

  // ----- What each port reports

  /** A port without a session, one whose marker is missing or stale, or the source it has heard. */
  datatype Heard = Nothing | Unpaired | Source(name: Name)

  predicate DistinctNames(names: seq<Name>) {
    forall i, j | 0 <= i < j < |names| :: names[i] != names[j]
  }

  /** Two different ports that have heard each other. */
  predicate Mutual(heard: map<Name, Heard>, r: Name) {
    && r in heard && heard[r].Source?
    && var s := heard[r].name;
       s != r && s in heard && heard[s] == Source(r)
  }

  /** The pair a port belongs to, left and right as they are printed. */
  function PairOf(heard: map<Name, Heard>, r: Name): (Name, Name)
    requires Mutual(heard, r)
  {
    var s := heard[r].name;
    if Less(s, r) then (s, r) else (r, s)
  }

  function KeyOf(p: (Name, Name)): Name {
    p.0 + "=" + p.1
  }

  ghost function MutualSet(heard: map<Name, Heard>): set<Name> {
    set r | r in heard && Mutual(heard, r)
  }

  ghost function Pairs(heard: map<Name, Heard>): set<(Name, Name)> {
    set r | r in heard && Mutual(heard, r) :: PairOf(heard, r)
  }

  ghost function PairKeys(heard: map<Name, Heard>): set<Name> {
    KeysOf(Pairs(heard))
  }

  /** Both ports of a pair name the same pair. */
  lemma SamePair(heard: map<Name, Heard>, r: Name)
    requires Mutual(heard, r)
    ensures var s := heard[r].name; Mutual(heard, s) && PairOf(heard, s) == PairOf(heard, r)
  {
    hide Less;
    ExactlyOneLess(r, heard[r].name);
  }

  lemma PairOfTwo(heard: map<Name, Heard>, r: Name, t: Name)
    requires Mutual(heard, r) && Mutual(heard, t) && PairOf(heard, r) == PairOf(heard, t)
    ensures t == r || t == heard[r].name
  {
    hide Less;
    assert PairOf(heard, t).0 == t || PairOf(heard, t).1 == t;
  }

  /** A set of ports that comes in couples is twice as large as the set of couples. */
  lemma {:induction false} TwoPerPair(heard: map<Name, Heard>, m: set<Name>, ps: set<(Name, Name)>)
    requires forall r | r in m :: Mutual(heard, r) && heard[r].name in m
    requires ps == set r | r in m :: PairOf(heard, r)
    ensures |m| == 2 * |ps|
    decreases |m|
  {
    hide PairOf, Less;
    if m == {} {
      assert ps == {};
    } else {
      var r :| r in m;
      var s := heard[r].name;
      var p := PairOf(heard, r);
      SamePair(heard, r);
      var m', ps' := m - {r, s}, ps - {p};
      forall t | t in m' ensures PairOf(heard, t) != p && heard[t].name in m' {
        if PairOf(heard, t) == p {
          PairOfTwo(heard, r, t);
        }
        SamePair(heard, t);
      }
      assert ps' == set t | t in m' :: PairOf(heard, t) by {
        forall q | q in ps' ensures q in set t | t in m' :: PairOf(heard, t) {
          var t :| t in m && PairOf(heard, t) == q;
        }
      }
      TwoPerPair(heard, m', ps');
      assert |m| == |m'| + 2 && p in ps;
    }
  }

  // ----- The report

  function Connected(heard: map<Name, Heard>, names: seq<Name>): nat
    requires forall n | n in names :: n in heard
  {
    if names == [] then 0
    else Connected(heard, names[..|names| - 1]) + if heard[names[|names| - 1]].Nothing? then 0 else 1
  }

  /** Ports with a session that are in no pair. */
  function Alone(heard: map<Name, Heard>, names: seq<Name>): nat
    requires forall n | n in names :: n in heard
  {
    if names == [] then 0
    else
      var n := names[|names| - 1];
      Alone(heard, names[..|names| - 1]) + if heard[n].Nothing? || Mutual(heard, n) then 0 else 1
  }

  ghost function Named(heard: map<Name, Heard>, names: seq<Name>): set<Name> {
    set n | n in names && Mutual(heard, n)
  }

  lemma NamedMore(heard: map<Name, Heard>, names: seq<Name>, n: Name)
    requires n !in names
    ensures |Named(heard, names + [n])| == |Named(heard, names)| + if Mutual(heard, n) then 1 else 0
  {
    hide Mutual;
    var before := Named(heard, names);
    assert n !in before;
    if Mutual(heard, n) {
      assert Named(heard, names + [n]) == before + {n};
    } else {
      assert Named(heard, names + [n]) == before;
    }
  }

  lemma {:induction false} ConnectedSplits(heard: map<Name, Heard>, names: seq<Name>)
    requires (forall n | n in names :: n in heard) && DistinctNames(names)
    ensures Connected(heard, names) == Alone(heard, names) + |Named(heard, names)|
  {
    hide Named, Mutual;
    if names == [] {
      NoneNamed(heard);
    } else {
      var init, n := names[..|names| - 1], names[|names| - 1];
      ConnectedSplits(heard, init);
      assert names == init + [n] && n !in init;
      NamedMore(heard, init, n);
      SourceOfMutual(heard, n);
    }
  }

  lemma NoneNamed(heard: map<Name, Heard>)
    ensures Named(heard, []) == {}
  {
  }

  lemma SourceOfMutual(heard: map<Name, Heard>, n: Name)
    requires n in heard
    ensures Mutual(heard, n) ==> !heard[n].Nothing?
  {
  }

  /** Every connected port is in exactly one pair or counted as unpaired. */
  lemma PortsConserved(heard: map<Name, Heard>, names: seq<Name>)
    requires DistinctNames(names) && heard.Keys == set n | n in names
    ensures Connected(heard, names) == 2 * |Pairs(heard)| + Alone(heard, names)
  {
    ConnectedSplits(heard, names);
    var m := MutualSet(heard);
    assert Named(heard, names) == m;
    forall r | r in m ensures Mutual(heard, r) && heard[r].name in m {
      SamePair(heard, r);
    }
    TwoPerPair(heard, m, Pairs(heard));
  }

  /** The first half of the report: the sources heard, and the ports that have heard none. */
  method Collect(names: seq<Name>, heard: map<Name, Heard>) returns (mapping: map<Name, Name>, unpaired: nat)
    requires forall n | n in names :: n in heard
    ensures mapping == map n | n in heard && n in names && heard[n].Source? :: heard[n].name
    ensures unpaired == Deaf(heard, names)
  {
    mapping, unpaired := map[], 0;
    var i := 0;
    while i < |names|
      invariant 0 <= i <= |names| && unpaired == Deaf(heard, names[..i])
      invariant mapping == map n | n in heard && n in names[..i] && heard[n].Source? :: heard[n].name
    {
      var name := names[i];
      assert names[..i + 1] == names[..i] + [name] && names[..i + 1][..i] == names[..i];
      match heard[name] {
        case Nothing =>
        case Unpaired =>
          unpaired := unpaired + 1;
        case Source(source) =>
          mapping := mapping[name := source];
      }
      i := i + 1;
    }
    assert names[..|names|] == names;
  }

  function Deaf(heard: map<Name, Heard>, names: seq<Name>): nat
    requires forall n | n in names :: n in heard
  {
    if names == [] then 0
    else Deaf(heard, names[..|names| - 1]) + if heard[names[|names| - 1]].Unpaired? then 1 else 0
  }

  /** The second half: pairs, each printed once, and the ports that are in none. */
  method Report(names: seq<Name>, heard: map<Name, Heard>)
      returns (pairs: nat, unpaired: nat, discovered: seq<(Name, Name)>)
    requires DistinctNames(names) && heard.Keys == set n | n in names
    ensures unpaired == Alone(heard, names)
    ensures pairs == |PairKeys(heard)| == |discovered|
    ensures forall p | p in discovered :: p in Pairs(heard)
    ensures forall i, j | 0 <= i < j < |discovered| :: KeyOf(discovered[i]) != KeyOf(discovered[j])
    ensures forall p | p in Pairs(heard) :: exists q :: q in discovered && KeyOf(q) == KeyOf(p)
  {
    hide Deaf, Alone, Less, Mutual, Listed, PairOf, KeyOf, Seen;
    var mapping;
    mapping, unpaired := Collect(names, heard);
    pairs, discovered := 0, [];
    var reported: set<Name> := {};
    var i := 0;
    NoneAlone(heard, names);
    NothingListed(heard);
    while i < |names|
      invariant 0 <= i <= |names|
      invariant unpaired == Alone(heard, names[..i]) + Deaf(heard, names) - Deaf(heard, names[..i])
      invariant reported == Seen(heard, names[..i]) && pairs == |reported| && Listed(heard, discovered, reported)
    {
      var receiver := names[i];
      OneMore(heard, names, i);
      MappingTells(heard, names, mapping, receiver);
      if receiver in mapping {
        var source := mapping[receiver];
        if source == receiver {
          unpaired := unpaired + 1;
        } else if source in mapping && mapping[source] == receiver {
          var left, right := receiver, source;
          if Less(right, left) {
            left, right := right, left;
          }
          PrintedPair(heard, receiver);
          var key := left + "=" + right;
          KeyIs((left, right));
          if key !in reported {
            ListedMore(heard, discovered, reported, receiver);
            reported := reported + {key};
            pairs := pairs + 1;
            discovered := discovered + [(left, right)];
          }
        } else {
          unpaired := unpaired + 1;
        }
      }
      i := i + 1;
    }
    assert names[..|names|] == names;
    SeenAll(heard, names);
    ListedAll(heard, discovered);
  }

  /** What has been printed, for the keys reported so far. */
  ghost predicate Listed(heard: map<Name, Heard>, discovered: seq<(Name, Name)>, reported: set<Name>) {
    && |discovered| == |reported|
    && (forall p | p in discovered :: p in Pairs(heard) && KeyOf(p) in reported)
    && (forall i, j | 0 <= i < j < |discovered| :: KeyOf(discovered[i]) != KeyOf(discovered[j]))
    && (forall k | k in reported :: exists q :: q in discovered && KeyOf(q) == k)
  }

  lemma NothingListed(heard: map<Name, Heard>)
    ensures Listed(heard, [], {})
  {
  }

  lemma ListedMore(heard: map<Name, Heard>, discovered: seq<(Name, Name)>, reported: set<Name>, r: Name)
    requires Listed(heard, discovered, reported) && Mutual(heard, r) && KeyOf(PairOf(heard, r)) !in reported
    ensures Listed(heard, discovered + [PairOf(heard, r)], reported + {KeyOf(PairOf(heard, r))})
  {
    hide KeyOf, PairOf;
    var p := PairOf(heard, r);
    var d, k := discovered + [p], reported + {KeyOf(p)};
    assert r in heard && p in Pairs(heard);
    assert d[|d| - 1] == p;
    forall key | key in k ensures exists q :: q in d && KeyOf(q) == key {
      if key in reported {
        var q :| q in discovered && KeyOf(q) == key;
        assert q in d;
      } else {
        assert p in d;
      }
    }
    StillDistinct(discovered, p, reported);
  }

  lemma StillDistinct(discovered: seq<(Name, Name)>, p: (Name, Name), reported: set<Name>)
    requires forall q | q in discovered :: KeyOf(q) in reported
    requires forall i, j | 0 <= i < j < |discovered| :: KeyOf(discovered[i]) != KeyOf(discovered[j])
    requires KeyOf(p) !in reported
    ensures var d := discovered + [p]; forall i, j | 0 <= i < j < |d| :: KeyOf(d[i]) != KeyOf(d[j])
  {
    hide KeyOf;
    var d := discovered + [p];
    forall i, j | 0 <= i < j < |d| ensures KeyOf(d[i]) != KeyOf(d[j]) {
      assert d[i] in discovered;
    }
  }

  lemma ListedAll(heard: map<Name, Heard>, discovered: seq<(Name, Name)>)
    requires Listed(heard, discovered, PairKeys(heard))
    ensures |PairKeys(heard)| == |discovered|
    ensures forall p | p in discovered :: p in Pairs(heard)
    ensures forall i, j | 0 <= i < j < |discovered| :: KeyOf(discovered[i]) != KeyOf(discovered[j])
    ensures forall p | p in Pairs(heard) :: exists q :: q in discovered && KeyOf(q) == KeyOf(p)
  {
    hide KeyOf, PairOf;
    forall p | p in Pairs(heard) ensures exists q :: q in discovered && KeyOf(q) == KeyOf(p) {
      assert KeyOf(p) in PairKeys(heard);
    }
  }

  lemma KeyIs(p: (Name, Name))
    ensures KeyOf(p) == p.0 + "=" + p.1
  {
  }

  lemma PrintedPair(heard: map<Name, Heard>, r: Name)
    requires Mutual(heard, r)
    ensures var s := heard[r].name; PairOf(heard, r) == if Less(s, r) then (s, r) else (r, s)
  {
  }

  lemma MappingTells(heard: map<Name, Heard>, names: seq<Name>, mapping: map<Name, Name>, r: Name)
    requires r in names && heard.Keys == set n | n in names
    requires mapping == map n | n in heard && n in names && heard[n].Source? :: heard[n].name
    ensures r in heard && (r in mapping <==> heard[r].Source?) && (r in mapping ==> mapping[r] == heard[r].name)
    ensures Mutual(heard, r) <==> r in mapping && mapping[r] != r && mapping[r] in mapping && mapping[mapping[r]] == r
  {
  }

  /** The keys of the pairs that the ports in `names` belong to. */
  ghost function Seen(heard: map<Name, Heard>, names: seq<Name>): set<Name> {
    set n | n in names && Mutual(heard, n) :: KeyOf(PairOf(heard, n))
  }

  lemma NoneAlone(heard: map<Name, Heard>, names: seq<Name>)
    ensures Alone(heard, names[..0]) == 0 && Deaf(heard, names[..0]) == 0 && Seen(heard, names[..0]) == {}
  {
  }

  lemma OneMore(heard: map<Name, Heard>, names: seq<Name>, i: nat)
    requires i < |names| && forall n | n in names :: n in heard
    ensures var n := names[i];
            && Alone(heard, names[..i + 1]) == Alone(heard, names[..i])
               + (if heard[n].Nothing? || Mutual(heard, n) then 0 else 1)
            && Deaf(heard, names[..i + 1]) == Deaf(heard, names[..i]) + (if heard[n].Unpaired? then 1 else 0)
            && Seen(heard, names[..i + 1]) == Seen(heard, names[..i])
               + (if Mutual(heard, n) then {KeyOf(PairOf(heard, n))} else {})
  {
    var n := names[i];
    assert names[..i + 1] == names[..i] + [n] && names[..i + 1][..i] == names[..i];
    var a, b := Seen(heard, names[..i + 1]), Seen(heard, names[..i])
        + (if Mutual(heard, n) then {KeyOf(PairOf(heard, n))} else {});
    forall k | k in a ensures k in b {
      var m :| m in names[..i + 1] && Mutual(heard, m) && KeyOf(PairOf(heard, m)) == k;
    }
    forall k | k in b ensures k in a {
      if k in Seen(heard, names[..i]) {
        var m :| m in names[..i] && Mutual(heard, m) && KeyOf(PairOf(heard, m)) == k;
        assert m in names[..i + 1];
      }
    }
  }

  lemma SeenAll(heard: map<Name, Heard>, names: seq<Name>)
    requires heard.Keys == set n | n in names
    ensures Seen(heard, names) == PairKeys(heard)
  {
    forall k | k in Seen(heard, names) ensures k in PairKeys(heard) {
      var n :| n in names && Mutual(heard, n) && KeyOf(PairOf(heard, n)) == k;
      assert PairOf(heard, n) in Pairs(heard);
    }
    forall k | k in PairKeys(heard) ensures k in Seen(heard, names) {
      var p :| p in Pairs(heard) && KeyOf(p) == k;
      var n :| n in heard && Mutual(heard, n) && PairOf(heard, n) == p;
    }
  }

  // ----- When the summary adds up

  /** Different pairs have different keys. */
  ghost predicate KeysTell(heard: map<Name, Heard>) {
    Told(Pairs(heard))
  }

  ghost predicate Told(ps: set<(Name, Name)>) {
    forall p, q | p in ps && q in ps && KeyOf(p) == KeyOf(q) :: p == q
  }

  ghost function KeysOf(ps: set<(Name, Name)>): set<Name> {
    set p | p in ps :: KeyOf(p)
  }

  lemma {:induction false} ImageSize(ps: set<(Name, Name)>)
    ensures |KeysOf(ps)| <= |ps|
    ensures |KeysOf(ps)| == |ps| <==> Told(ps)
    decreases |ps|
  {
    if ps == {} {
      assert KeysOf(ps) == {};
    } else {
      var p :| p in ps;
      var rest := ps - {p};
      ImageSize(rest);
      OneMoreKey(rest, p);
      assert ps == rest + {p};
      hide KeysOf, Told;
    }
  }

  lemma OneMoreKey(ps: set<(Name, Name)>, p: (Name, Name))
    requires p !in ps
    ensures KeysOf(ps + {p}) == KeysOf(ps) + {KeyOf(p)}
    ensures Told(ps + {p}) <==> Told(ps) && KeyOf(p) !in KeysOf(ps)
  {
    hide KeyOf;
    assert p in ps + {p} && forall q | q in ps :: q in ps + {p} && KeyOf(q) in KeysOf(ps);
  }

  /** connected = 2 * pairs + unpaired, exactly when no two pairs share a key. */
  lemma SummaryAddsUp(heard: map<Name, Heard>, names: seq<Name>)
    requires DistinctNames(names) && heard.Keys == set n | n in names
    ensures Connected(heard, names) == 2 * |PairKeys(heard)| + Alone(heard, names) <==> KeysTell(heard)
  {
    PortsConserved(heard, names);
    ImageSize(Pairs(heard));
  }

  lemma PlainNamesTell(heard: map<Name, Heard>)
    requires forall n | n in heard :: '=' !in n
    ensures KeysTell(heard)
  {
    forall p, q | p in Pairs(heard) && q in Pairs(heard) && KeyOf(p) == KeyOf(q) ensures p == q {
      Unambiguous(p, q);
    }
  }

  /** A key splits at its first '='. */
  lemma Unambiguous(p: (Name, Name), q: (Name, Name))
    requires '=' !in p.0 && '=' !in q.0 && KeyOf(p) == KeyOf(q)
    ensures p == q
  {
    LongerDiffers(p, q);
    LongerDiffers(q, p);
    var k, i := KeyOf(p), |p.0|;
    assert k[..i] == p.0 && k[i + 1..] == p.1;
    assert KeyOf(q)[..|q.0|] == q.0 && KeyOf(q)[|q.0| + 1..] == q.1;
  }

  lemma LongerDiffers(p: (Name, Name), q: (Name, Name))
    requires '=' !in q.0
    ensures |p.0| < |q.0| ==> KeyOf(p) != KeyOf(q)
  {
    if |p.0| < |q.0| {
      assert KeyOf(p)[|p.0|] == '=';
      assert KeyOf(q)[|p.0|] == q.0[|p.0|] && q.0[|p.0|] in q.0;
    }
  }

  /** Names with '=' in them can make two pairs look like one. */
  lemma NamesCollide()
    ensures exists heard: map<Name, Heard> :: !KeysTell(heard)
  {
    hide Split;
    var heard := map["a=b" := Source("c"), "c" := Source("a=b"), "a" := Source("b=c"), "b=c" := Source("a")];
    assert Mutual(heard, "a=b") && Mutual(heard, "c") && Mutual(heard, "a") && Mutual(heard, "b=c");
    NoDigitsAtEnd("a=b", 'b');
    NoDigitsAtEnd("c", 'c');
    NoDigitsAtEnd("a", 'a');
    NoDigitsAtEnd("b=c", 'c');
    assert Before("a=b", "c") && !Before("c", "a=b");
    assert Before("a", "b=c") && !Before("b=c", "a");
    assert PairOf(heard, "a=b") == ("a=b", "c") && PairOf(heard, "a") == ("a", "b=c");
    assert KeyOf(("a=b", "c")) == "a=b=c" == KeyOf(("a", "b=c"));
    assert ("a=b", "c") in Pairs(heard) && ("a", "b=c") in Pairs(heard);
    assert ("a=b", "c").0 == "a=b" && ("a", "b=c").0 == "a" && |"a=b"| == 3 && |"a"| == 1;
    assert !KeysTell(heard);
  }

  lemma NoDigitsAtEnd(s: Name, c: char)
    requires s != [] && s[|s| - 1] == c && !IsDigit(c)
    ensures Split(s) == None
  {
  }
}
