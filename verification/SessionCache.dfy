/** lruSessionCache: internal/tls_hack/common.go. A map and a list of shared elements that are reused in place. */
module SessionCache {
  import opened Bytes

  type Key = seq<byte>
  type State = seq<byte>

  const DEFAULT_CAPACITY := 64

  datatype Pair = Pair(key: Key, state: State)

  // ----- A bounded list, most recently used first

  function Keys(l: seq<Pair>): (ks: seq<Key>)
    ensures |ks| == |l| && forall i | 0 <= i < |l| :: ks[i] == l[i].key
  {
    if l == [] then [] else [l[0].key] + Keys(l[1..])
  }

  function Without(l: seq<Pair>, k: Key): seq<Pair> {
    if l == [] then [] else if l[0].key == k then l[1..] else [l[0]] + Without(l[1..], k)
  }

  function Lookup(l: seq<Pair>, k: Key): Option<State> {
    if l == [] then None else if l[0].key == k then Some(l[0].state) else Lookup(l[1..], k)
  }

  function AfterPut(capacity: nat, l: seq<Pair>, k: Key, v: State): seq<Pair>
    requires capacity >= 1
  {
    if Lookup(l, k).Some? then [Pair(k, v)] + Without(l, k)
    else if |l| < capacity then [Pair(k, v)] + l
    else [Pair(k, v)] + l[..|l| - 1]
  }

  function AfterGet(l: seq<Pair>, k: Key): seq<Pair> {
    match Lookup(l, k)
    case None => l
    case Some(v) => [Pair(k, v)] + Without(l, k)
  }

  lemma {:induction false} LookupAt(l: seq<Pair>, i: nat)
    requires i < |l| && forall j | 0 <= j < i :: l[j].key != l[i].key
    ensures Lookup(l, l[i].key) == Some(l[i].state)
    ensures Without(l, l[i].key) == l[..i] + l[i + 1..]
  {
    if i == 0 {
      assert l[..0] + l[1..] == l[1..];
    } else {
      assert l[0].key != l[i].key;
      LookupAt(l[1..], i - 1);
      assert l[1..][..i - 1] == l[1..i] && l[1..][i..] == l[i + 1..];
      assert [l[0]] + (l[1..i] + l[i + 1..]) == l[..i] + l[i + 1..];
    }
  }

  lemma {:induction false} LookupNone(l: seq<Pair>, k: Key)
    ensures Lookup(l, k) == None <==> forall p | p in l :: p.key != k
    ensures Lookup(l, k) == None ==> Without(l, k) == l
  {
    if l != [] {
      LookupNone(l[1..], k);
      assert l == [l[0]] + l[1..];
    }
  }

  // ----- The cache

  class Element {
    var sessionKey: Key
    var state: State

    constructor (sessionKey: Key, state: State)
      ensures this.sessionKey == sessionKey && this.state == state
    {
      this.sessionKey, this.state := sessionKey, state;
    }
  }

  class Cache {
    var m: map<Key, Element>
    var q: seq<Element>
    const capacity: nat
    /** What the elements of `q` hold, in order. */
    ghost var list: seq<Pair>

    constructor (capacity: int)
      ensures Valid() && list == []
      ensures this.capacity == if capacity < 1 then DEFAULT_CAPACITY else capacity
    {
      m, q, list := map[], [], [];
      this.capacity := if capacity < 1 then DEFAULT_CAPACITY else capacity;
    }

    /** Map and list hold the same elements under their own keys, each once, and no more than fit. */
    ghost predicate Valid()
      reads this, q
    {
      && 1 <= capacity && |q| <= capacity && NoDuplicates(q)
      && Mapped() && Listed()
    }

    ghost predicate Mapped()
      reads this, q
    {
      && (forall e | e in q :: e.sessionKey in m && m[e.sessionKey] == e)
      && (forall k | k in m :: m[k] in q && m[k].sessionKey == k)
    }

    ghost predicate Listed()
      reads this, q
    {
      |list| == |q| && forall i | 0 <= i < |q| :: list[i] == Pair(q[i].sessionKey, q[i].state)
    }

    /** An element is found in the list under its key. */
    lemma Found(i: nat)
      requires Valid() && i < |q|
      ensures Lookup(list, q[i].sessionKey) == Some(q[i].state)
              && Without(list, q[i].sessionKey) == list[..i] + list[i + 1..]
    {
      forall j | 0 <= j < i ensures list[j].key != list[i].key {
        assert q[i] in q && q[j] in q;
      }
      LookupAt(list, i);
    }

    lemma NotThere(k: Key)
      requires Valid() && k !in m
      ensures Lookup(list, k) == None
    {
      LookupNone(list, k);
      forall p | p in list ensures p.key != k {
        var i :| 0 <= i < |list| && list[i] == p;
        assert q[i] in q;
      }
    }

    /** The place of an element in the list. */
    method Index(elem: Element) returns (i: nat)
      requires elem in q
      ensures i < |q| && q[i] == elem
    {
      i := 0;
      while q[i] != elem
        invariant 0 <= i < |q| && elem in q[i..]
        decreases |q| - i
      {
        i := i + 1;
      }
    }

    /** list.MoveToFront */
    method MoveToFront(elem: Element)
      requires Valid() && elem in q
      modifies this`q, this`list
      ensures Valid()
      ensures list == [Pair(elem.sessionKey, elem.state)] + Without(old(list), elem.sessionKey)
    {
      hide NoDuplicates, Lookup, Without, ToFront;
      var i := Index(elem);
      Found(i);
      ToFrontSame(q, i);
      ToFrontPlaces(q, i);
      ToFrontPlaces(list, i);
      ToFrontIs(list, i);
      q := ToFront(q, i);
      list := ToFront(list, i);
    }

    method Get(k: Key) returns (r: Option<State>)
      requires Valid()
      modifies this`q, this`list
      ensures Valid() && r == Lookup(old(list), k) && list == AfterGet(old(list), k)
    {
      hide Lookup, Without, NoDuplicates;
      if k !in m {
        NotThere(k);
        return None;
      }
      var elem := m[k];
      FoundBy(k);
      MoveToFront(elem);
      r := Some(elem.state);
    }

    lemma FoundBy(k: Key)
      requires Valid() && k in m
      ensures m[k] in q && m[k].sessionKey == k && Lookup(list, k) == Some(m[k].state)
    {
      hide Lookup, Without;
      var i :| 0 <= i < |q| && q[i] == m[k];
      Found(i);
    }

    method Put(k: Key, v: State)
      requires Valid()
      modifies this, q
      ensures Valid() && list == AfterPut(capacity, old(list), k, v)
    {
      hide Lookup, Without;
      if k in m {
        PutThere(k, v);
        return;
      }
      NotThere(k);
      if |q| < capacity {
        PutNew(k, v);
      } else {
        Reuse(k, v);
      }
    }

    method PutThere(k: Key, v: State)
      requires Valid() && k in m
      modifies this`q, this`list, m[k]
      ensures Valid() && list == AfterPut(capacity, old(list), k, v)
    {
      hide Lookup, Without, NoDuplicates;
      var elem := m[k];
      var i := Index(elem);
      FoundBy(k);
      Found(i);
      ghost var l := list;
      OtherPlaces(q, i);
      elem.state := v;
      list := l[i := Pair(k, v)];
      assert Mapped();
      Found(i);
      assert list[..i] == l[..i] && list[i + 1..] == l[i + 1..];
      MoveToFront(elem);
    }

    method PutNew(k: Key, v: State)
      requires Valid() && k !in m && |q| < capacity && Lookup(list, k) == None
      modifies this
      ensures Valid() && list == AfterPut(capacity, old(list), k, v)
    {
      hide Lookup, Without;
      var entry := new Element(k, v);
      q := [entry] + q;
      m := m[k := entry];
      list := [Pair(k, v)] + list;
    }

    /** A full cache gives the element of the least recently used key to the new one. */
    method Reuse(k: Key, v: State)
      requires Valid() && k !in m && |q| == capacity && Lookup(list, k) == None
      modifies this, q[|q| - 1]
      ensures Valid() && list == AfterPut(capacity, old(list), k, v)
    {
      hide Lookup, Without, NoDuplicates;
      var i := |q| - 1;
      var elem := q[i];
      OtherPlaces(q, i);
      assert elem in q;
      ghost var l := list;
      m := m - {elem.sessionKey};
      elem.sessionKey := k;
      elem.state := v;
      m := m[k := elem];
      list := l[i := Pair(k, v)];
      assert Mapped();
      Found(i);
      assert list[..i] == l[..i] && list[i + 1..] == [] && l[..i] + [] == l[..i];
      MoveToFront(elem);
    }
  }

  ghost predicate NoDuplicates(q: seq<Element>) {
    forall i, j | 0 <= i < j < |q| :: q[i] != q[j]
  }

  function ToFront<T>(q: seq<T>, i: nat): seq<T>
    requires i < |q|
  {
    [q[i]] + (q[..i] + q[i + 1..])
  }

  lemma ToFrontSame(q: seq<Element>, i: nat)
    requires i < |q| && NoDuplicates(q)
    ensures |ToFront(q, i)| == |q| && NoDuplicates(ToFront(q, i))
    ensures forall e :: e in ToFront(q, i) <==> e in q
  {
    assert q == q[..i] + [q[i]] + q[i + 1..];
  }

  lemma ToFrontPlaces<T>(q: seq<T>, i: nat)
    requires i < |q|
    ensures var r := ToFront(q, i);
            && |r| == |q|
            && forall j {:trigger r[j]} | 0 <= j < |q| :: r[j] == if j == 0 then q[i] else if j <= i then q[j - 1]
               else q[j]
  {
  }

  lemma ToFrontIs<T>(q: seq<T>, i: nat)
    requires i < |q|
    ensures ToFront(q, i) == [q[i]] + (q[..i] + q[i + 1..])
  {
  }

  lemma OtherPlaces(q: seq<Element>, i: nat)
    requires i < |q| && NoDuplicates(q)
    ensures forall j | 0 <= j < |q| && j != i :: q[j] != q[i]
  {
  }

  // ----- Whole histories

  datatype Op = Put(k: Key, v: State) | Get(k: Key)

  /** The list after a history of operations. */
  function Run(capacity: nat, ops: seq<Op>): seq<Pair>
    requires capacity >= 1
  {
    if ops == [] then []
    else
      var l, op := Run(capacity, ops[..|ops| - 1]), ops[|ops| - 1];
      match op
      case Put(k, v) => AfterPut(capacity, l, k, v)
      case Get(k) => AfterGet(l, k)
  }

  function Minus(ks: seq<Key>, k: Key): seq<Key> {
    if ks == [] then [] else if ks[0] == k then ks[1..] else [ks[0]] + Minus(ks[1..], k)
  }

  function Take(n: nat, ks: seq<Key>): (r: seq<Key>) {
    if |ks| <= n then ks else ks[..n]
  }

  /**
   All keys ever used, most recent first; a Get uses a key only if it is among the `capacity` most recent.
   This looks at nothing but the order of operations.
   */
  function Recent(capacity: nat, ops: seq<Op>): seq<Key> {
    if ops == [] then []
    else
      var r, op := Recent(capacity, ops[..|ops| - 1]), ops[|ops| - 1];
      if op.Get? && op.k !in Take(capacity, r) then r else [op.k] + Minus(r, op.k)
  }

  /** The state last put under a key. */
  function LastPut(ops: seq<Op>, k: Key): Option<State> {
    if ops == [] then None
    else
      var op := ops[|ops| - 1];
      if op.Put? && op.k == k then Some(op.v) else LastPut(ops[..|ops| - 1], k)
  }

  predicate Distinct(ks: seq<Key>) {
    forall i, j | 0 <= i < j < |ks| :: ks[i] != ks[j]
  }

  lemma {:induction false} MinusFacts(ks: seq<Key>, k: Key)
    requires Distinct(ks)
    ensures k !in Minus(ks, k) && Distinct(Minus(ks, k))
    ensures forall x :: x in Minus(ks, k) <==> x in ks && x != k
    ensures |Minus(ks, k)| == if k in ks then |ks| - 1 else |ks|
  {
    if ks != [] {
      assert ks == [ks[0]] + ks[1..];
      MinusFacts(ks[1..], k);
      var rest := Minus(ks[1..], k);
      assert ks[0] !in ks[1..] && ks[0] !in rest;
      if ks[0] != k {
        forall i, j | 0 <= i < j < |Minus(ks, k)| ensures Minus(ks, k)[i] != Minus(ks, k)[j] {
          assert Minus(ks, k)[j] == rest[j - 1] && rest[j - 1] in rest;
          if i > 0 {
            assert Minus(ks, k)[i] == rest[i - 1];
          }
        }
      }
    }
  }

  lemma {:induction false} MinusNone(ks: seq<Key>, k: Key)
    requires k !in ks
    ensures Minus(ks, k) == ks
  {
    if ks != [] {
      assert ks == [ks[0]] + ks[1..];
      MinusNone(ks[1..], k);
    }
  }

  /** Taking a key out of a prefix is taking it out of the whole and cutting off one earlier. */
  lemma {:induction false} MinusPrefix(n: nat, ks: seq<Key>, k: Key)
    requires n <= |ks| && Distinct(ks)
    ensures k in ks[..n] ==> n >= 1 && n - 1 <= |Minus(ks, k)| && Minus(ks, k)[..n - 1] == Minus(ks[..n], k)
    ensures k !in ks[..n] && n >= 1 ==> n - 1 <= |Minus(ks, k)| && Minus(ks, k)[..n - 1] == ks[..n - 1]
  {
    if n > 0 {
      var tail := ks[1..];
      assert ks[..n] == [ks[0]] + tail[..n - 1];
      MinusPrefix(n - 1, tail, k);
      MinusFacts(ks, k);
      if ks[0] == k {
        assert ks[..n][1..] == tail[..n - 1];
      } else if n >= 2 {
        assert ([ks[0]] + Minus(tail, k))[..n - 1] == [ks[0]] + Minus(tail, k)[..n - 2];
        assert ks[..n][0] == ks[0] && ks[..n][1..] == tail[..n - 1];
        assert ks[..n - 1] == [ks[0]] + tail[..n - 2];
      }
    }
  }

  lemma {:induction false} RecentDistinct(capacity: nat, ops: seq<Op>)
    ensures Distinct(Recent(capacity, ops))
  {
    if ops != [] {
      RecentDistinct(capacity, ops[..|ops| - 1]);
      MinusFacts(Recent(capacity, ops[..|ops| - 1]), ops[|ops| - 1].k);
    }
  }

  /** The list that pairs each of `ks` with the state last put under it. */
  predicate Reflects(ops: seq<Op>, ks: seq<Key>, l: seq<Pair>) {
    |l| == |ks| && forall i | 0 <= i < |ks| :: l[i].key == ks[i] && LastPut(ops, ks[i]) == Some(l[i].state)
  }

  /**
   The cache holds exactly the `capacity` most recently used keys, in that order, each with the
   state last put under it.
   */
  lemma {:induction false} HoldsMostRecent(capacity: nat, ops: seq<Op>)
    requires capacity >= 1
    ensures Reflects(ops, Take(capacity, Recent(capacity, ops)), Run(capacity, ops))
  {
    if ops != [] {
      var before, op := ops[..|ops| - 1], ops[|ops| - 1];
      HoldsMostRecent(capacity, before);
      RecentDistinct(capacity, before);
      var r, l := Recent(capacity, before), Run(capacity, before);
      MinusFacts(r, op.k);
      MinusPrefix(|Take(capacity, r)|, r, op.k);
      LookupNone(l, op.k);
      if op.k in Take(capacity, r) {
        var i :| 0 <= i < |l| && Take(capacity, r)[i] == op.k;
        Hit(capacity, ops, r, l, i);
      } else {
        Miss(capacity, ops, r, l);
      }
    }
  }

  /** A key used now goes in front of others that have not been touched. */
  lemma InFront(ops: seq<Op>, k: Key, v: State, ks: seq<Key>, l: seq<Pair>)
    requires ops != [] && ops[|ops| - 1].k == k && k !in ks && LastPut(ops, k) == Some(v)
    requires Reflects(ops[..|ops| - 1], ks, l)
    ensures Reflects(ops, [k] + ks, [Pair(k, v)] + l)
  {
    var ks', l' := [k] + ks, [Pair(k, v)] + l;
    forall i | 0 <= i < |ks'| ensures l'[i].key == ks'[i] && LastPut(ops, ks'[i]) == Some(l'[i].state) {
      if i > 0 {
        assert ks'[i] == ks[i - 1] && l'[i] == l[i - 1] && ks[i - 1] in ks;
      }
    }
  }

  lemma Hit(capacity: nat, ops: seq<Op>, r: seq<Key>, l: seq<Pair>, i: nat)
    requires capacity >= 1 && ops != [] && Distinct(r)
    requires var before := ops[..|ops| - 1];
             r == Recent(capacity, before) && l == Run(capacity, before) && Reflects(before, Take(capacity, r), l)
    requires i < |l| == |Take(capacity, r)| && Take(capacity, r)[i] == ops[|ops| - 1].k
    ensures Reflects(ops, Take(capacity, Recent(capacity, ops)), Run(capacity, ops))
  {
    hide Reflects;
    var op := ops[|ops| - 1];
    var k, ks := op.k, Take(capacity, r);
    HitKeys(capacity, ops, r, i);
    HitPlaces(ops[..|ops| - 1], ks, l, i);
    LookupAt(l, i);
    var v := if op.Put? then op.v else l[i].state;
    assert Run(capacity, ops) == [Pair(k, v)] + (l[..i] + l[i + 1..]);
    hide Run, Recent;
    InFront(ops, k, v, ks[..i] + ks[i + 1..], l[..i] + l[i + 1..]);
  }

  lemma HitKeys(capacity: nat, ops: seq<Op>, r: seq<Key>, i: nat)
    requires capacity >= 1 && ops != [] && Distinct(r) && r == Recent(capacity, ops[..|ops| - 1])
    requires i < |Take(capacity, r)| && Take(capacity, r)[i] == ops[|ops| - 1].k
    ensures var ks := Take(capacity, r);
            && Take(capacity, Recent(capacity, ops)) == [ks[i]] + (ks[..i] + ks[i + 1..])
            && ks[i] !in ks[..i] + ks[i + 1..]
  {
    var ks := Take(capacity, r);
    var k := ks[i];
    assert k in ks && k in r && Recent(capacity, ops) == [k] + Minus(r, k);
    hide Recent;
    var n := |ks|;
    assert ks == r[..n];
    MinusPrefix(n, r, k);
    MinusFacts(r, k);
    MinusAt(ks, i);
    assert |Minus(r, k)| == |r| - 1;
    assert ([k] + Minus(r, k))[..n] == [k] + Minus(r, k)[..n - 1];
  }

  lemma HitPlaces(before: seq<Op>, ks: seq<Key>, l: seq<Pair>, i: nat)
    requires i < |ks| && Distinct(ks) && Reflects(before, ks, l)
    ensures Reflects(before, ks[..i] + ks[i + 1..], l[..i] + l[i + 1..])
    ensures l[i].key == ks[i] && LastPut(before, ks[i]) == Some(l[i].state)
    ensures forall j | 0 <= j < i :: l[j].key != l[i].key
  {
    hide LastPut;
  }

  lemma {:induction false} MinusAt(ks: seq<Key>, i: nat)
    requires i < |ks| && Distinct(ks)
    ensures Minus(ks, ks[i]) == ks[..i] + ks[i + 1..]
  {
    if i == 0 {
      assert ks[..0] + ks[1..] == ks[1..];
    } else {
      MinusAt(ks[1..], i - 1);
      assert ks[1..][..i - 1] == ks[1..i] && ks[1..][i..] == ks[i + 1..];
      assert [ks[0]] + (ks[1..i] + ks[i + 1..]) == ks[..i] + ks[i + 1..];
    }
  }

  lemma Miss(capacity: nat, ops: seq<Op>, r: seq<Key>, l: seq<Pair>)
    requires capacity >= 1 && ops != [] && Distinct(r)
    requires var before := ops[..|ops| - 1];
             r == Recent(capacity, before) && l == Run(capacity, before) && Reflects(before, Take(capacity, r), l)
    requires ops[|ops| - 1].k !in Take(capacity, r)
    ensures Reflects(ops, Take(capacity, Recent(capacity, ops)), Run(capacity, ops))
  {
    var op := ops[|ops| - 1];
    var k, ks := op.k, Take(capacity, r);
    NotAmong(ops[..|ops| - 1], ks, l, k);
    if op.Put? {
      MissKeys(capacity, ops, r);
      assert Run(capacity, ops) == [Pair(k, op.v)] + if |l| < capacity then l else l[..|l| - 1];
      hide Run, Recent;
      if |l| < capacity {
        InFront(ops, k, op.v, ks, l);
      } else {
        FirstPlaces(ops[..|ops| - 1], ks, l, |ks| - 1);
        InFront(ops, k, op.v, ks[..|ks| - 1], l[..|l| - 1]);
      }
    }
  }

  lemma NotAmong(before: seq<Op>, ks: seq<Key>, l: seq<Pair>, k: Key)
    requires k !in ks && Reflects(before, ks, l)
    ensures Lookup(l, k) == None
  {
    LookupNone(l, k);
    hide LastPut;
    forall p | p in l ensures p.key != k {
      var i :| 0 <= i < |l| && l[i] == p;
      assert ks[i] in ks;
    }
  }

  lemma FirstPlaces(before: seq<Op>, ks: seq<Key>, l: seq<Pair>, n: nat)
    requires n <= |ks| && Reflects(before, ks, l)
    ensures Reflects(before, ks[..n], l[..n])
  {
    hide LastPut;
  }

  lemma MissKeys(capacity: nat, ops: seq<Op>, r: seq<Key>)
    requires capacity >= 1 && ops != [] && Distinct(r) && r == Recent(capacity, ops[..|ops| - 1])
    requires ops[|ops| - 1].Put? && ops[|ops| - 1].k !in Take(capacity, r)
    ensures var ks, k := Take(capacity, r), ops[|ops| - 1].k;
            Take(capacity, Recent(capacity, ops)) == [k] + if |ks| < capacity then ks else ks[..|ks| - 1]
  {
    var ks, k := Take(capacity, r), ops[|ops| - 1].k;
    assert Recent(capacity, ops) == [k] + Minus(r, k);
    hide Recent;
    if |ks| < capacity {
      MinusNone(r, k);
    } else {
      MinusPrefix(capacity, r, k);
      MinusFacts(r, k);
      assert ([k] + Minus(r, k))[..capacity] == [k] + Minus(r, k)[..capacity - 1];
    }
  }

  /** What Get finds: the latest Put, exactly for the keys among the `capacity` most recently used. */
  lemma GetFinds(capacity: nat, ops: seq<Op>, k: Key)
    requires capacity >= 1
    ensures Lookup(Run(capacity, ops), k) == if k in Take(capacity, Recent(capacity, ops)) then LastPut(ops, k)
            else None
  {
    HoldsMostRecent(capacity, ops);
    RecentDistinct(capacity, ops);
    var ks, l := Take(capacity, Recent(capacity, ops)), Run(capacity, ops);
    hide Run, Recent, LastPut;
    LookupNone(l, k);
    if k in ks {
      var i :| 0 <= i < |ks| && ks[i] == k;
      LookupAt(l, i);
    } else {
      forall p | p in l ensures p.key != k {
        var i :| 0 <= i < |l| && l[i] == p;
        assert ks[i] in ks;
      }
    }
  }
}
