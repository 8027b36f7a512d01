/** The conserver codec does not depend on how the stream is cut, and undoes its own encoding. */
module CodecLaws {
  import opened Bytes
  import opened Codec

  // ----- Searching

  lemma AckAtSame(s: seq<byte>, i: nat, t: seq<byte>, j: nat)
    requires i + |Ack()| <= |s| && j + |Ack()| <= |t|
    requires s[i..i + |Ack()|] == t[j..j + |Ack()|]
    ensures AckAt(s, i) <==> AckAt(t, j)
  {
    hide Ack;
    forall k | 0 <= k < |Ack()| ensures s[i + k] == Ack()[k] <==> t[j + k] == Ack()[k] {
      assert s[i + k] == s[i..i + |Ack()|][k] && t[j + k] == t[j..j + |Ack()|][k];
    }
  }

  lemma TailPlaces(s: seq<byte>, cut: nat, j: nat)
    requires cut <= |s|
    ensures AckAt(s, cut + j) <==> AckAt(s[cut..], j)
  {
    hide Ack;
    if j + |Ack()| <= |s[cut..]| {
      assert s[cut..][j..j + |Ack()|] == s[cut + j..cut + j + |Ack()|];
      AckAtSame(s, cut + j, s[cut..], j);
    }
  }

  /** Find is exact: the leftmost place, or there is none. */
  lemma {:induction false} FindSound(s: seq<byte>, j: nat)
    ensures Find(s).Some? ==> AckAt(s, Find(s).value)
    ensures AckAt(s, j) ==> Find(s).Some? && Find(s).value <= j
    decreases s
  {
    hide Ack;
    if |s| >= |Ack()| && !AckAt(s, 0) {
      FindSound(s[1..], if j == 0 then 0 else j - 1);
      if Find(s).Some? {
        TailPlaces(s, 1, Find(s).value - 1);
      }
      if AckAt(s, j) {
        TailPlaces(s, 1, j - 1);
      }
    }
  }

  lemma FindIs(s: seq<byte>, i: nat)
    requires AckAt(s, i) && forall j: nat | j < i :: !AckAt(s, j)
    ensures Find(s) == Some(i)
  {
    hide Find, AckAt;
    FindSound(s, i);
  }

  lemma {:induction false} KeepFromSound(s: seq<byte>, limit: nat, m: nat)
    requires limit < |Ack()| && limit <= |s|
    ensures Unfinished(s, KeepFrom(s, limit))
    ensures m <= limit && Unfinished(s, m) ==> m <= KeepFrom(s, limit)
    decreases limit
  {
    hide Ack;
    if limit > 0 && !Unfinished(s, limit) {
      KeepFromSound(s, limit - 1, m);
    }
  }

  /** Keep is exact: the longest unfinished acknowledgement. */
  lemma KeepSound(s: seq<byte>, m: nat)
    ensures Unfinished(s, Keep(s))
    ensures Unfinished(s, m) ==> m <= Keep(s)
  {
    hide Ack;
    KeepFromSound(s, if |s| < |Ack()| - 1 then |s| else |Ack()| - 1, m);
  }

  lemma KeepIs(s: seq<byte>, n: nat)
    requires Unfinished(s, n) && forall m: nat | m > n :: !Unfinished(s, m)
    ensures Keep(s) == n
  {
    hide Keep, Unfinished;
    KeepSound(s, n);
  }

  lemma FindPrefix(a: seq<byte>, b: seq<byte>)
    requires Find(a).Some?
    ensures Find(a + b) == Find(a)
  {
    hide Ack, Find, AckAt;
    var i := Find(a).value;
    FindSound(a, i);
    AckAtSame(a + b, i, a, i);
    forall j: nat | j < i ensures !AckAt(a + b, j) {
      FindSound(a, j);
      AckAtSame(a + b, j, a, j);
    }
    FindIs(a + b, i);
  }

  /** What an unsuccessful scan does not hold back can start no acknowledgement, whatever follows. */
  lemma NoneBefore(a: seq<byte>, b: seq<byte>, j: nat)
    requires Find(a) == None && j < |a| - Keep(a)
    ensures !AckAt(a + b, j)
  {
    hide Ack, Find, Keep;
    if j + |Ack()| <= |a| {
      FindSound(a, j);
      AckAtSame(a + b, j, a, j);
    } else {
      KeepSound(a, |a| - j);
    }
  }

  lemma FindInTail(s: seq<byte>, cut: nat)
    requires cut <= |s| && forall j: nat | j < cut :: !AckAt(s, j)
    ensures Find(s) == if Find(s[cut..]) == None then None else Some(cut + Find(s[cut..]).value)
  {
    hide Ack, Find, AckAt;
    var tail := s[cut..];
    if Find(tail).Some? {
      var i := Find(tail).value;
      FindSound(tail, i);
      TailPlaces(s, cut, i);
      forall j: nat | j < cut + i ensures !AckAt(s, j) {
        if j >= cut {
          TailPlaces(s, cut, j - cut);
          FindSound(tail, j - cut);
        }
      }
      FindIs(s, cut + i);
    } else if Find(s).Some? {
      var j := Find(s).value;
      FindSound(s, j);
      TailPlaces(s, cut, j - cut);
      FindSound(tail, j - cut);
    }
  }

  lemma FindHeld(a: seq<byte>, b: seq<byte>)
    requires Find(a) == None
    ensures var cut := |a| - Keep(a);
            var tail := (a + b)[cut..];
            Find(a + b) == if Find(tail) == None then None else Some(cut + Find(tail).value)
  {
    hide Ack, Find, Keep, AckAt;
    var cut := |a| - Keep(a);
    forall j: nat | j < cut ensures !AckAt(a + b, j) {
      NoneBefore(a, b, j);
    }
    FindInTail(a + b, cut);
  }

  lemma KeepInTail(s: seq<byte>, cut: nat)
    requires cut <= |s| && forall m | m > |s| - cut :: !Unfinished(s, m)
    ensures Keep(s) == Keep(s[cut..])
  {
    hide Ack, Keep;
    var tail := s[cut..];
    KeepSound(tail, Keep(tail));
    assert Unfinished(s, Keep(tail));
    forall m: nat | m > Keep(tail) ensures !Unfinished(s, m) {
      if Unfinished(s, m) {
        assert Unfinished(tail, m);
        KeepSound(tail, m);
      }
    }
    KeepIs(s, Keep(tail));
  }

  lemma KeepHeld(a: seq<byte>, b: seq<byte>)
    ensures Keep(a + b) == Keep((a + b)[|a| - Keep(a)..])
  {
    hide Ack, Keep;
    var cut := |a| - Keep(a);
    forall m: nat | m > |a + b| - cut ensures !Unfinished(a + b, m) {
      if Unfinished(a + b, m) {
        assert Unfinished(a, m - |b|);
        KeepSound(a, m - |b|);
      }
    }
    KeepInTail(a + b, cut);
  }

  // ----- Acknowledgement removal

  /** The stream without its first `n` leftmost, non-overlapping acknowledgements. */
  function Removed(n: nat, s: seq<byte>): seq<byte>
    decreases n
  {
    if n == 0 then s
    else
      match Find(s)
      case None => s
      case Some(i) => s[..i] + Removed(n - 1, s[i + |Ack()|..])
  }

  lemma {:induction false} ScanRemoves(n: nat, s: seq<byte>)
    ensures var f := Scan(n, s); f.out + f.held == Removed(n, s)
    ensures var f := Scan(n, s); Unfinished(f.held, |f.held|) && (f.held != [] ==> f.expected > 0)
    decreases n
  {
    hide Keep, Find, Ack;
    if n > 0 {
      match Find(s) {
        case Some(i) =>
          var f := Scan(n - 1, s[i + |Ack()|..]);
          ScanRemoves(n - 1, s[i + |Ack()|..]);
          assert (s[..i] + f.out) + f.held == s[..i] + (f.out + f.held);
        case None =>
          var cut := |s| - Keep(s);
          assert s[..cut] + s[cut..] == s;
          KeepSound(s, 0);
      }
    }
  }

  lemma ScanDone(s: seq<byte>)
    ensures Scan(0, s) == Filtered(s, 0, [])
  {
  }

  lemma ScanSome(n: nat, s: seq<byte>)
    requires n > 0 && Find(s).Some?
    ensures var i := Find(s).value;
            var f := Scan(n - 1, s[i + |Ack()|..]);
            Scan(n, s) == f.(out := s[..i] + f.out)
  {
    hide Keep, Find, Ack;
  }

  lemma ScanNone(n: nat, s: seq<byte>)
    requires n > 0 && Find(s) == None
    ensures var cut := |s| - Keep(s); Scan(n, s) == Filtered(s[..cut], n, s[cut..])
  {
    hide Keep, Find, Ack;
  }

  /** Filtering two deliveries one after the other is filtering them joined. */
  lemma {:induction false} ScanTwice(n: nat, a: seq<byte>, b: seq<byte>)
    ensures var f := Scan(n, a);
            var g := Scan(f.expected, f.held + b);
            Scan(n, a + b) == g.(out := f.out + g.out)
    decreases n
  {
    hide Keep, Find, Ack, Scan;
    if n == 0 {
      ScanDone(a);
      ScanDone(a + b);
      ScanDone([] + b);
      assert [] + b == b;
    } else if Find(a).Some? {
      var i := Find(a).value;
      FindPrefix(a, b);
      var rest := a[i + |Ack()|..];
      assert (a + b)[i + |Ack()|..] == rest + b && (a + b)[..i] == a[..i];
      ScanSome(n, a);
      ScanSome(n, a + b);
      ScanTwice(n - 1, rest, b);
      var f := Scan(n - 1, rest);
      var g := Scan(f.expected, f.held + b);
      assert (a[..i] + f.out) + g.out == a[..i] + (f.out + g.out);
    } else {
      ScanNone(n, a);
      ScanHeld(n, a, b);
    }
  }

  lemma ScanHeld(n: nat, a: seq<byte>, b: seq<byte>)
    requires n > 0 && Find(a) == None
    ensures var cut := |a| - Keep(a);
            var g := Scan(n, a[cut..] + b);
            Scan(n, a + b) == g.(out := a[..cut] + g.out)
  {
    hide Keep, Find, Ack, Scan;
    var cut := |a| - Keep(a);
    FindHeld(a, b);
    KeepHeld(a, b);
    assert (a + b)[cut..] == a[cut..] + b && (a + b)[..cut] == a[..cut];
    ScanTail(n, a + b, cut);
  }

  lemma ScanTail(n: nat, s: seq<byte>, cut: nat)
    requires n > 0 && cut <= |s|
    requires Find(s) == if Find(s[cut..]) == None then None else Some(cut + Find(s[cut..]).value)
    requires Keep(s) == Keep(s[cut..])
    ensures var g := Scan(n, s[cut..]);
            Scan(n, s) == g.(out := s[..cut] + g.out)
  {
    hide Keep, Find, Ack, Scan;
    var tail := s[cut..];
    if Find(tail).Some? {
      ScanSome(n, tail);
      ScanSome(n, s);
      var i := Find(tail).value;
      var f := Scan(n - 1, tail[i + |Ack()|..]);
      assert s[cut + i + |Ack()|..] == tail[i + |Ack()|..];
      assert s[..cut + i] == s[..cut] + tail[..i];
      assert (s[..cut] + tail[..i]) + f.out == s[..cut] + (tail[..i] + f.out);
    } else {
      ScanNone(n, tail);
      ScanNone(n, s);
      var k := |tail| - Keep(tail);
      assert s[..cut + k] == s[..cut] + tail[..k] && s[cut + k..] == tail[k..];
    }
  }

  // ----- Decoding

  lemma {:induction false} DecodeTwice(pending: bool, a: seq<byte>, b: seq<byte>)
    ensures Decode(pending, a + b) ==
            match Decode(pending, a)
            case Unexpected(c) => Unexpected(c)
            case Bytes(out, p) => Before(out, Decode(p, b))
    decreases a
  {
    if a == [] {
      assert a + b == b;
      if Decode(pending, b).Bytes? {
        assert [] + Decode(pending, b).out == Decode(pending, b).out;
      }
    } else {
      assert (a + b)[1..] == a[1..] + b && (a + b)[0] == a[0];
      var p := !pending && a[0] == COMMAND;
      if !(pending && a[0] != COMMAND) {
        DecodeTwice(p, a[1..], b);
        match Decode(p, a[1..]) {
          case Unexpected(_) =>
          case Bytes(out, q) =>
            BeforeTwice([a[0]], out, Decode(q, b));
        }
      }
    }
  }

  // ----- A session

  /** Receiving two segments one after the other is receiving them joined, errors included. */
  lemma IncomingTwice(st: State, a: seq<byte>, b: seq<byte>)
    ensures Incoming(st, a + b) ==
            match Incoming(st, a)
            case Broken => Broken
            case Delivered(out, mid) =>
              match Incoming(mid, b)
              case Broken => Broken
              case Delivered(more, next) => Delivered(out + more, next)
  {
    hide Scan, Decode;
    ScanTwice(st.expected, st.held + a, b);
    assert (st.held + a) + b == st.held + (a + b);
    var f := Scan(st.expected, st.held + a);
    var g := Scan(f.expected, f.held + b);
    DecodeTwice(st.pending, f.out, g.out);
  }

  /** The history ends in two deliveries. */
  predicate EndsCut(events: seq<Event>) {
    |events| >= 2 && events[|events| - 1].Received? && events[|events| - 2].Received?
  }

  /** Its last two deliveries made one. */
  function Rejoined(events: seq<Event>): seq<Event>
    requires EndsCut(events)
  {
    var k := |events| - 2;
    events[..k] + [Received(events[k].data + events[k + 1].data)]
  }

  /** Two histories that differ only in where the received bytes were cut. */
  ghost predicate SameStream(xs: seq<Event>, ys: seq<Event>)
    decreases |xs| + |ys|
  {
    || xs == ys
    || (EndsCut(ys) && SameStream(xs, Rejoined(ys)))
    || (EndsCut(xs) && SameStream(Rejoined(xs), ys))
    || (xs != [] && ys != [] && xs[|xs| - 1] == ys[|ys| - 1] && SameStream(xs[..|xs| - 1], ys[..|ys| - 1]))
  }

  lemma ThenTwice(r: Run, a: seq<byte>, b: seq<byte>)
    ensures Then(Then(r, Received(a)), Received(b)) == Then(r, Received(a + b))
  {
    hide Incoming;
    if r.Delivered? {
      IncomingTwice(r.state, a, b);
      if Incoming(r.state, a).Delivered? {
        var mid := Incoming(r.state, a);
        if Incoming(mid.state, b).Delivered? {
          assert (r.out + mid.out) + Incoming(mid.state, b).out == r.out + (mid.out + Incoming(mid.state, b).out);
        }
      }
    }
  }

  lemma RejoinKeeps(events: seq<Event>)
    requires EndsCut(events)
    ensures History(Rejoined(events)) == History(events)
  {
    hide Then;
    var k := |events| - 2;
    ThenTwice(History(events[..k]), events[k].data, events[k + 1].data);
    assert events[..k + 1][..k] == events[..k] && Rejoined(events)[..k] == events[..k];
  }

  lemma {:induction false} CutsDoNotMatter(xs: seq<Event>, ys: seq<Event>)
    requires SameStream(xs, ys)
    ensures History(xs) == History(ys)
    decreases |xs| + |ys|
  {
    hide Then;
    if xs == ys {
    } else if EndsCut(ys) && SameStream(xs, Rejoined(ys)) {
      CutsDoNotMatter(xs, Rejoined(ys));
      RejoinKeeps(ys);
    } else if EndsCut(xs) && SameStream(Rejoined(xs), ys) {
      CutsDoNotMatter(Rejoined(xs), ys);
      RejoinKeeps(xs);
    } else {
      CutsDoNotMatter(xs[..|xs| - 1], ys[..|ys| - 1]);
    }
  }

  /** Segments received in a row are one delivery. */
  lemma {:induction false} SegmentsAreOne(events: seq<Event>, first: seq<byte>, segments: seq<seq<byte>>)
    ensures History(events + [Received(first)] + Arrivals(segments)) ==
            Then(History(events), Received(first + Join(segments)))
    decreases segments
  {
    hide Then;
    var all := events + [Received(first)] + Arrivals(segments);
    if segments == [] {
      assert first + Join(segments) == first;
      assert all[..|all| - 1] == events;
    } else {
      var init, last := segments[..|segments| - 1], segments[|segments| - 1];
      SegmentsAreOne(events, first, init);
      assert segments == init + [last];
      JoinAppend(init, [last]);
      assert Join([last]) == last + [] == last;
      assert all[..|all| - 1] == events + [Received(first)] + Arrivals(init);
      ThenTwice(History(events), first + Join(init), last);
      assert (first + Join(init)) + last == first + Join(segments);
    }
  }

  /** The state of a fresh session after `n` attentions were written and the stream came in any pieces. */
  lemma Batch(n: nat, first: seq<byte>, segments: seq<seq<byte>>)
    ensures var s := first + Join(segments);
            var f := Scan(n, s);
            && f.out + f.held == Removed(n, s)
            && History([Wrote(n), Received(first)] + Arrivals(segments)) ==
               match Decode(false, f.out)
               case Bytes(out, pending) => Delivered(out, State(f.expected, f.held, pending))
               case Unexpected(_) => Broken
  {
    hide Scan, Decode;
    var s := first + Join(segments);
    ScanRemoves(n, s);
    SegmentsAreOne([Wrote(n)], first, segments);
    assert [Wrote(n)] + [Received(first)] == [Wrote(n), Received(first)];
    HistoryWrote([], n);
    assert [] + [Wrote(n)] == [Wrote(n)];
    assert [] + s == s;
    if Decode(false, Scan(n, s).out).Bytes? {
      assert [] + Decode(false, Scan(n, s).out).out == Decode(false, Scan(n, s).out).out;
    }
  }

  // ----- Round trips

  /** What a peer that does not interpret attentions would read back. */
  function Visible(data: seq<byte>): seq<byte> {
    if data == [] then []
    else Visible(data[..|data| - 1]) +
         if data[|data| - 1] == 0x05 then [0x05, 0x63, 0x5C, 0x30, 0x30, 0x35] else [data[|data| - 1]]
  }

  lemma {:induction false} DecodeEncoded(data: seq<byte>)
    ensures Decode(false, Encoded(data)) == Bytes(Visible(data), false)
    decreases data
  {
    if data != [] {
      var init, last := data[..|data| - 1], data[|data| - 1];
      DecodeEncoded(init);
      DecodeTwice(false, Encoded(init), Quoted(last));
      DecodeQuoted(last);
    }
  }

  lemma DecodeQuoted(b: byte)
    ensures Decode(false, Quoted(b)) == Bytes(if b == ATTENTION then Quoted(b) else [b], false)
  {
    if b == ATTENTION {
      DecodePlain(Quoted(b));
    } else if b == COMMAND {
      assert Quoted(b)[1..] == [COMMAND] && [COMMAND][1..] == [];
      assert Decode(true, [COMMAND]) == Before([COMMAND], Decode(false, [])) == Bytes([COMMAND] + [], false);
    } else {
      DecodePlain([b]);
    }
  }

  lemma {:induction false} DecodePlain(s: seq<byte>)
    requires COMMAND !in s
    ensures Decode(false, s) == Bytes(s, false)
    decreases s
  {
    if s != [] {
      DecodePlain(s[1..]);
      assert s == [s[0]] + s[1..];
    }
  }

  /** Decoding undoes the doubling of 0xff; encoding is undone as a whole exactly on data without attentions. */
  lemma {:induction false} RoundTrip(data: seq<byte>)
    ensures Decode(false, Encoded(data)) == Bytes(data, false) <==> ATTENTION !in data
  {
    DecodeEncoded(data);
    VisibleLength(data);
  }

  lemma {:induction false} VisibleLength(data: seq<byte>)
    ensures |Visible(data)| == |data| + 5 * Count(data, ATTENTION)
    ensures ATTENTION !in data ==> Visible(data) == data
    ensures ATTENTION in data ==> Count(data, ATTENTION) > 0
    decreases data
  {
    CountZero(data, ATTENTION);
    if data != [] {
      var init, last := data[..|data| - 1], data[|data| - 1];
      assert data == init + [last];
      CountAppend(init, [last], ATTENTION);
      VisibleLength(init);
    }
  }

  /** Pieces of payload with one acknowledgement behind each but the last. */
  function WithAcks(pieces: seq<seq<byte>>): seq<byte>
    requires pieces != []
  {
    if |pieces| == 1 then pieces[0] else pieces[0] + Ack() + WithAcks(pieces[1..])
  }

  /** An acknowledgement overlaps no other: its first byte comes only once. */
  lemma AckHasNoBorder(n: nat)
    requires 0 < n < |Ack()|
    ensures Ack()[n] != Ack()[0]
  {
  }

  lemma FindBeforeAck(p: seq<byte>, rest: seq<byte>)
    requires Find(p) == None
    ensures Find(p + Ack() + rest) == Some(|p|)
  {
    hide Find, Ack;
    var s := p + Ack() + rest;
    assert AckAt(s, |p|);
    forall j: nat | j < |p| ensures !AckAt(s, j) {
      if j + |Ack()| <= |p| {
        FindSound(p, j);
        AckAtSame(s, j, p, j);
      } else {
        assert s[j + (|p| - j)] == Ack()[0];
        AckHasNoBorder(|p| - j);
      }
    }
    FindIs(s, |p|);
  }

  /** Acknowledgements between pieces of payload are taken out and the payload is left as it was. */
  lemma {:induction false} AcksRemoved(pieces: seq<seq<byte>>)
    requires pieces != [] && forall i | 0 <= i < |pieces| - 1 :: Find(pieces[i]) == None
    ensures Removed(|pieces| - 1, WithAcks(pieces)) == Join(pieces)
    decreases pieces
  {
    hide Find, Ack;
    if |pieces| == 1 {
      assert Join(pieces[1..]) == [] && pieces[0] + [] == pieces[0];
    } else {
      var rest := WithAcks(pieces[1..]);
      FindBeforeAck(pieces[0], rest);
      assert WithAcks(pieces) == pieces[0] + Ack() + rest;
      assert (pieces[0] + Ack() + rest)[|pieces[0]| + |Ack()|..] == rest;
      assert (pieces[0] + Ack() + rest)[..|pieces[0]|] == pieces[0];
      forall i | 0 <= i < |pieces[1..]| - 1 ensures Find(pieces[1..][i]) == None {
        assert pieces[1..][i] == pieces[i + 1];
      }
      AcksRemoved(pieces[1..]);
    }
  }
}
