/** NETCONF chunked framing: pkg/device/netconf/device.go, RFC 6242 section 4.2. */
module Netconf {
  import opened Bytes
  import opened Streamer

  const MAX_INT := 0x7fff_ffff_ffff_ffff
  const MAX_BUFFER := 1024 * 1024 * 1024
  const FIRST := 200

  const HASH: byte := 0x23
  const ZERO: byte := 0x30

  // ----- The size line: \n#([1-9]\d*|#)\n within the first 200 bytes

  predicate IsDigit(b: byte) {
    ZERO <= b <= ZERO + 9
  }

  /** Where the digits that begin at `i` end. */
  function DigitsEnd(d: Data, i: nat): (j: nat)
    requires i <= |d|
    ensures i <= j <= |d| && forall k | i <= k < j :: IsDigit(d[k])
    ensures j < |d| ==> !IsDigit(d[j])
    decreases |d| - i
  {
    if i < |d| && IsDigit(d[i]) then DigitsEnd(d, i + 1) else i
  }

  /** The end of a size line that begins at `i`. */
  function MatchAt(d: Data, i: nat): (end: Option<nat>)
    ensures end.Some? ==> i + 4 <= end.value <= |d|
  {
    if i + 4 > |d| || d[i] != LF || d[i + 1] != HASH then None
    else if d[i + 2] == HASH then if d[i + 3] == LF then Some(i + 4) else None
    else if !IsDigit(d[i + 2]) || d[i + 2] == ZERO then None
    else
      var j := DigitsEnd(d, i + 2);
      if j < |d| && d[j] == LF then Some(j + 1) else None
  }

  /** The leftmost size line from `i` on. */
  function Leftmost(d: Data, i: nat): (m: Option<Span>)
    requires i <= |d|
    ensures m.Some? ==> i <= m.value.start && m.value.start + 4 <= m.value.end <= |d|
    ensures m.Some? ==> MatchAt(d, m.value.start) == Some(m.value.end)
    decreases |d| - i
  {
    if i == |d| then None
    else
      match MatchAt(d, i)
      case Some(end) => Some(Span(i, end))
      case None => Leftmost(d, i + 1)
  }

  function SizeExpr(d: Data): (m: Option<Span>)
    ensures m.Some? ==> m.value.start + 4 <= m.value.end <= |d|
  {
    Leftmost(if |d| > FIRST then d[..FIRST] else d, 0)
  }

  lemma {:induction false} DigitsEndGrows(a: Data, b: Data, i: nat)
    requires i <= |a| && DigitsEnd(a, i) < |a|
    ensures DigitsEnd(a + b, i) == DigitsEnd(a, i)
    decreases |a| - i
  {
    if i < |a| && IsDigit(a[i]) {
      DigitsEndGrows(a, b, i + 1);
    }
  }

  /** More bytes do not undo a match. */
  lemma MatchGrows(a: Data, b: Data, i: nat)
    requires MatchAt(a, i).Some?
    ensures MatchAt(a + b, i) == MatchAt(a, i)
  {
    if a[i + 2] != HASH {
      DigitsEndGrows(a, b, i + 2);
    }
  }

  /** Nor do they make a match in front of one: a line feed ends every size. */
  lemma NoneBefore(a: Data, b: Data, i: nat, k: nat)
    requires MatchAt(a, i).Some? && k < i
    ensures MatchAt(a + b, k).Some? ==> MatchAt(a, k) == MatchAt(a + b, k)
  {
    var d := a + b;
    assert d[i] == LF;
    if MatchAt(d, k).Some? && d[k + 2] != HASH {
      assert d[k + 1] == HASH;
      var j := DigitsEnd(d, k + 2);
      assert j <= i by {
        assert !IsDigit(d[i]);
      }
      DigitsAgree(a, b, k + 2, j);
    }
  }

  lemma {:induction false} DigitsAgree(a: Data, b: Data, i: nat, j: nat)
    requires i <= j < |a| && DigitsEnd(a + b, i) == j
    ensures DigitsEnd(a, i) == j
    decreases |a| - i
  {
    if IsDigit(a[i]) {
      DigitsAgree(a, b, i + 1, j);
    }
  }

  lemma {:induction false} LeftmostGrows(a: Data, b: Data, i: nat)
    requires i <= |a| && Leftmost(a, i).Some?
    ensures Leftmost(a + b, i) == Leftmost(a, i)
    decreases |a| - i
  {
    hide MatchAt;
    if MatchAt(a, i).Some? {
      MatchGrows(a, b, i);
    } else {
      var m := Leftmost(a, i + 1).value;
      NoneBefore(a, b, m.start, i);
      LeftmostGrows(a, b, i + 1);
    }
  }

  /** Once a size line has been found, what arrives later does not matter. */
  lemma SizeExprSettled()
    ensures Settled(SizeExpr)
  {
    forall a: Data, b: Data | SizeExpr(a).Some? ensures SizeExpr(a + b) == SizeExpr(a) {
      hide Leftmost;
      if |a| > FIRST {
        assert (a + b)[..FIRST] == a[..FIRST];
      } else {
        var d := a + b;
        var more := if |d| > FIRST then d[|a|..FIRST] else b;
        assert (if |d| > FIRST then d[..FIRST] else d) == a + more;
        LeftmostGrows(a, more, 0);
      }
    }
  }

  // ----- Numbers

  function Number(digits: Data): nat {
    if digits == [] then 0
    else if !IsDigit(digits[|digits| - 1]) then 0
    else Number(digits[..|digits| - 1]) * 10 + (digits[|digits| - 1] - ZERO)
  }

  /** strconv.Itoa */
  function Decimal(n: nat): (s: Data)
    ensures s != [] && forall k | 0 <= k < |s| :: IsDigit(s[k])
    ensures n > 0 ==> s[0] != ZERO
  {
    if n < 10 then [ZERO + n] else Decimal(n / 10) + [ZERO + n % 10]
  }

  lemma {:induction false} DecimalNumber(n: nat)
    ensures Number(Decimal(n)) == n
  {
    if n < 10 {
      assert Decimal(n)[..0] == [];
    } else {
      DecimalNumber(n / 10);
      var s := Decimal(n);
      assert s[..|s| - 1] == Decimal(n / 10);
    }
  }

  function Power(k: nat): nat {
    if k == 0 then 1 else 10 * Power(k - 1)
  }

  lemma {:induction false} DecimalShort(n: nat, k: nat)
    requires k >= 1 && n < Power(k)
    ensures |Decimal(n)| <= k
  {
    if n >= 10 {
      DecimalShort(n / 10, k - 1);
    }
  }

  lemma NineteenDigits()
    ensures MAX_INT < Power(19)
  {
    assert Power(5) == 100000;
    assert Power(10) == 100000 * 100000;
    assert Power(15) == 100000 * 100000 * 100000;
    assert Power(19) == 100000 * 100000 * 100000 * 10000;
  }

  // ----- Reading a message from a stream

  datatype Result = Message(data: Data, rest: Data) | Error

  /** readChunked, as a function of the bytes that follow. */
  function ReadAll(buffer: Data, s: Data): Result
    decreases |s|
  {
    match SizeExpr(s)
    case None => Error
    case Some(m) =>
      var size, rest := s[m.start + 2..m.end - 1], s[m.end..];
      if size == [HASH] then Message(buffer + s[..m.start], rest)
      else if Number(size) > MAX_INT || |rest| < Number(size) || |buffer| > MAX_BUFFER then Error
      else ReadAll(buffer + rest[..Number(size)], rest[Number(size)..])
  }

  /** One chunk as it is sent. */
  function Chunk(c: Data): Data {
    [LF, HASH] + Decimal(|c|) + [LF] + c
  }

  function Chunks(cs: seq<Data>): Data {
    if cs == [] then [LF, HASH, HASH, LF] else Chunk(cs[0]) + Chunks(cs[1..])
  }

  /** The size line of a chunk is found at once, whatever follows. */
  lemma FindsSize(c: Data, rest: Data)
    requires 1 <= |c| <= MAX_INT
    ensures var n := |Decimal(|c|)|;
            var s := [LF, HASH] + Decimal(|c|) + [LF] + rest;
            && SizeExpr(s) == Some(Span(0, n + 3)) && s[2..n + 2] == Decimal(|c|) && s[n + 3..] == rest
  {
    hide Power;
    var digits := Decimal(|c|);
    NineteenDigits();
    DecimalShort(|c|, 19);
    var line := [LF, HASH] + digits + [LF];
    var s := line + rest;
    var head := if |s| > FIRST then s[..FIRST] else s;
    assert line == head[..|line|];
    MatchesLine(digits);
    var more := head[|line|..];
    assert head == line + more;
    MatchGrows(line, more, 0);
    assert s == [LF, HASH] + digits + [LF] + rest;
    assert s[..|digits| + 3] == line && line[2..|digits| + 2] == digits;
  }

  lemma MatchesLine(digits: Data)
    requires digits != [] && digits[0] != ZERO && forall k | 0 <= k < |digits| :: IsDigit(digits[k])
    ensures MatchAt([LF, HASH] + digits + [LF], 0) == Some(|digits| + 3)
  {
    var line := [LF, HASH] + digits + [LF];
    assert line[2] == digits[0];
    DigitsRun(line, 2, |digits| + 2);
  }

  lemma {:induction false} DigitsRun(d: Data, i: nat, j: nat)
    requires i <= j < |d| && (forall k | i <= k < j :: IsDigit(d[k])) && !IsDigit(d[j])
    ensures DigitsEnd(d, i) == j
    decreases j - i
  {
    if i < j {
      DigitsRun(d, i + 1, j);
    }
  }

  lemma FindsEnd(tail: Data)
    ensures SizeExpr([LF, HASH, HASH, LF] + tail) == Some(Span(0, 4))
  {
    var s := [LF, HASH, HASH, LF] + tail;
    var head := if |s| > FIRST then s[..FIRST] else s;
    assert head[0] == LF && head[1] == HASH && head[2] == HASH && head[3] == LF;
    assert MatchAt(head, 0) == Some(4);
  }

  /** The size cap is looked at before a chunk is appended: each chunk but the last must leave the buffer within it. */
  predicate Capped(buffered: nat, cs: seq<Data>)
    decreases |cs|
  {
    cs == [] || (buffered <= MAX_BUFFER && Capped(buffered + |cs[0]|, cs[1..]))
  }

  /** Any chunks, whatever is in them, read back as their payload, exactly as long as the size cap is kept. */
  lemma {:induction false} ReadsChunks(buffer: Data, cs: seq<Data>, tail: Data)
    requires forall c | c in cs :: 1 <= |c| <= MAX_INT
    ensures ReadAll(buffer, Chunks(cs) + tail) == if Capped(|buffer|, cs) then Message(buffer + Join(cs), tail)
            else Error
    decreases |cs|
  {
    hide ReadAll, Chunk;
    if cs == [] {
      EndReads(buffer, tail);
    } else {
      var c, more := cs[0], Chunks(cs[1..]) + tail;
      ChunkReads(buffer, c, more);
      assert Chunks(cs) + tail == Chunk(c) + more;
      if |buffer| <= MAX_BUFFER {
        ReadsChunks(buffer + c, cs[1..], tail);
        assert buffer + c + Join(cs[1..]) == buffer + (c + Join(cs[1..]));
      }
    }
  }

  lemma EndReads(buffer: Data, tail: Data)
    ensures ReadAll(buffer, Chunks([]) + tail) == Message(buffer + Join([]), tail)
  {
    FindsEnd(tail);
    hide SizeExpr;
    var s := [LF, HASH, HASH, LF] + tail;
    assert s[2..3] == [HASH] && s[4..] == tail && s[..0] == [];
  }

  lemma ChunkReads(buffer: Data, c: Data, more: Data)
    requires 1 <= |c| <= MAX_INT
    ensures ReadAll(buffer, Chunk(c) + more) == if |buffer| > MAX_BUFFER then Error else ReadAll(buffer + c, more)
  {
    hide SizeExpr, Number, Decimal, Chunk;
    var s := Chunk(c) + more;
    ChunkShape(c, more);
    FindsSize(c, c + more);
    DecimalNumber(|c|);
    var n := |Decimal(|c|)|;
    assert s[2..n + 2] == Decimal(|c|) != [HASH] && s[n + 3..] == c + more;
    SizeRead(buffer, s, Span(0, n + 3), |c|);
    assert (c + more)[..|c|] == c && (c + more)[|c|..] == more;
  }

  lemma ChunkShape(c: Data, more: Data)
    ensures Chunk(c) + more == [LF, HASH] + Decimal(|c|) + [LF] + (c + more)
    ensures Decimal(|c|) != [HASH]
  {
    hide Decimal;
    Associate([LF, HASH] + Decimal(|c|) + [LF], c, more);
    assert IsDigit(Decimal(|c|)[0]);
  }

  lemma Associate(a: Data, b: Data, c: Data)
    ensures a + b + c == a + (b + c)
  {
  }

  /** One turn of the loop, when the size line is found and tells how much to read. */
  lemma SizeRead(buffer: Data, s: Data, m: Span, n: nat)
    requires SizeExpr(s) == Some(m) && s[m.start + 2..m.end - 1] != [HASH]
    requires Number(s[m.start + 2..m.end - 1]) == n <= MAX_INT && n <= |s[m.end..]|
    ensures ReadAll(buffer, s) ==
            if |buffer| > MAX_BUFFER then Error else ReadAll(buffer + s[m.end..][..n], s[m.end..][n..])
  {
    hide SizeExpr, Number;
  }

  /** What writeChunked sends. */
  function Written(data: Data): Data {
    Chunk(data) + [LF, HASH, HASH, LF]
  }

  /** A message sent is the message read, except that the empty one comes back as the size line it went out with. */
  lemma WriteRead(data: Data, tail: Data)
    requires |data| <= MAX_INT
    ensures ReadAll([], Written(data) + tail) == if data != [] then Message(data, tail)
            else Message([LF, HASH, ZERO, LF], tail)
  {
    if data != [] {
      ReadsChunks([], [data], tail);
      assert Chunks([data]) == Written(data) by {
        assert [data][1..] == [];
      }
      assert Join([data]) == data by {
        JoinOne(data);
      }
      assert [data][1..] == [];
      assert [] + data == data;
    } else {
      EmptyReads(tail);
    }
  }

  lemma EmptyReads(tail: Data)
    ensures ReadAll([], Written([]) + tail) == Message([LF, HASH, ZERO, LF], tail)
  {
    assert Decimal(0) == [ZERO];
    var s := Written([]) + tail;
    assert s == [LF, HASH, ZERO, LF, LF, HASH, HASH, LF] + tail;
    var head := if |s| > FIRST then s[..FIRST] else s;
    assert head[0] == LF && head[1] == HASH && head[2] == ZERO && head[3] == LF;
    assert head[4] == LF && head[5] == HASH && head[6] == HASH && head[7] == LF;
    assert Leftmost(head, 4) == Some(Span(4, 8)) && Leftmost(head, 3) == Leftmost(head, 4)
        && Leftmost(head, 2) == Leftmost(head, 3);
    assert Leftmost(head, 1) == Leftmost(head, 2) && Leftmost(head, 0) == Leftmost(head, 1);
    hide Leftmost;
    assert s[6..7] == [HASH] && s[8..] == tail && s[..4] == [LF, HASH, ZERO, LF];
    assert [] + s[..4] == s[..4];
  }

  // ----- The device

  class Connector {
    var left: Data
    var turns: seq<Turn>
    var sent: seq<Data>

    constructor (turns: seq<Turn>)
      ensures this.left == [] && this.turns == turns && sent == []
    {
      left, this.turns, sent := [], turns, [];
    }

    ghost function Pending(): Data
      reads this
    {
      left + Stream(turns)
    }

    method Write(data: Data)
      modifies this`sent
      ensures sent == old(sent) + [data]
    {
      sent := sent + [data];
    }

    /** ReadTo; anything but a match is an error to the caller. */
    method ReadTo(expr: Data -> Option<Span>) returns (r: Option<(Data, Data)>)
      requires Plain(turns) && Sane(Config(false, 0, 0, Some(expr))) && Settled(expr)
      modifies this`left, this`turns
      ensures Plain(turns)
      ensures match expr(old(Pending()))
              case None => r == None
              case Some(m) =>
                && m.start <= m.end <= |old(Pending())|
                && r == Some((old(Pending())[..m.start], old(Pending())[m.start..m.end]))
                && Pending() == old(Pending())[m.end..]
    {
      hide Run, Settled, Stream, Sane, Outcome.Delivered, Plain;
      var cfg := Config(false, 0, 0, Some(expr));
      ExprReads(cfg, left, turns);
      var o, read, used := GenericReadX(left, turns, cfg);
      StillPlain(turns, used);
      turns := turns[used..];
      left := o.Left();
      r := if o.ByExpr? then Some((o.before, o.matched)) else None;
    }

    /** ReadTo with the size expression: what came before it, and the size; None when the bytes run out. */
    method ReadToSize() returns (r: Option<(Data, Data)>)
      requires Plain(turns)
      modifies this`left, this`turns
      ensures Plain(turns)
      ensures match SizeExpr(old(Pending()))
              case None => r == None
              case Some(m) =>
                && r == Some((old(Pending())[..m.start], old(Pending())[m.start + 2..m.end - 1]))
                && Pending() == old(Pending())[m.end..]
    {
      hide SizeExpr, Settled, Sane, Plain, Pending;
      SizeExprSettled();
      SizeConfigSane();
      ghost var all := Pending();
      var line := ReadTo(SizeExpr);
      if line == None {
        return None;
      }
      var (before, matched) := line.value;
      ghost var m := SizeExpr(all).value;
      Inner(all, m.start, m.end);
      r := Some((before, matched[2..|matched| - 1]));
    }

    method Read(n: nat) returns (r: Option<Data>)
      requires Plain(turns) && n >= 1
      modifies this`left, this`turns
      ensures Plain(turns)
      ensures if |old(Pending())| < n then r == None
              else r == Some(old(Pending())[..n]) && Pending() == old(Pending())[n..]
    {
      hide Run;
      var cfg := Config(false, 0, n, None);
      SizeReads(cfg, left, turns);
      var o, read, used := GenericReadX(left, turns, cfg);
      StillPlain(turns, used);
      turns := turns[used..];
      left := o.Left();
      r := if o.BySize? then Some(o.data) else None;
    }
  }

  lemma SizeConfigSane()
    ensures Sane(Config(false, 0, 0, Some(SizeExpr)))
  {
    hide SizeExpr;
  }

  lemma Inner(s: Data, i: nat, j: nat)
    requires i + 4 <= j <= |s|
    ensures s[i..j][2..|s[i..j]| - 1] == s[i + 2..j - 1]
  {
    var t := s[i..j];
    assert |t| == j - i;
    assert forall k | 2 <= k < |t| :: t[k] == s[i + k];
    assert t[2..|t| - 1] == s[i + 2..j - 1];
  }

  lemma StillPlain(turns: seq<Turn>, n: nat)
    requires Plain(turns) && n <= |turns|
    ensures Plain(turns[n..])
  {
  }

  method WriteChunked(connector: Connector, data: Data)
    modifies connector`sent
    ensures Join(connector.sent) == old(Join(connector.sent)) + Written(data)
  {
    ghost var before := connector.sent;
    connector.Write([LF, HASH] + Decimal(|data|) + [LF]);
    connector.Write(data);
    connector.Write([LF, HASH, HASH, LF]);
    ghost var three := [[LF, HASH] + Decimal(|data|) + [LF], data, [LF, HASH, HASH, LF]];
    assert connector.sent == before + three;
    JoinAppend(before, three);
    JoinThree(three[0], three[1], three[2]);
  }

  lemma JoinThree(a: Data, b: Data, c: Data)
    ensures Join([a, b, c]) == a + b + c
  {
    assert [a, b, c][1..] == [b, c] && [b, c][1..] == [c];
    JoinOne(c);
    assert a + (b + c) == a + b + c;
  }

  /**
   readChunked: whatever the segments in which the bytes arrive, the result is that of `ReadAll` on
   their sequence.
   */
  method ReadChunked(connector: Connector) returns (r: Option<Data>)
    requires Plain(connector.turns)
    modifies connector`left, connector`turns
    ensures match ReadAll([], old(connector.Pending()))
            case Error => r == None
            case Message(data, rest) => r == Some(data) && connector.Pending() == rest && Plain(connector.turns)
  {
    hide SizeExpr, Number, Plain, Connector.Pending;
    var buffer: Data := [];
    while true
      invariant Plain(connector.turns)
      invariant ReadAll([], old(connector.Pending())) == ReadAll(buffer, connector.Pending())
      decreases |connector.Pending()|
    {
      ghost var s := connector.Pending();
      SizeOfLine(s);
      var sizeLine := connector.ReadToSize();
      if sizeLine == None {
        return None;
      }
      var (before, size) := sizeLine.value;
      if size == [HASH] {
        return Some(buffer + before);
      }
      var readSize := Number(size);
      if readSize > MAX_INT {
        return None;
      }
      var chunkData := connector.Read(readSize);
      if chunkData == None {
        return None;
      }
      if |buffer| > MAX_BUFFER {
        return None;
      }
      buffer := buffer + chunkData.value;
    }
  }

  /** The size on a line is an end mark or a positive number. */
  lemma SizeOfLine(s: Data)
    ensures match SizeExpr(s)
            case None => true
            case Some(m) => s[m.start + 2..m.end - 1] == [HASH] || Number(s[m.start + 2..m.end - 1]) >= 1
  {
    var m := SizeExpr(s);
    if m.Some? {
      var head := if |s| > FIRST then s[..FIRST] else s;
      var i, end := m.value.start, m.value.end;
      MatchedSize(head, i);
      assert s[i + 2..end - 1] == head[i + 2..end - 1];
    }
  }

  lemma MatchedSize(d: Data, i: nat)
    requires MatchAt(d, i).Some?
    ensures var size := d[i + 2..MatchAt(d, i).value - 1]; size == [HASH] || Number(size) >= 1
  {
    var size := d[i + 2..MatchAt(d, i).value - 1];
    assert size[0] == d[i + 2];
    if d[i + 2] != HASH {
      assert forall k | 0 <= k < |size| :: size[k] == d[i + 2 + k];
      PositiveNumber(size);
    }
  }

  lemma {:induction false} PositiveNumber(digits: Data)
    requires digits != [] && digits[0] != ZERO && forall k | 0 <= k < |digits| :: IsDigit(digits[k])
    ensures Number(digits) >= 1
  {
    if |digits| > 1 {
      PositiveNumber(digits[..|digits| - 1]);
    }
  }
}
