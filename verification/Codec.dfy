/**
 The conserver data codec of cmd/gconsolecheck/codec.go: quoting of outgoing
 bytes, removal of quote acknowledgements and decoding of 0xff commands.

 `Scan` and `Decode` say what one delivery of bytes does; CodecLaws shows that
 the way the network cuts the stream does not matter.
 */
module Codec {
  import opened Bytes

  const ATTENTION: byte := 0x05
  const COMMAND: byte := 0xFF

  /** "[quote \005]" */
  function Ack(): (s: seq<byte>)
    ensures |s| == 12
  {
    [0x5B, 0x71, 0x75, 0x6F, 0x74, 0x65, 0x20, 0x5C, 0x30, 0x30, 0x35, 0x5D]
  }

  // ----- Outgoing data

  function Quoted(b: byte): seq<byte> {
    if b == ATTENTION then [ATTENTION, 0x63, 0x5C, 0x30, 0x30, 0x35]
    else if b == COMMAND then [COMMAND, COMMAND]
    else [b]
  }

  function Encoded(data: seq<byte>): seq<byte> {
    if data == [] then [] else Encoded(data[..|data| - 1]) + Quoted(data[|data| - 1])
  }

  method EncodeConserverData(data: seq<byte>) returns (encoded: seq<byte>)
    ensures encoded == Encoded(data)
  {
    encoded := [];
    for i := 0 to |data|
      invariant encoded == Encoded(data[..i])
    {
      assert data[..i + 1][..i] == data[..i];
      encoded := encoded + Quoted(data[i]);
    }
    assert data[..|data|] == data;
  }

  // ----- Acknowledgements

  predicate AckAt(s: seq<byte>, i: nat) {
    i + |Ack()| <= |s| && forall k | 0 <= k < |Ack()| :: s[i + k] == Ack()[k]
  }

  /** bytes.Index: where the leftmost acknowledgement starts. */
  function Find(s: seq<byte>): (i: Option<nat>)
    ensures i.Some? ==> i.value + |Ack()| <= |s|
  {
    if |s| < |Ack()| then None
    else if AckAt(s, 0) then Some(0)
    else
      match Find(s[1..])
      case None => None
      case Some(i) => Some(i + 1)
  }

  /** A suffix of `s`, `n` bytes long, is an unfinished acknowledgement. */
  predicate Unfinished(s: seq<byte>, n: nat) {
    n <= |s| && n < |Ack()| && forall k | 0 <= k < n :: s[|s| - n + k] == Ack()[k]
  }

  /** The length of the longest unfinished acknowledgement at the end of `s`. */
  function KeepFrom(s: seq<byte>, limit: nat): (n: nat)
    requires limit < |Ack()| && limit <= |s|
    ensures n <= limit
  {
    if limit == 0 then 0
    else if Unfinished(s, limit) then limit
    else KeepFrom(s, limit - 1)
  }

  function Keep(s: seq<byte>): (n: nat)
    ensures n <= |s| && n < |Ack()|
  {
    KeepFrom(s, if |s| < |Ack()| - 1 then |s| else |Ack()| - 1)
  }

  method QuotePrefixSuffixLen(data: seq<byte>) returns (n: nat)
    ensures n == Keep(data)
  {
    var size: nat := if |data| < |Ack()| - 1 then |data| else |Ack()| - 1;
    while size > 0
      invariant size < |Ack()| && size <= |data|
      invariant Keep(data) == KeepFrom(data, size)
    {
      if Unfinished(data, size) {
        return size;
      }
      size := size - 1;
    }
    return 0;
  }

  /** What a filter hands on, how many acknowledgements it still waits for, and what it holds back. */
  datatype Filtered = Filtered(out: seq<byte>, expected: nat, held: seq<byte>)

  function Scan(expected: nat, buffer: seq<byte>): Filtered
    decreases expected
  {
    if expected == 0 then Filtered(buffer, 0, [])
    else
      match Find(buffer)
      case Some(i) =>
        var f := Scan(expected - 1, buffer[i + |Ack()|..]);
        f.(out := buffer[..i] + f.out)
      case None =>
        var cut := |buffer| - Keep(buffer);
        Filtered(buffer[..cut], expected, buffer[cut..])
  }

  // ----- Commands

  datatype Decoded = Bytes(out: seq<byte>, pending: bool) | Unexpected(command: byte)

  function Decode(pending: bool, data: seq<byte>): Decoded
    decreases data
  {
    if data == [] then Bytes([], pending)
    else if pending then
      if data[0] != COMMAND then Unexpected(data[0]) else Before([COMMAND], Decode(false, data[1..]))
    else if data[0] == COMMAND then Decode(true, data[1..])
    else Before([data[0]], Decode(false, data[1..]))
  }

  function Before(prefix: seq<byte>, d: Decoded): Decoded {
    match d
    case Bytes(out, pending) => Bytes(prefix + out, pending)
    case Unexpected(_) => d
  }

  lemma BeforeTwice(p: seq<byte>, q: seq<byte>, d: Decoded)
    ensures Before(p, Before(q, d)) == Before(p + q, d)
  {
    if d.Bytes? {
      assert p + (q + d.out) == (p + q) + d.out;
    }
  }

  // ----- A session

  /** What has happened on a session: bytes written that need n acknowledgements, or bytes received. */
  datatype Event = Wrote(attentions: nat) | Received(data: seq<byte>)

  datatype State = State(expected: nat, held: seq<byte>, pending: bool)

  const START := State(0, [], false)

  datatype Run = Delivered(out: seq<byte>, state: State) | Broken

  /** Filter and decoder on one delivery of bytes. */
  function Incoming(st: State, data: seq<byte>): Run {
    var f := Scan(st.expected, st.held + data);
    match Decode(st.pending, f.out)
    case Bytes(out, pending) => Delivered(out, State(f.expected, f.held, pending))
    case Unexpected(_) => Broken
  }

  function Step(st: State, e: Event): Run {
    match e
    case Wrote(n) => Delivered([], st.(expected := st.expected + n))
    case Received(data) => Incoming(st, data)
  }

  function Then(r: Run, e: Event): Run {
    match r
    case Broken => Broken
    case Delivered(out, st) =>
      match Step(st, e)
      case Broken => Broken
      case Delivered(more, next) => Delivered(out + more, next)
  }

  function History(events: seq<Event>): Run {
    if events == [] then Delivered([], START)
    else Then(History(events[..|events| - 1]), events[|events| - 1])
  }

  datatype ReadResult =
    | Read(data: seq<byte>)
    | NegativeSize
    | ReadFailed(partial: seq<byte>)
    | DecodeFailed
    | Outstanding

  /** What the network has still to bring: each ReadSome takes one segment, and fails when none is left. */
  class DataSession {
    var expectedQuotes: nat
    var quoteBuffer: seq<byte>
    var pendingCommand: bool
    var decodedExtra: seq<byte>
    var network: seq<seq<byte>>
    ghost var log: seq<Event>
    ghost var delivered: seq<byte>

    ghost function Current(): State
      reads this
    {
      State(expectedQuotes, quoteBuffer, pendingCommand)
    }

    /** Everything received so far, decoded at once, is what the caller got and what is kept for it. */
    ghost predicate Valid()
      reads this
    {
      && History(log) == Delivered(delivered + decodedExtra, Current())
      && (quoteBuffer != [] ==> expectedQuotes > 0)
    }

    constructor (network: seq<seq<byte>>)
      ensures Valid() && this.network == network && log == [] && delivered == []
    {
      this.network := network;
      expectedQuotes, quoteBuffer, pendingCommand, decodedExtra := 0, [], false, [];
      log, delivered := [], [];
    }

    method FilterQuoteResponses(data: seq<byte>) returns (result: seq<byte>)
      requires quoteBuffer != [] ==> expectedQuotes > 0
      modifies this`expectedQuotes, this`quoteBuffer
      ensures Scan(old(expectedQuotes), old(quoteBuffer) + data) == Filtered(result, expectedQuotes, quoteBuffer)
      ensures quoteBuffer != [] ==> expectedQuotes > 0
    {
      hide Find, Keep, Ack;
      if expectedQuotes == 0 && |quoteBuffer| == 0 {
        assert old(quoteBuffer) + data == data;
        return data;
      }
      quoteBuffer := quoteBuffer + data;
      ghost var whole := Scan(expectedQuotes, quoteBuffer);
      result := [];
      while expectedQuotes > 0
        invariant var f := Scan(expectedQuotes, quoteBuffer); whole == f.(out := result + f.out)
      {
        var index := Find(quoteBuffer);
        match index {
          case Some(i) =>
            ghost var f := Scan(expectedQuotes - 1, quoteBuffer[i + |Ack()|..]);
            assert result + (quoteBuffer[..i] + f.out) == (result + quoteBuffer[..i]) + f.out;
            result := result + quoteBuffer[..i];
            quoteBuffer := quoteBuffer[i + |Ack()|..];
            expectedQuotes := expectedQuotes - 1;
          case None =>
            var keep := QuotePrefixSuffixLen(quoteBuffer);
            result := result + quoteBuffer[..|quoteBuffer| - keep];
            quoteBuffer := quoteBuffer[|quoteBuffer| - keep..];
            return result;
        }
      }
      result := result + quoteBuffer;
      quoteBuffer := [];
    }

    method DecodeCommands(data: seq<byte>) returns (r: Option<seq<byte>>)
      modifies this`pendingCommand
      ensures match Decode(old(pendingCommand), data)
              case Bytes(out, pending) => r == Some(out) && pendingCommand == pending
              case Unexpected(_) => r == None
    {
      var decoded := [];
      ghost var whole := Decode(pendingCommand, data);
      for i := 0 to |data|
        invariant whole == Before(decoded, Decode(pendingCommand, data[i..]))
      {
        var value := data[i];
        assert data[i..][1..] == data[i + 1..];
        ghost var before := decoded;
        if pendingCommand {
          pendingCommand := false;
          if value != COMMAND {
            return None;
          }
          decoded := decoded + [COMMAND];
          BeforeTwice(before, [COMMAND], Decode(false, data[i + 1..]));
        } else if value == COMMAND {
          pendingCommand := true;
        } else {
          decoded := decoded + [value];
          BeforeTwice(before, [value], Decode(false, data[i + 1..]));
        }
      }
      assert data[|data|..] == [] && decoded + [] == decoded;
      return Some(decoded);
    }

    method DecodeIncoming(data: seq<byte>) returns (r: Option<seq<byte>>)
      requires quoteBuffer != [] ==> expectedQuotes > 0
      modifies this`expectedQuotes, this`quoteBuffer, this`pendingCommand
      ensures match Incoming(old(Current()), data)
              case Delivered(out, next) => r == Some(out) && Current() == next
              case Broken => r == None
      ensures quoteBuffer != [] ==> expectedQuotes > 0
    {
      var filtered := FilterQuoteResponses(data);
      r := DecodeCommands(filtered);
    }

    /** The bytes to put on the wire. */
    method WriteData(data: seq<byte>) returns (wire: seq<byte>)
      requires Valid()
      modifies this`expectedQuotes, this`log
      ensures Valid() && log == old(log) + [Wrote(Count(data, ATTENTION))]
      ensures wire == Encoded(data)
    {
      hide History, Count;
      HistoryWrote(log, Count(data, ATTENTION));
      expectedQuotes := expectedQuotes + Count(data, ATTENTION);
      log := log + [Wrote(Count(data, ATTENTION))];
      wire := EncodeConserverData(data);
    }

    /** One delivery of bytes: the log grows, and `r` is what it adds to the decoded stream. */
    method Receive(data: seq<byte>) returns (r: Option<seq<byte>>)
      requires Valid()
      modifies this`expectedQuotes, this`quoteBuffer, this`pendingCommand, this`log
      ensures log == old(log) + [Received(data)]
      ensures r == None ==> History(log) == Broken
      ensures r.Some? ==> History(log) == Delivered(old(delivered + decodedExtra) + r.value, Current())
      ensures quoteBuffer != [] ==> expectedQuotes > 0
    {
      hide Incoming;
      log := log + [Received(data)];
      assert log[..|log| - 1] == old(log);
      r := DecodeIncoming(data);
    }

    /** The next segment, as far as it fits; the rest of it is kept. */
    method ReadSegment(remaining: nat) returns (r: Option<seq<byte>>)
      requires Valid() && network != [] && decodedExtra == [] && remaining > 0
      modifies this
      ensures network == old(network)[1..] && log == old(log) + [Received(old(network)[0])]
      ensures r == None ==> History(log) == Broken
      ensures r.Some? ==> Valid() && |r.value| <= remaining && delivered == old(delivered) + r.value
      ensures r.Some? && |r.value| < remaining ==> decodedExtra == []
    {
      hide History;
      var readData := network[0];
      network := network[1..];
      var decoded := Receive(readData);
      if decoded == None {
        return None;
      }
      var use := if remaining < |decoded.value| then remaining else |decoded.value|;
      r := Some(decoded.value[..use]);
      assert decoded.value == decoded.value[..use] + decoded.value[use..];
      assert old(delivered + decodedExtra) + decoded.value == (delivered + decoded.value[..use]) + decoded.value[use..];
      delivered := delivered + decoded.value[..use];
      decodedExtra := decodedExtra + decoded.value[use..];
    }

    /** The head of what earlier calls left over. */
    method TakeExtra(size: nat) returns (result: seq<byte>)
      requires Valid()
      modifies this`decodedExtra, this`delivered
      ensures Valid() && |result| <= size && delivered == old(delivered) + result
      ensures |result| < size ==> decodedExtra == []
    {
      hide History;
      result := [];
      if |decodedExtra| > 0 {
        var use := if size < |decodedExtra| then size else |decodedExtra|;
        result := result + decodedExtra[..use];
        delivered := delivered + decodedExtra[..use];
        assert delivered + decodedExtra[use..] == old(delivered + decodedExtra);
        decodedExtra := decodedExtra[use..];
      }
    }

    /** `taken` is what the call took off the network. */
    method ReadData(size: int) returns (r: ReadResult, ghost taken: seq<seq<byte>>)
      requires Valid()
      modifies this
      ensures size < 0 <==> r == NegativeSize
      ensures r.Read? ==> |r.data| == size && Valid() && delivered == old(delivered) + r.data
      ensures r.ReadFailed? ==>
                |r.partial| < size && network == [] && Valid() && delivered == old(delivered) + r.partial
      ensures r == DecodeFailed ==> History(log) == Broken
      ensures r != Outstanding
      ensures old(network) == taken + network && log == old(log) + Arrivals(taken)
    {
      hide History, Valid;
      taken := [];
      if size < 0 {
        return NegativeSize, taken;
      }
      var result := TakeExtra(size);
      while |result| < size
        invariant |result| <= size && Valid() && delivered == old(delivered) + result
        invariant |result| < size ==> decodedExtra == []
        invariant old(network) == taken + network && log == old(log) + Arrivals(taken)
        decreases |network|
      {
        if network == [] {
          return ReadFailed(result), taken;
        }
        ArrivalsAppend(taken, network[0]);
        assert network == [network[0]] + network[1..];
        taken := taken + [network[0]];
        var decoded := ReadSegment(size - |result|);
        if decoded == None {
          return DecodeFailed, taken;
        }
        assert old(delivered) + (result + decoded.value) == old(delivered) + result + decoded.value;
        result := result + decoded.value;
      }
      return Read(result), taken;
    }

    /** Takes what arrived in a quiet window; `window` is what the stream had buffered. */
    method ReadAvailable(window: seq<byte>) returns (r: ReadResult)
      requires Valid()
      modifies this
      ensures log == old(log) + [Received(window)] && network == old(network)
      ensures r.Read? ==> Valid() && decodedExtra == [] && delivered == old(delivered) + r.data
      ensures r.Read? ==> History(log) == Delivered(delivered, START)
      ensures r == DecodeFailed <==> History(log) == Broken
      ensures r == Outstanding <==> History(log).Delivered? && History(log).state != START
      ensures r.Read? || r == DecodeFailed || r == Outstanding
    {
      hide History;
      var result := decodedExtra;
      var decoded := Receive(window);
      decodedExtra := [];
      if decoded == None {
        return DecodeFailed;
      }
      result := result + decoded.value;
      assert delivered + result == old(delivered + decodedExtra) + decoded.value;
      delivered := delivered + result;
      assert delivered + decodedExtra == delivered;
      if expectedQuotes != 0 || pendingCommand {
        return Outstanding;
      }
      return Read(result);
    }
  }

  lemma HistoryWrote(events: seq<Event>, n: nat)
    requires History(events).Delivered?
    ensures var h := History(events);
            History(events + [Wrote(n)]) == h.(state := h.state.(expected := h.state.expected + n))
  {
    assert (events + [Wrote(n)])[..|events|] == events;
    assert History(events).out + [] == History(events).out;
  }

  function Arrivals(segments: seq<seq<byte>>): seq<Event> {
    if segments == [] then [] else Arrivals(segments[..|segments| - 1]) + [Received(segments[|segments| - 1])]
  }

  lemma ArrivalsAppend(segments: seq<seq<byte>>, last: seq<byte>)
    ensures Arrivals(segments + [last]) == Arrivals(segments) + [Received(last)]
  {
    assert (segments + [last])[..|segments|] == segments;
  }
}
