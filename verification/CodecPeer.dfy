/** The other end of a console connection: what it makes of the bytes that are sent to it, and what it answers. */
module CodecPeer {
  import opened Bytes
  import opened Codec

  predicate Octal(b: byte) { 0x30 <= b <= 0x37 }

  /** An octal number of three digits. */
  function Value(a: byte, b: byte, c: byte): int {
    64 * (a - 0x30) + 8 * (b - 0x30) + (c - 0x30)
  }

  function Then(b: byte, rest: Option<seq<byte>>): Option<seq<byte>> {
    match rest
    case None => None
    case Some(s) => Some([b] + s)
  }

  /**
   What reaches the device: 0x05 'c' '\' and three octal digits stand for one byte, two bytes 0xff for one of
   them, any other byte for itself.
   */
  function Reaches(s: seq<byte>): Option<seq<byte>>
    decreases |s|
  {
    if s == [] then Some([])
    else if s[0] == 0x05 then
      if |s| < 6 || s[1] != 0x63 || s[2] != 0x5C || !Octal(s[3]) || !Octal(s[4]) || !Octal(s[5]) then None
      else if !(0 <= Value(s[3], s[4], s[5]) < 256) then None
      else Then(Value(s[3], s[4], s[5]), Reaches(s[6..]))
    else if s[0] == 0xFF then
      if |s| < 2 || s[1] != 0xFF then None else Then(0xFF, Reaches(s[2..]))
    else Then(s[0], Reaches(s[1..]))
  }

  lemma {:induction false} EncodedFront(b: byte, rest: seq<byte>)
    ensures Encoded([b] + rest) == Quoted(b) + Encoded(rest)
    decreases |rest|
  {
    hide Quoted;
    var s := [b] + rest;
    if rest == [] {
      assert s == [b] && s[..0] == [] && [] + Quoted(b) == Quoted(b) == Quoted(b) + [];
    } else {
      var init, last := rest[..|rest| - 1], rest[|rest| - 1];
      assert s[..|s| - 1] == [b] + init && s[|s| - 1] == last;
      EncodedFront(b, init);
      assert Quoted(b) + Encoded(init) + Quoted(last) == Quoted(b) + (Encoded(init) + Quoted(last));
    }
  }

  /** Whatever the data, it reaches the device as it is. */
  lemma {:induction false} EncodedReaches(data: seq<byte>)
    ensures Reaches(Encoded(data)) == Some(data)
    decreases |data|
  {
    hide Encoded;
    if data == [] {
      NothingEncoded();
    } else {
      var b, rest := data[0], data[1..];
      assert data == [b] + rest;
      EncodedFront(b, rest);
      EncodedReaches(rest);
      QuotedReaches(b, Encoded(rest));
    }
  }

  lemma NothingEncoded()
    ensures Encoded([]) == []
  {
  }

  lemma QuotedReaches(b: byte, rest: seq<byte>)
    ensures Reaches(Quoted(b) + rest) == Then(b, Reaches(rest))
  {
    var s := Quoted(b) + rest;
    assert s[|Quoted(b)|..] == rest;
  }

  /** The answer to a quoted byte, as it is printed. */
  const ANSWER := "[quote \\005]"

  /** This is the text that is taken for an acknowledgement, and the filter takes it out. */
  lemma AnswerTaken(rest: seq<byte>)
    ensures |ANSWER| == |Ack()| && forall i | 0 <= i < |ANSWER| :: ANSWER[i] as int == Ack()[i]
    ensures Scan(1, Ack() + rest) == Filtered(rest, 0, [])
  {
    var s := Ack() + rest;
    assert AckAt(s, 0) && Find(s) == Some(0) && s[|Ack()|..] == rest && s[..0] == [] && [] + rest == rest;
    assert Scan(0, rest) == Filtered(rest, 0, []);
  }
}
