/**
 Reading records: internal/tls_hack/conn.go, readFromUntil, splitBlock, readRecord and readHandshake.
 The network delivers bytes in segments of its own choosing; records and handshake
 messages come out the same.
 */
module Incoming {
  import opened Bytes
  import opened Padding
  import opened HalfConn
  import opened Record
  import opened Outgoing

  const MAX_HANDSHAKE := 65536
  const CLOSE_NOTIFY: octet := 0
  const LEVEL_WARNING: octet := 1

  /** What of a connection decides how a record is taken. */
  datatype Context = Context(haveVers: bool, vers: nat, handshakeComplete: bool, renegotiates: bool) {
    /** readRecord serves only requests that suit the stage of the connection. */
    predicate Serves(want: octet) {
      if want == HANDSHAKE || want == CHANGE_CIPHER_SPEC then !handshakeComplete
      else want == APPLICATION_DATA && handshakeComplete
    }
  }

  function Word(hi: octet, lo: octet): nat {
    Num(hi) * 256 + Num(lo)
  }

  lemma WordOf(n: nat)
    requires n < 0x1_0000
    ensures Word(Hi(n), Lo(n)) == n
  {
    hide Hi, Lo, Num;
    assert n == n / 256 * 256 + n % 256 && n / 256 < 256;
  }

  /** The checks on a record header; the body is read only if it passes. */
  predicate HeaderPasses(ctx: Context, want: octet, header: seq<octet>)
    requires |header| >= HEADER_LEN
  {
    var typ, vers := header[0], Word(header[1], header[2]);
    && !(want == HANDSHAKE && typ == 0x80)
    && (ctx.haveVers ==> vers == ctx.vers)
    && Word(header[3], header[4]) <= MAX_CIPHERTEXT
    && (!ctx.haveVers ==> (typ == ALERT || typ == want) && vers < 0x1000)
  }

  datatype Verdict = Bad | Drop | Take | Switch

  /** What becomes of a record once it is open. */
  function Judge(ctx: Context, canSwitch: bool, want: octet, typ: octet, data: seq<octet>): Verdict {
    if |data| > MAX_PLAINTEXT then Bad
    else if typ == ALERT then
      if |data| == 2 && data[1] != CLOSE_NOTIFY && data[0] == LEVEL_WARNING then Drop else Bad
    else if typ == CHANGE_CIPHER_SPEC then
      if typ == want && data == [1] && canSwitch then Switch else Bad
    else if typ == APPLICATION_DATA then
      if typ == want then Take else Bad
    else if typ == HANDSHAKE then
      if typ == want || ctx.renegotiates then Take else Bad
    else Bad
  }

  datatype Outcome =
    | Starved
    | Refused
    | Dropped(half: Half, rest: seq<octet>)
    | Got(typ: octet, data: seq<octet>, half: Half, rest: seq<octet>)

  /** The first record of a stream. */
  function First(c: Crypto, h: Half, next: Option<(Cipher, Option<Key>)>, ctx: Context, want: octet,
      s: seq<octet>): Outcome
    requires Sound(c) && h.Valid() && Fits(next)
  {
    if |s| < HEADER_LEN then Starved
    else if !HeaderPasses(ctx, want, s[..HEADER_LEN]) then Refused
    else
      var end := HEADER_LEN + Word(s[3], s[4]);
      if |s| < end then Starved
      else
        match Open(c, h, s[..end])
        case None => Refused
        case Some((data, half)) =>
          Taken(half, next, ctx, want, s[0], data, s[end..])
  }

  function Taken(h: Half, next: Option<(Cipher, Option<Key>)>, ctx: Context, want: octet, typ: octet,
      data: seq<octet>, rest: seq<octet>): (r: Outcome)
    ensures r.Dropped? || r.Got? ==> r.rest == rest
    ensures r.Got? ==> r.typ == typ && r.data == data
  {
    match Judge(ctx, next.Some?, want, typ, data)
    case Bad => Refused
    case Drop => Dropped(h, rest)
    case Take => Got(typ, data, h, rest)
    case Switch => Got(typ, data, Switched(h, next).value, rest)
  }

  lemma FirstKeeps(c: Crypto, h: Half, next: Option<(Cipher, Option<Key>)>, ctx: Context, want: octet, s: seq<octet>)
    requires Sound(c) && h.Valid() && Fits(next)
    ensures var r := First(c, h, next, ctx, want, s);
            r.Dropped? || r.Got? ==> r.half.Valid() && |r.rest| < |s|
  {
    hide Open, HeaderPasses, Word, Sound;
    if |s| >= HEADER_LEN && |s| >= HEADER_LEN + Word(s[3], s[4]) {
      OpenKeepsValid(c, h, s[..HEADER_LEN + Word(s[3], s[4])]);
    }
  }

  lemma {:induction false} CbcDecryptLast(c: Crypto, key: Key, iv: seq<octet>, data: seq<octet>)
    requires |iv| >= 1 && Sound(c)
    ensures |CbcDecrypt(c, key, iv, data).1| == |iv|
    decreases |data|
  {
    if |data| >= |iv| {
      CbcDecryptLast(c, key, data[..|iv|], data[|iv|..]);
    }
  }

  lemma OpenKeepsValid(c: Crypto, h: Half, record: seq<octet>)
    requires Sound(c) && h.Valid() && |record| >= HEADER_LEN
    ensures Open(c, h, record).Some? ==> Open(c, h, record).value.1.Valid()
  {
    hide Sound, Increment, MacOf, CbcDecrypt;
    if h.cipher.Cbc? {
      var iv, body := h.cipher.iv, record[HEADER_LEN..];
      if Unprotect(c, h, record[..3], body).Some? {
        AtLeastRounded(h.ExplicitLen() + MacSize(c, h) + 1, |iv|);
        CbcDecryptLast(c, h.cipher.key, if h.ExplicitLen() > 0 then body[..|iv|] else iv, body[h.ExplicitLen()..]);
      }
    }
  }

  /** readRecord: the first record that is not dropped. */
  function Next(c: Crypto, h: Half, next: Option<(Cipher, Option<Key>)>, ctx: Context, want: octet,
      s: seq<octet>): (r: Outcome)
    requires Sound(c) && h.Valid() && Fits(next)
    ensures r.Got? ==> r.half.Valid() && |r.rest| < |s|
    ensures !r.Dropped?
    decreases |s|
  {
    if !ctx.Serves(want) then Refused
    else
      FirstKeeps(c, h, next, ctx, want, s);
      var r := First(c, h, next, ctx, want, s);
      if r.Dropped? then Next(c, r.half, next, ctx, want, r.rest) else r
  }

  // ----- What the readers see in a stream

  /** All the data in records of the type asked for, up to the first that is something else. */
  function Contents(c: Crypto, h: Half, next: Option<(Cipher, Option<Key>)>, ctx: Context, want: octet,
      s: seq<octet>): seq<octet>
    requires Sound(c) && h.Valid() && Fits(next)
    decreases |s|
  {
    var r := Next(c, h, next, ctx, want, s);
    if r.Got? && r.typ == want && want != CHANGE_CIPHER_SPEC then
      r.data + Contents(c, r.half, next, ctx, want, r.rest)
    else []
  }

  /** The record that `SealAll` puts first is the first that is read. */
  lemma FirstOfSealed(c: Crypto, random: nat -> octet, h: Half, typ: octet, vers: nat, drawn: nat, m: seq<octet>,
      tail: seq<octet>,
                      next: Option<(Cipher, Option<Key>)>, ctx: Context)
    requires Sound(c) && h.Valid() && Suite(c, h) && Fits(next) && |m| <= MAX_PLAINTEXT
    requires Matches(ctx, typ, vers)
    ensures var sealed := Seal(c, h, Prefix(typ, vers), ExplicitIV(h, random, drawn), m);
            sealed.Some? ==> Next(c, h, next, ctx, typ, sealed.value.0 + tail) == Got(typ, m, sealed.value.1, tail)
  {
    hide Sound, Suite, Open, Seal, Hi, Lo, Word, ExplicitIV, BigEndian, Next, Fits, WireLen, MacSize, Num;
    var v := if vers == 0 then TLS10 else vers;
    var prefix := Prefix(typ, vers);
    var iv := ExplicitIV(h, random, drawn);
    SealKeepsValid(c, h, prefix, iv, m);
    SmallEnough(c, h, |m|);
    SealOpens(c, h, prefix, iv, m);
    if Seal(c, h, prefix, iv, m).Some? {
      var (record, after) := Seal(c, h, prefix, iv, m).value;
      WordOf(v);
      WordOf(|record| - HEADER_LEN);
      assert record[0] == prefix[0] && record[1] == prefix[1] && record[2] == prefix[2];
      TakesOpened(c, h, typ, vers, record, m, after, tail, next, ctx);
    }
  }

  lemma TakesOpened(c: Crypto, h: Half, typ: octet, vers: nat, record: seq<octet>, m: seq<octet>, after: Half,
      tail: seq<octet>,
                    next: Option<(Cipher, Option<Key>)>, ctx: Context)
    requires Sound(c) && h.Valid() && Fits(next) && |m| <= MAX_PLAINTEXT
    requires Matches(ctx, typ, vers)
    requires HEADER_LEN <= |record| <= HEADER_LEN + MAX_CIPHERTEXT
    requires record[0] == typ && Word(record[1], record[2]) == if vers == 0 then TLS10 else vers
    requires |record| == HEADER_LEN + Word(record[3], record[4])
    requires Open(c, h, record) == Some((m, after))
    ensures Next(c, h, next, ctx, typ, record + tail) == Got(typ, m, after, tail)
  {
    hide Sound, Open, Word, Fits;
    var s := record + tail;
    assert s[..|record|] == record && s[|record|..] == tail;
    assert s[..HEADER_LEN] == record[..HEADER_LEN] && HeaderPasses(ctx, typ, s[..HEADER_LEN]);
    assert First(c, h, next, ctx, typ, s) == Got(typ, m, after, tail);
  }

  lemma SmallEnough(c: Crypto, h: Half, n: nat)
    requires h.Valid() && Suite(c, h) && n <= MAX_PLAINTEXT
    ensures HEADER_LEN <= WireLen(c, h, n) <= HEADER_LEN + MAX_CIPHERTEXT
    ensures n + MacSize(c, h) + 256 <= 0x8000_0000
  {
  }

  /** The reader expects data of this type, in the version the writer uses. */
  predicate Matches(ctx: Context, typ: octet, vers: nat) {
    var v := if vers == 0 then TLS10 else vers;
    && (typ == HANDSHAKE || typ == APPLICATION_DATA) && ctx.Serves(typ)
    && v < 0x1_0000 && (if ctx.haveVers then v == ctx.vers else v < 0x1000)
  }

  /** Whatever the pieces, what was sealed is what is read, and both ends go on in the same state. */
  lemma {:induction false} ReadsWhatWasSealed(c: Crypto, random: nat -> octet, h: Half, typ: octet, vers: nat,
      drawn: nat,
                                              pieces: seq<seq<octet>>, tail: seq<octet>,
                                              next: Option<(Cipher, Option<Key>)>, ctx: Context)
    requires Sound(c) && h.Valid() && Suite(c, h) && Fits(next)
    requires forall p | p in pieces :: |p| <= MAX_PLAINTEXT
    requires Matches(ctx, typ, vers)
    ensures var sealed := SealAll(c, random, h, Prefix(typ, vers), drawn, pieces);
            sealed.Some? ==>
              var (wire, last) := sealed.value;
              last.Valid() &&
              Contents(c, h, next, ctx, typ, wire + tail) == Join(pieces) + Contents(c, last, next, ctx, typ, tail)
    decreases |pieces|
  {
    hide Sound, Suite, Seal, Next, ExplicitIV, Prefix, Fits, Matches, Drawn, WireLen, Half.Valid, Lo, Hi;
    if pieces == [] {
      assert [] + tail == tail;
      assert [] + Contents(c, h, next, ctx, typ, tail) == Contents(c, h, next, ctx, typ, tail);
    } else {
      var m, iv := pieces[0], ExplicitIV(h, random, drawn);
      SealKeepsValid(c, h, Prefix(typ, vers), iv, m);
      if Seal(c, h, Prefix(typ, vers), iv, m).Some? {
        var (record, after) := Seal(c, h, Prefix(typ, vers), iv, m).value;
        ReadsWhatWasSealed(c, random, after, typ, vers, drawn + Drawn(h), pieces[1..], tail, next, ctx);
        var others := SealAll(c, random, after, Prefix(typ, vers), drawn + Drawn(h), pieces[1..]);
        if others.Some? {
          var (wire, last) := others.value;
          FirstOfSealed(c, random, h, typ, vers, drawn, m, wire + tail, next, ctx);
          assert (record + wire) + tail == record + (wire + tail);
          NotSwitch(ctx, typ, vers);
          assert m + (Join(pieces[1..]) + Contents(c, last, next, ctx, typ, tail))
              == m + Join(pieces[1..]) + Contents(c, last, next, ctx, typ, tail);
        }
      }
    }
  }

  lemma NotSwitch(ctx: Context, typ: octet, vers: nat)
    requires Matches(ctx, typ, vers)
    ensures typ != CHANGE_CIPHER_SPEC
  {
  }

  /** What one side writes in any number of bytes, the other reads: no more, no less, in order. */
  lemma ReadsWhatWasWritten(c: Crypto, random: nat -> octet, w: Writer, typ: octet, data: seq<octet>, tail: seq<octet>,
                            next: Option<(Cipher, Option<Key>)>, ctx: Context)
    requires Sound(c) && w.half.Valid() && Suite(c, w.half) && Fits(next)
    requires Matches(ctx, typ, w.vers)
    ensures var written := WriteAll(c, random, w, typ, data);
            written.Some? ==>
              var (wire, last) := written.value;
              && last.half.Valid() && Suite(c, last.half) && last.vers == w.vers
              && Contents(c, w.half, next, ctx, typ, wire + tail) == data + Contents(c, last.half, next, ctx, typ, tail)
  {
    hide Sound, Suite, WriteAll, Contents, Pieces, SealAll, Matches, Fits, Prefix, Join;
    WritesPieces(c, random, w, typ, data);
    if WriteAll(c, random, w, typ, data).Some? {
      ReadsWhatWasSealed(c, random, w.half, typ, w.vers, w.drawn, Pieces(c, random, w, typ, data), tail, next, ctx);
    }
  }

  // ----- Handshake messages

  function BodyLen(s: seq<octet>): nat
    requires |s| >= 4
  {
    Num(s[1]) * 0x1_0000 + Num(s[2]) * 0x100 + Num(s[3])
  }

  /** A type, a length in three bytes, and that many bytes, up to the maximum supported. */
  predicate Message(m: seq<octet>) {
    |m| >= 4 && |m| == 4 + BodyLen(m) && BodyLen(m) <= MAX_HANDSHAKE
  }

  /** readHandshake: the first message of the handshake data and what follows it. */
  function FirstMessage(s: seq<octet>): Option<(seq<octet>, seq<octet>)> {
    if |s| < 4 || BodyLen(s) > MAX_HANDSHAKE || |s| < 4 + BodyLen(s) then None
    else Some((s[..4 + BodyLen(s)], s[4 + BodyLen(s)..]))
  }

  /** The messages a reader takes from handshake data one by one. */
  function Messages(s: seq<octet>): seq<seq<octet>>
    decreases |s|
  {
    match FirstMessage(s)
    case None => []
    case Some((m, rest)) => [m] + Messages(rest)
  }

  lemma {:induction false} MessagesBack(ms: seq<seq<octet>>)
    requires forall m | m in ms :: Message(m)
    ensures Messages(Join(ms)) == ms
  {
    if ms != [] {
      var s := Join(ms);
      assert Message(ms[0]) && BodyLen(s) == BodyLen(ms[0]);
      assert s[..|ms[0]|] == ms[0] && s[|ms[0]|..] == Join(ms[1..]);
      MessagesBack(ms[1..]);
      assert [ms[0]] + ms[1..] == ms;
    }
  }

  /** Handshake messages come out one by one however they share out over records. */
  lemma MessagesSurvive(c: Crypto, random: nat -> octet, h: Half, vers: nat, drawn: nat, ms: seq<seq<octet>>,
      pieces: seq<seq<octet>>,
                        next: Option<(Cipher, Option<Key>)>, ctx: Context)
    requires Sound(c) && h.Valid() && Suite(c, h) && Fits(next) && Matches(ctx, HANDSHAKE, vers)
    requires forall m | m in ms :: Message(m)
    requires Join(pieces) == Join(ms) && forall p | p in pieces :: |p| <= MAX_PLAINTEXT
    ensures var sealed := SealAll(c, random, h, Prefix(HANDSHAKE, vers), drawn, pieces);
            sealed.Some? ==> Messages(Contents(c, h, next, ctx, HANDSHAKE, sealed.value.0)) == ms
  {
    hide Sound, Suite, SealAll, Matches, Fits, Prefix, Join, Messages, Message, Next;
    ReadsWhatWasSealed(c, random, h, HANDSHAKE, vers, drawn, pieces, [], next, ctx);
    MessagesBack(ms);
    var sealed := SealAll(c, random, h, Prefix(HANDSHAKE, vers), drawn, pieces);
    if sealed.Some? {
      var (wire, last) := sealed.value;
      assert wire + [] == wire;
      NothingIn(c, last, next, ctx, HANDSHAKE);
      assert Join(pieces) + [] == Join(pieces);
    }
  }

  lemma NothingIn(c: Crypto, h: Half, next: Option<(Cipher, Option<Key>)>, ctx: Context, want: octet)
    requires Sound(c) && h.Valid() && Fits(next)
    ensures Contents(c, h, next, ctx, want, []) == []
  {
  }

  /** A message, the handshake data behind it, and where the reader stands then. */
  datatype Taking = NoMessage | OneMessage(m: seq<octet>, hand: seq<octet>, half: Half, rest: seq<octet>)

  /** readHandshake: records are read until the data at hand begins with a message, and no further. */
  function TakeMessage(c: Crypto, h: Half, next: Option<(Cipher, Option<Key>)>, ctx: Context, hand: seq<octet>,
      s: seq<octet>): (r: Taking)
    requires Sound(c) && h.Valid() && Fits(next)
    ensures r.OneMessage? ==> r.half.Valid()
    decreases |s|
  {
    if |hand| >= 4 && BodyLen(hand) > MAX_HANDSHAKE then NoMessage
    else if FirstMessage(hand).Some? then OneMessage(FirstMessage(hand).value.0, FirstMessage(hand).value.1, h, s)
    else
      var r := Next(c, h, next, ctx, HANDSHAKE, s);
      if r.Got? then TakeMessage(c, r.half, next, ctx, hand + r.data, r.rest) else NoMessage
  }

  lemma TakeMore(c: Crypto, h: Half, next: Option<(Cipher, Option<Key>)>, ctx: Context, hand: seq<octet>, s: seq<octet>)
    requires Sound(c) && h.Valid() && Fits(next) && FirstMessage(hand) == None
    requires |hand| >= 4 ==> BodyLen(hand) <= MAX_HANDSHAKE
    ensures var r := Next(c, h, next, ctx, HANDSHAKE, s);
            TakeMessage(c, h, next, ctx, hand, s)
            == if r.Got? then TakeMessage(c, r.half, next, ctx, hand + r.data, r.rest) else NoMessage
  {
    hide Sound, Next, Fits;
  }

  lemma TakeAtHand(c: Crypto, h: Half, next: Option<(Cipher, Option<Key>)>, ctx: Context, m: seq<octet>, s: seq<octet>)
    requires Sound(c) && h.Valid() && Fits(next) && Message(m)
    ensures TakeMessage(c, h, next, ctx, m, s) == OneMessage(m, [], h, s)
  {
    hide Sound, Next, Fits, BodyLen;
    assert m[..4 + BodyLen(m)] == m && m[4 + BodyLen(m)..] == [];
  }

  /** Taking a message is taking the first of all the handshake data there is to see. */
  lemma {:induction false} TakesFirst(c: Crypto, h: Half, next: Option<(Cipher, Option<Key>)>, ctx: Context,
      hand: seq<octet>, s: seq<octet>)
    requires Sound(c) && h.Valid() && Fits(next)
    ensures var r := TakeMessage(c, h, next, ctx, hand, s);
            match FirstMessage(hand + Contents(c, h, next, ctx, HANDSHAKE, s))
            case None => r == NoMessage
            case Some((m, rest)) =>
              r.OneMessage? && r.m == m && r.hand + Contents(c, r.half, next, ctx, HANDSHAKE, r.rest) == rest
    decreases |s|
  {
    hide Sound, Next, Fits, FirstMessage, BodyLen, TakeMessage, Half.Valid;
    var all := hand + Contents(c, h, next, ctx, HANDSHAKE, s);
    MoreData(hand, Contents(c, h, next, ctx, HANDSHAKE, s));
    if FirstMessage(hand).Some? || (|hand| >= 4 && BodyLen(hand) > MAX_HANDSHAKE) {
      TakeNow(c, h, next, ctx, hand, s);
    } else {
      TakeMore(c, h, next, ctx, hand, s);
      OnlyHandshakes(c, h, next, ctx, s);
      var r := Next(c, h, next, ctx, HANDSHAKE, s);
      if r.Got? {
        TakesFirst(c, r.half, next, ctx, hand + r.data, r.rest);
        assert hand + r.data + Contents(c, r.half, next, ctx, HANDSHAKE, r.rest) == all;
      } else {
        assert all == hand;
      }
    }
  }

  lemma TakeNow(c: Crypto, h: Half, next: Option<(Cipher, Option<Key>)>, ctx: Context, hand: seq<octet>, s: seq<octet>)
    requires Sound(c) && h.Valid() && Fits(next)
    requires FirstMessage(hand).Some? || (|hand| >= 4 && BodyLen(hand) > MAX_HANDSHAKE)
    ensures TakeMessage(c, h, next, ctx, hand, s)
            == match FirstMessage(hand) case None => NoMessage case Some((m, rest)) => OneMessage(m, rest, h, s)
  {
    hide Sound, Next, Fits, BodyLen;
  }

  /** More data does not change a message that is there, nor one that is too long. */
  lemma MoreData(hand: seq<octet>, more: seq<octet>)
    ensures FirstMessage(hand).Some? ==>
              FirstMessage(hand + more) == Some((FirstMessage(hand).value.0, FirstMessage(hand).value.1 + more))
    ensures |hand| >= 4 && BodyLen(hand) > MAX_HANDSHAKE ==> FirstMessage(hand + more) == None
  {
    hide Num;
    if |hand| >= 4 {
      var all, n := hand + more, 4 + BodyLen(hand);
      assert BodyLen(all) == BodyLen(hand);
      if |hand| >= n {
        assert all[..n] == hand[..n] && all[n..] == hand[n..] + more;
      }
    }
  }

  /** A message that was cut into records is taken from these records and no others. */
  lemma {:induction false} TakesSealed(c: Crypto, random: nat -> octet, h: Half, vers: nat, drawn: nat,
      hand: seq<octet>, pieces: seq<seq<octet>>, tail: seq<octet>, next: Option<(Cipher, Option<Key>)>, ctx: Context)
    requires Sound(c) && h.Valid() && Suite(c, h) && Fits(next) && Matches(ctx, HANDSHAKE, vers)
    requires Message(hand + Join(pieces)) && forall p | p in pieces :: 1 <= |p| <= MAX_PLAINTEXT
    ensures var sealed := SealAll(c, random, h, Prefix(HANDSHAKE, vers), drawn, pieces);
            sealed.Some? ==>
              sealed.value.1.Valid()
              && TakeMessage(c, h, next, ctx, hand, sealed.value.0 + tail)
                 == OneMessage(hand + Join(pieces), [], sealed.value.1, tail)
    decreases |pieces|
  {
    hide Sound, Suite, Seal, Next, ExplicitIV, Prefix, Fits, Matches, Drawn, WireLen, Half.Valid, Lo, Hi, Num,
         TakeMessage, Message, FirstMessage, BodyLen;
    if pieces == [] {
      assert [] + tail == tail && hand + [] == hand;
      TakeAtHand(c, h, next, ctx, hand, tail);
    } else {
      var m, iv := pieces[0], ExplicitIV(h, random, drawn);
      SealKeepsValid(c, h, Prefix(HANDSHAKE, vers), iv, m);
      if Seal(c, h, Prefix(HANDSHAKE, vers), iv, m).Some? {
        var (record, after) := Seal(c, h, Prefix(HANDSHAKE, vers), iv, m).value;
        assert hand + Join(pieces) == (hand + m) + Join(pieces[1..]);
        TakesSealed(c, random, after, vers, drawn + Drawn(h), hand + m, pieces[1..], tail, next, ctx);
        var others := SealAll(c, random, after, Prefix(HANDSHAKE, vers), drawn + Drawn(h), pieces[1..]);
        if others.Some? {
          FirstOfSealed(c, random, h, HANDSHAKE, vers, drawn, m, others.value.0 + tail, next, ctx);
          assert (record + others.value.0) + tail == record + (others.value.0 + tail);
          BeginsMessage(hand, Join(pieces));
          TakeMore(c, h, next, ctx, hand, record + (others.value.0 + tail));
        }
      }
    }
  }

  /** The proper beginning of a message is not yet one. */
  lemma BeginsMessage(hand: seq<octet>, more: seq<octet>)
    requires Message(hand + more) && more != []
    ensures FirstMessage(hand) == None && (|hand| >= 4 ==> BodyLen(hand) <= MAX_HANDSHAKE)
  {
    hide Num;
    assert |hand| >= 4 ==> BodyLen(hand) == BodyLen(hand + more);
  }

  /** The record that announces new keys is taken as such, and the reader switches. */
  lemma ChangeOfSealed(c: Crypto, random: nat -> octet, h: Half, vers: nat, drawn: nat, tail: seq<octet>,
      next: Option<(Cipher, Option<Key>)>, ctx: Context)
    requires Sound(c) && h.Valid() && Suite(c, h) && Fits(next) && next.Some? && Matches(ctx, HANDSHAKE, vers)
    ensures var sealed := Seal(c, h, Prefix(CHANGE_CIPHER_SPEC, vers), ExplicitIV(h, random, drawn), [1]);
            sealed.Some? ==>
              Next(c, h, next, ctx, CHANGE_CIPHER_SPEC, sealed.value.0 + tail)
              == Got(CHANGE_CIPHER_SPEC, [1], Switched(sealed.value.1, next).value, tail)
  {
    hide Sound, Suite, Open, Seal, Hi, Lo, Word, ExplicitIV, BigEndian, Fits, WireLen, MacSize, Num, Next;
    var v := if vers == 0 then TLS10 else vers;
    var prefix := Prefix(CHANGE_CIPHER_SPEC, vers);
    var iv := ExplicitIV(h, random, drawn);
    SealKeepsValid(c, h, prefix, iv, [1]);
    SmallEnough(c, h, 1);
    SealOpens(c, h, prefix, iv, [1]);
    if Seal(c, h, prefix, iv, [1]).Some? {
      var (record, after) := Seal(c, h, prefix, iv, [1]).value;
      WordOf(v);
      WordOf(|record| - HEADER_LEN);
      assert record[0] == prefix[0] && record[1] == prefix[1] && record[2] == prefix[2];
      SwitchOpened(c, h, vers, record, after, tail, next, ctx);
    }
  }

  lemma SwitchOpened(c: Crypto, h: Half, vers: nat, record: seq<octet>, after: Half, tail: seq<octet>,
      next: Option<(Cipher, Option<Key>)>, ctx: Context)
    requires Sound(c) && h.Valid() && Fits(next) && next.Some? && Matches(ctx, HANDSHAKE, vers)
    requires HEADER_LEN <= |record| <= HEADER_LEN + MAX_CIPHERTEXT
    requires record[0] == CHANGE_CIPHER_SPEC && Word(record[1], record[2]) == if vers == 0 then TLS10 else vers
    requires |record| == HEADER_LEN + Word(record[3], record[4])
    requires Open(c, h, record) == Some(([1], after))
    ensures Next(c, h, next, ctx, CHANGE_CIPHER_SPEC, record + tail)
            == Got(CHANGE_CIPHER_SPEC, [1], Switched(after, next).value, tail)
  {
    hide Sound, Open, Word, Fits;
    var s := record + tail;
    assert s[..|record|] == record && s[|record|..] == tail;
    assert s[..HEADER_LEN] == record[..HEADER_LEN] && HeaderPasses(ctx, CHANGE_CIPHER_SPEC, s[..HEADER_LEN]);
    assert First(c, h, next, ctx, CHANGE_CIPHER_SPEC, s)
        == Got(CHANGE_CIPHER_SPEC, [1], Switched(after, next).value, tail);
  }

  // ----- The reader

  /** How a reading step ends: out of bytes, with an error, with a dropped alert, or with a record taken. */
  datatype Progress = NoMore | Fatal | Again | Done

  class Reader {
    const crypto: Crypto
    const from: Direction
    const renegotiates: bool
    var haveVers: bool
    var vers: nat
    var handshakeComplete: bool
    var raw: seq<octet>
    var arrived: seq<seq<octet>>
    var input: Option<seq<octet>>
    var hand: seq<octet>

    /** `arrived` is what the reads from the network will return, one by one. */
    constructor (from: Direction, renegotiates: bool, arrived: seq<seq<octet>>)
      requires from.Valid()
      ensures Valid() && this.from == from && Pending() == Join(arrived) && hand == []
      ensures Ctx() == Context(false, 0, false, renegotiates)
    {
      crypto, this.from, this.renegotiates := from.crypto, from, renegotiates;
      haveVers, vers, handshakeComplete := false, 0, false;
      raw, this.arrived, input, hand := [], arrived, None, [];
    }

    ghost predicate Valid()
      reads this, from, from.seqNo
    {
      from.Valid() && from.crypto == crypto
    }

    function Ctx(): Context
      reads this
    {
      Context(haveVers, vers, handshakeComplete, renegotiates)
    }

    /** All bytes that are still to be read, whether they are here or under way. */
    function Pending(): seq<octet>
      reads this
    {
      raw + Join(arrived)
    }

    method ReadFromUntil(n: nat) returns (ok: bool)
      modifies this`raw, this`arrived
      ensures Pending() == old(Pending()) && ok == (|Pending()| >= n) && (ok ==> |raw| >= n)
    {
      if |raw| >= n {
        return true;
      }
      while true
        invariant Pending() == old(Pending())
        decreases |arrived|
      {
        if arrived == [] {
          assert raw + [] == raw;
          return |raw| >= n;
        }
        assert raw + (arrived[0] + Join(arrived[1..])) == (raw + arrived[0]) + Join(arrived[1..]);
        raw, arrived := raw + arrived[0], arrived[1..];
        if |raw| >= n {
          return true;
        }
      }
    }

    method SplitBlock(n: nat) returns (b: Block)
      requires n <= |raw|
      modifies this`raw
      ensures fresh(b) && b.data == old(Pending())[..n] && Pending() == old(Pending())[n..]
    {
      b := new Block(raw[..n]);
      assert raw[..n] == Pending()[..n] && raw[n..] + Join(arrived) == Pending()[n..];
      raw := raw[n..];
    }

    /** What the reader has taken in when it has taken a record. */
    twostate predicate TookIn(typ: octet, data: seq<octet>)
      reads this
    {
      && hand == (if typ == HANDSHAKE then old(hand) + data else old(hand))
      && input == (if typ == APPLICATION_DATA then Some(data) else old(input))
    }

    /** readRecord from the header up to the point where it starts again or returns. */
    method ReadOne(want: octet) returns (r: Progress)
      requires Valid()
      modifies this`raw, this`arrived, this`input, this`hand, from`cipher, from`mac, from`next, from.seqNo
      ensures r == Ended(First(crypto, old(from.Value()), old(from.next), Ctx(), want, old(Pending())))
      ensures r == Again || r == Done ==>
                var outcome := First(crypto, old(from.Value()), old(from.next), Ctx(), want, old(Pending()));
                && Valid() && from.Value() == outcome.half && Pending() == outcome.rest
                && from.next == (if r == Done && outcome.typ == CHANGE_CIPHER_SPEC then None else old(from.next))
                && (if r == Done then TookIn(outcome.typ, outcome.data) else hand == old(hand) && input == old(input))
    {
      hide Open, Sound, Fits, Word, HeaderPasses, Taken, Half.Valid;
      ghost var s, h := Pending(), from.Value();
      var ok := ReadFromUntil(HEADER_LEN);
      if !ok {
        return NoMore;
      }
      assert raw[..HEADER_LEN] == s[..HEADER_LEN];
      if !HeaderPasses(Ctx(), want, raw[..HEADER_LEN]) {
        return Fatal;
      }
      var typ, n := raw[0], Word(raw[3], raw[4]);
      ok := ReadFromUntil(HEADER_LEN + n);
      if !ok {
        return NoMore;
      }
      var b := SplitBlock(HEADER_LEN + n);
      FirstKeeps(crypto, h, from.next, Ctx(), want, s);
      r := Process(b, want, typ, s[HEADER_LEN + n..]);
    }

    /** readRecord once a record is complete: `b` holds it. */
    method Process(b: Block, want: octet, typ: octet, ghost rest: seq<octet>) returns (r: Progress)
      requires Valid() && |b.data| >= HEADER_LEN
      modifies b, this`input, this`hand, from`cipher, from`mac, from`next, from.seqNo
      ensures match Open(crypto, old(from.Value()), old(b.data))
              case None => r == Fatal
              case Some((data, half)) =>
                var outcome := Taken(half, old(from.next), Ctx(), want, typ, data, rest);
                && r == Ended(outcome)
                && (r == Again || r == Done ==>
                  && Valid() && from.Value() == outcome.half
                  && from.next == (if r == Done && typ == CHANGE_CIPHER_SPEC then None else old(from.next))
                  && (if r == Done then TookIn(typ, data) else hand == old(hand) && input == old(input)))
    {
      hide Open, Sound, Fits;
      OpenKeepsValid(crypto, from.Value(), b.data);
      var ok, off := from.Decrypt(b);
      if !ok {
        return Fatal;
      }
      var data := b.data[off..];
      if |data| > MAX_PLAINTEXT {
        return Fatal;
      }
      if typ == ALERT {
        if |data| != 2 {
          return Fatal;
        }
        if data[1] == CLOSE_NOTIFY {
          return Fatal;
        }
        return if data[0] == LEVEL_WARNING then Again else Fatal;
      } else if typ == CHANGE_CIPHER_SPEC {
        if typ != want || |data| != 1 || data[0] != 1 {
          return Fatal;
        }
        ok := from.ChangeCipherSpec();
        return if ok then Done else Fatal;
      } else if typ == APPLICATION_DATA {
        if typ != want {
          return Fatal;
        }
        input := Some(data);
        return Done;
      } else if typ == HANDSHAKE {
        if typ != want && !renegotiates {
          return Fatal;
        }
        hand := hand + data;
        return Done;
      }
      return Fatal;
    }

    method ReadRecord(want: octet) returns (r: Progress)
      requires Valid()
      modifies this`raw, this`arrived, this`input, this`hand, from`cipher, from`mac, from`next, from.seqNo
      ensures r == Ended(Next(crypto, old(from.Value()), old(from.next), Ctx(), want, old(Pending()))) && r != Again
      ensures r == Done ==>
                var outcome := Next(crypto, old(from.Value()), old(from.next), Ctx(), want, old(Pending()));
                && Valid() && from.Value() == outcome.half && Pending() == outcome.rest
                && from.next == (if outcome.typ == CHANGE_CIPHER_SPEC then None else old(from.next))
                && TookIn(outcome.typ, outcome.data)
    {
      hide First, Sound, Fits, Reader.Pending, Half.Valid;
      if !Ctx().Serves(want) {
        return Fatal;
      }
      r := Again;
      while r == Again
        invariant r == Again ==>
          && Valid() && from.next == old(from.next) && hand == old(hand) && input == old(input)
          && Next(crypto, from.Value(), from.next, Ctx(), want, Pending())
             == Next(crypto, old(from.Value()), old(from.next), Ctx(), want, old(Pending()))
        invariant r != Again ==>
          && r == Ended(Next(crypto, old(from.Value()), old(from.next), Ctx(), want, old(Pending())))
          && (r == Done ==>
            var outcome := Next(crypto, old(from.Value()), old(from.next), Ctx(), want, old(Pending()));
            && Valid() && from.Value() == outcome.half && Pending() == outcome.rest
            && from.next == (if outcome.typ == CHANGE_CIPHER_SPEC then None else old(from.next))
            && TookIn(outcome.typ, outcome.data))
        decreases r == Again, |Pending()|
      {
        FirstKeeps(crypto, from.Value(), from.next, Ctx(), want, Pending());
        r := ReadOne(want);
      }
    }

    /** All the handshake data a reader will see, what it already holds included. */
    ghost function Handshakes(): seq<octet>
      requires Valid()
      reads this, from, from.seqNo
    {
      hand + Contents(crypto, from.Value(), from.next, Ctx(), HANDSHAKE, Pending())
    }

    /** One readRecord for handshake data. */
    method MoreHandshake() returns (ok: bool)
      requires Valid()
      modifies this`raw, this`arrived, this`input, this`hand, from`cipher, from`mac, from`next, from.seqNo
      ensures var outcome := Next(crypto, old(from.Value()), old(from.next), Ctx(), HANDSHAKE, old(Pending()));
              && ok == outcome.Got?
              && (ok ==>
                && Valid() && from.Value() == outcome.half && Pending() == outcome.rest && from.next == old(from.next)
                && hand == old(hand) + outcome.data)
    {
      hide Sound, Fits, Next;
      OnlyHandshakes(crypto, from.Value(), from.next, Ctx(), Pending());
      var r := ReadRecord(HANDSHAKE);
      ok := r == Done;
    }

    /**
     readHandshake: the first message of the handshake data, however the data arrives; records are
     read as far as that message needs them.
     */
    method ReadHandshake() returns (r: Option<seq<octet>>)
      requires Valid()
      modifies this`raw, this`arrived, this`input, this`hand, from`cipher, from`mac, from`next, from.seqNo
      ensures match FirstMessage(old(Handshakes()))
              case None => r == None
              case Some((m, rest)) => r == Some(m) && Valid() && Handshakes() == rest
      ensures match TakeMessage(crypto, old(from.Value()), old(from.next), Ctx(), old(hand), old(Pending()))
              case NoMessage => r == None
              case OneMessage(m, left, half, rest) =>
                r == Some(m) && hand == left && from.Value() == half && Pending() == rest && from.next == old(from.next)
    {
      hide Sound, Fits, Contents, Next, FirstMessage, TakeMessage;
      ghost var taking := TakeMessage(crypto, from.Value(), from.next, Ctx(), hand, Pending());
      TakesFirst(crypto, from.Value(), from.next, Ctx(), hand, Pending());
      while |hand| < 4
        invariant Valid() && from.next == old(from.next)
        invariant taking == TakeMessage(crypto, from.Value(), from.next, Ctx(), hand, Pending())
        decreases |Pending()|
      {
        NotYet(hand);
        TakeMore(crypto, from.Value(), from.next, Ctx(), hand, Pending());
        var ok := MoreHandshake();
        if !ok {
          return None;
        }
      }
      var n := BodyLen(hand);
      if n > MAX_HANDSHAKE {
        NotYet(hand);
        TakeNow(crypto, from.Value(), from.next, Ctx(), hand, Pending());
        return None;
      }
      while |hand| < 4 + n
        invariant Valid() && |hand| >= 4 && BodyLen(hand) == n && from.next == old(from.next)
        invariant taking == TakeMessage(crypto, from.Value(), from.next, Ctx(), hand, Pending())
        decreases |Pending()|
      {
        NotYet(hand);
        TakeMore(crypto, from.Value(), from.next, Ctx(), hand, Pending());
        var ok := MoreHandshake();
        if !ok {
          return None;
        }
      }
      NotYet(hand);
      TakeNow(crypto, from.Value(), from.next, Ctx(), hand, Pending());
      r := Some(hand[..4 + n]);
      hand := hand[4 + n..];
    }
  }

  /** Whether data begins with a message. */
  lemma NotYet(s: seq<octet>)
    ensures FirstMessage(s)
            == if |s| < 4 || BodyLen(s) > MAX_HANDSHAKE || |s| < 4 + BodyLen(s) then None
               else Some((s[..4 + BodyLen(s)], s[4 + BodyLen(s)..]))
  {
  }

  function Ended(o: Outcome): Progress {
    match o
    case Starved => NoMore
    case Refused => Fatal
    case Dropped(_, _) => Again
    case Got(_, _, _, _) => Done
  }

  /** Asked for handshake data, readRecord takes nothing else. */
  lemma {:induction false} OnlyHandshakes(c: Crypto, h: Half, next: Option<(Cipher, Option<Key>)>, ctx: Context,
      s: seq<octet>)
    requires Sound(c) && h.Valid() && Fits(next)
    ensures var r := Next(c, h, next, ctx, HANDSHAKE, s); r.Got? ==> r.typ == HANDSHAKE
    decreases |s|
  {
    hide Open, HeaderPasses, Word, Sound, Fits;
    if ctx.Serves(HANDSHAKE) {
      FirstKeeps(c, h, next, ctx, HANDSHAKE, s);
      var r := First(c, h, next, ctx, HANDSHAKE, s);
      if r.Dropped? {
        OnlyHandshakes(c, r.half, next, ctx, r.rest);
      }
    }
  }
}
