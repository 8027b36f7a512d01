/**
 What becomes of each kind of record, with the types, levels and limits written out as in RFC 5246, sections 6
 and 7.
 */
module IncomingLaws {
  import opened Bytes
  import opened Padding
  import opened HalfConn
  import opened Record
  import opened Outgoing
  import opened Incoming

  // ----- Headers

  /** A header that is read on: type, version and length. */
  predicate Suits(ctx: Context, want: octet, typ: octet, vers: nat, length: nat) {
    && !(want == 22 && typ == 0x80) && length <= 18432
    && if ctx.haveVers then vers == ctx.vers else (typ == 21 || typ == want) && vers < 0x1000
  }

  predicate Asks(ctx: Context, want: octet) {
    if ctx.handshakeComplete then want == 23 else want == 20 || want == 22
  }

  /** Only what suits the stage of the connection is read at all, and only records whose header suits. */
  lemma RefusedByHeader(c: Crypto, h: Half, next: Option<(Cipher, Option<Key>)>, ctx: Context, want: octet,
      s: seq<octet>)
    requires Sound(c) && h.Valid() && Fits(next)
    ensures !Asks(ctx, want) ==> Next(c, h, next, ctx, want, s) == Refused
    ensures Asks(ctx, want) && |s| < 5 ==> Next(c, h, next, ctx, want, s) == Starved
    ensures Asks(ctx, want) && |s| >= 5 ==>
              var (vers, length) := (256 * Num(s[1]) + Num(s[2]), 256 * Num(s[3]) + Num(s[4]));
              && (!Suits(ctx, want, s[0], vers, length) ==> Next(c, h, next, ctx, want, s) == Refused)
              && (Suits(ctx, want, s[0], vers, length) && |s| < 5 + length ==>
                   Next(c, h, next, ctx, want, s) == Starved)
  {
    hide Sound, Open, Num, Fits, Taken;
    if |s| >= 5 {
      assert s[..HEADER_LEN][0] == s[0];
      assert s[..HEADER_LEN][1] == s[1] && s[..HEADER_LEN][2] == s[2];
      assert s[..HEADER_LEN][3] == s[3] && s[..HEADER_LEN][4] == s[4];
    }
  }

  // ----- Sealed records

  /** What is made of an opened record. */
  function Verdict(ctx: Context, next: Option<(Cipher, Option<Key>)>, want: octet, typ: octet, m: seq<octet>)
    : Verdicts
  {
    if |m| > 16384 then Fails
    else if typ == 21 then if |m| == 2 && m[0] == 1 && m[1] != 0 then Skips else Fails
    else if typ == 20 then if want == 20 && m == [1] && next.Some? then Switches else Fails
    else if typ == 23 then if want == 23 then Takes else Fails
    else if typ == 22 then if want == 22 || ctx.renegotiates then Takes else Fails
    else Fails
  }

  datatype Verdicts = Fails | Skips | Takes | Switches

  /**
   The first record of a stream, sealed by the other side: alerts that only warn are skipped, a closing or fatal
   alert and an alert of another length end the connection, keys are switched only where that was asked for and
   they are prepared, and data and handshake messages are taken where they were asked for.
   */
  lemma SealedTaken(c: Crypto, h: Half, typ: octet, vers: nat, iv: seq<octet>, m: seq<octet>, tail: seq<octet>,
      next: Option<(Cipher, Option<Key>)>, ctx: Context, want: octet)
    requires Sound(c) && h.Valid() && Suite(c, h) && Fits(next) && |iv| == h.ExplicitLen()
    requires var v := if vers == 0 then 0x0301 else vers;
             v < 0x1_0000 && Asks(ctx, want) && Suits(ctx, want, typ, v, WireLen(c, h, |m|) - 5)
    requires Seal(c, h, Prefix(typ, vers), iv, m).Some?
    ensures var (record, after) := Seal(c, h, Prefix(typ, vers), iv, m).value;
            && after.Valid()
            && Next(c, h, next, ctx, want, record + tail) ==
               match Verdict(ctx, next, want, typ, m)
               case Fails => Refused
               case Skips => Next(c, after, next, ctx, want, tail)
               case Takes => Got(typ, m, after, tail)
               case Switches => Got(typ, m, Half(after.version, next.value.0, next.value.1, Copies(8, 0)), tail)
  {
    hide Sound, Suite, Open, Seal, Hi, Lo, Incoming.Word, BigEndian, Fits, WireLen, Num, Next;
    var v := if vers == 0 then TLS10 else vers;
    var prefix := Prefix(typ, vers);
    SealKeepsValid(c, h, prefix, iv, m);
    PayloadFits(c, h, |m|);
    SealOpens(c, h, prefix, iv, m);
    var (record, after) := Seal(c, h, prefix, iv, m).value;
    WordOf(v);
    WordOf(|record| - HEADER_LEN);
    assert record[0] == prefix[0] && record[1] == prefix[1] && record[2] == prefix[2];
    OpenedTaken(c, h, typ, v, record, m, after, tail, next, ctx, want);
  }

  lemma PayloadFits(c: Crypto, h: Half, n: nat)
    requires h.Valid() && Suite(c, h) && WireLen(c, h, n) <= 18437
    ensures n + MacSize(c, h) + 256 <= 0x8000_0000
  {
  }

  lemma OpenedTaken(c: Crypto, h: Half, typ: octet, v: nat, record: seq<octet>, m: seq<octet>, after: Half,
      tail: seq<octet>, next: Option<(Cipher, Option<Key>)>, ctx: Context, want: octet)
    requires Sound(c) && h.Valid() && after.Valid() && Fits(next) && Asks(ctx, want)
    requires 5 <= |record| <= 18437 && Suits(ctx, want, typ, v, |record| - 5)
    requires record[0] == typ && Incoming.Word(record[1], record[2]) == v
    requires |record| == 5 + Incoming.Word(record[3], record[4]) && Open(c, h, record) == Some((m, after))
    ensures var r := Next(c, h, next, ctx, want, record + tail);
            var verdict := Verdict(ctx, next, want, typ, m);
            && (verdict == Fails ==> r == Refused)
            && (verdict == Skips ==> r == Next(c, after, next, ctx, want, tail))
            && (verdict == Takes ==> r == Got(typ, m, after, tail))
            && (verdict == Switches ==>
              r == Got(typ, m, Half(after.version, next.value.0, next.value.1, Copies(8, 0)), tail))
  {
    hide Sound, Open, Incoming.Word, Fits;
    var s := record + tail;
    assert s[..|record|] == record && s[|record|..] == tail;
    assert s[..HEADER_LEN] == record[..HEADER_LEN] && HeaderPasses(ctx, want, s[..HEADER_LEN]);
    assert First(c, h, next, ctx, want, s) == Taken(after, next, ctx, want, typ, m, tail);
  }
}
