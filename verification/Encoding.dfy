/**
 Byte-level reading and writing that the handshake messages share:
 internal/tls_hack/handshake_messages.go.
 Lengths are written as Go writes them, truncated to the width of their field.
 */
module Encoding {
  import opened Bytes

  type Data = seq<byte>
  type word = w: int | 0 <= w < 0x1_0000

  function Word(n: nat): (s: Data)
    ensures |s| == 2
  {
    [n / 256 % 256, n % 256]
  }

  function ToWord(hi: byte, lo: byte): word {
    hi * 256 + lo
  }

  lemma WordBack(n: nat)
    requires n < 0x1_0000
    ensures ToWord(Word(n)[0], Word(n)[1]) == n
  {
  }

  /** A word in front of other bytes. */
  lemma WordFront(n: nat, rest: Data)
    requires n < 0x1_0000
    ensures var s := Word(n) + rest; |s| >= 2 && ToWord(s[0], s[1]) == n && s[2..] == rest
  {
    WordBack(n);
    var s := Word(n) + rest;
    assert s[0] == Word(n)[0] && s[1] == Word(n)[1];
  }

  function Zeros(n: nat): (s: Data)
    ensures |s| == n
  {
    seq(n, _ => 0)
  }

  /** `s` copied into a field of `n` bytes: cut off, or followed by zeros. */
  function Fixed(s: Data, n: nat): (r: Data)
    ensures |r| == n && (|s| == n ==> r == s)
  {
    if |s| >= n then s[..n] else s + Zeros(n - |s|)
  }

  // ----- Lists

  function Words(ws: seq<word>): (s: Data)
    ensures |s| == 2 * |ws|
  {
    if ws == [] then [] else Word(ws[0]) + Words(ws[1..])
  }

  function ToWords(s: Data): (ws: seq<word>)
    requires |s| % 2 == 0
    ensures 2 * |ws| == |s|
  {
    if s == [] then [] else [ToWord(s[0], s[1])] + ToWords(s[2..])
  }

  lemma {:induction false} WordsBack(ws: seq<word>)
    ensures ToWords(Words(ws)) == ws
  {
    if ws != [] {
      WordFront(ws[0], Words(ws[1..]));
      WordsBack(ws[1..]);
    }
  }

  lemma {:induction false} ToWordsAppend(s: Data, a: byte, b: byte)
    requires |s| % 2 == 0
    ensures ToWords(s + [a, b]) == ToWords(s) + [ToWord(a, b)]
  {
    if s == [] {
      assert s + [a, b] == [a, b] && [a, b][2..] == [];
    } else {
      assert (s + [a, b])[2..] == s[2..] + [a, b];
      ToWordsAppend(s[2..], a, b);
    }
  }

  lemma {:induction false} WordsAppend(ws: seq<word>, w: word)
    ensures Words(ws + [w]) == Words(ws) + Word(w)
  {
    if ws == [] {
      assert [w][1..] == [] && Word(w) + [] == Word(w) && [] + Word(w) == Word(w);
    } else {
      assert (ws + [w])[1..] == ws[1..] + [w];
      WordsAppend(ws[1..], w);
    }
  }

  datatype Pair = Pair(hash: byte, signature: byte)

  function Pairs(ps: seq<Pair>): (s: Data)
    ensures |s| == 2 * |ps|
  {
    if ps == [] then [] else [ps[0].hash, ps[0].signature] + Pairs(ps[1..])
  }

  function ToPairs(s: Data): (ps: seq<Pair>)
    requires |s| % 2 == 0
    ensures 2 * |ps| == |s|
  {
    if s == [] then [] else [Pair(s[0], s[1])] + ToPairs(s[2..])
  }

  lemma {:induction false} PairsBack(ps: seq<Pair>)
    ensures ToPairs(Pairs(ps)) == ps
  {
    if ps != [] {
      var s := [ps[0].hash, ps[0].signature] + Pairs(ps[1..]);
      assert s[2..] == Pairs(ps[1..]);
      PairsBack(ps[1..]);
    }
  }

  lemma {:induction false} ToPairsAppend(s: Data, a: byte, b: byte)
    requires |s| % 2 == 0
    ensures ToPairs(s + [a, b]) == ToPairs(s) + [Pair(a, b)]
  {
    if s == [] {
      assert s + [a, b] == [a, b] && [a, b][2..] == [];
    } else {
      assert (s + [a, b])[2..] == s[2..] + [a, b];
      ToPairsAppend(s[2..], a, b);
    }
  }

  lemma {:induction false} PairsAppend(ps: seq<Pair>, p: Pair)
    ensures Pairs(ps + [p]) == Pairs(ps) + [p.hash, p.signature]
  {
    if ps == [] {
      assert [p][1..] == [] && Pairs([p]) == [p.hash, p.signature] + [];
    } else {
      assert (ps + [p])[1..] == ps[1..] + [p];
      PairsAppend(ps[1..], p);
    }
  }

  /** Strings of 1 to 255 bytes. */
  predicate Short(ss: seq<Data>) {
    forall s | s in ss :: 1 <= |s| <= 255
  }

  /** Strings with a length byte each, as far as their length fits into it. */
  function Strings(ss: seq<Data>): Data {
    if ss == [] then [] else [|ss[0]| % 256] + ss[0] + Strings(ss[1..])
  }

  function StringsLen(ss: seq<Data>): nat {
    if ss == [] then 0 else 1 + |ss[0]| + StringsLen(ss[1..])
  }

  lemma {:induction false} StringsLength(ss: seq<Data>)
    ensures |Strings(ss)| == StringsLen(ss)
  {
    if ss != [] {
      StringsLength(ss[1..]);
    }
  }

  function ToStrings(s: Data): Option<seq<Data>> {
    if s == [] then Some([])
    else
      var n := s[0];
      if n == 0 || n > |s| - 1 then None
      else
        match ToStrings(s[1 + n..])
        case None => None
        case Some(rest) => Some([s[1..1 + n]] + rest)
  }

  lemma {:induction false} StringsBack(ss: seq<Data>)
    requires Short(ss)
    ensures ToStrings(Strings(ss)) == Some(ss)
  {
    if ss != [] {
      assert ss[0] in ss && Short(ss[1..]);
      StringsBack(ss[1..]);
      StringFront(ss[0], Strings(ss[1..]));
      assert [ss[0]] + ss[1..] == ss;
    }
  }

  lemma StringFront(t: Data, rest: Data)
    requires 1 <= |t| <= 255
    ensures var s := [|t| % 256] + t + rest;
            ToStrings(s) == match ToStrings(rest) case None => None case Some(ts) => Some([t] + ts)
  {
    var s := [|t| % 256] + t + rest;
    assert s[0] == |t| && s[1..1 + |t|] == t && s[1 + |t|..] == rest;
  }

  lemma {:induction false} ToStringsShort(s: Data)
    ensures ToStrings(s).Some? ==> Short(ToStrings(s).value) && StringsLen(ToStrings(s).value) == |s|
    decreases |s|
  {
    if s != [] && s[0] != 0 && s[0] <= |s| - 1 {
      ToStringsShort(s[1 + s[0]..]);
    }
  }

  lemma {:induction false} StringsAppend(ss: seq<Data>, t: Data)
    ensures Strings(ss + [t]) == Strings(ss) + ([|t| % 256] + t)
    ensures StringsLen(ss + [t]) == StringsLen(ss) + 1 + |t|
  {
    if ss == [] {
      assert ss + [t] == [t] && [t][1..] == [] && Strings([t]) == [|t| % 256] + t + [];
    } else {
      assert (ss + [t])[1..] == ss[1..] + [t];
      StringsAppend(ss[1..], t);
    }
  }

  lemma {:induction false} StringsLenAppend(a: seq<Data>, b: seq<Data>)
    ensures StringsLen(a + b) == StringsLen(a) + StringsLen(b)
  {
    if a == [] {
      assert a + b == b;
    } else {
      assert (a + b)[1..] == a[1..] + b;
      StringsLenAppend(a[1..], b);
    }
  }

  /** Byte strings with a length word each. */
  function Blobs(ss: seq<Data>): Data {
    if ss == [] then [] else Word(|ss[0]|) + ss[0] + Blobs(ss[1..])
  }

  function BlobsLen(ss: seq<Data>): nat {
    if ss == [] then 0 else 2 + |ss[0]| + BlobsLen(ss[1..])
  }

  lemma {:induction false} BlobsLength(ss: seq<Data>)
    ensures |Blobs(ss)| == BlobsLen(ss)
  {
    if ss != [] {
      BlobsLength(ss[1..]);
    }
  }

  lemma {:induction false} BlobsAppend(ss: seq<Data>, t: Data)
    ensures Blobs(ss + [t]) == Blobs(ss) + (Word(|t|) + t)
    ensures BlobsLen(ss + [t]) == BlobsLen(ss) + 2 + |t|
  {
    if ss == [] {
      assert ss + [t] == [t] && [t][1..] == [] && Blobs([t]) == Word(|t|) + t + [];
    } else {
      assert (ss + [t])[1..] == ss[1..] + [t];
      BlobsAppend(ss[1..], t);
    }
  }

  predicate Sized(ss: seq<Data>) {
    forall s | s in ss :: 1 <= |s| < 0x1_0000
  }

  function ToBlobs(s: Data): Option<seq<Data>> {
    if s == [] then Some([])
    else if |s| < 2 then None
    else
      var n := ToWord(s[0], s[1]);
      if n == 0 || n > |s| - 2 then None
      else
        match ToBlobs(s[2 + n..])
        case None => None
        case Some(rest) => Some([s[2..2 + n]] + rest)
  }

  lemma {:induction false} BlobsBack(ss: seq<Data>)
    requires Sized(ss)
    ensures ToBlobs(Blobs(ss)) == Some(ss)
  {
    if ss != [] {
      assert ss[0] in ss && Sized(ss[1..]);
      BlobsBack(ss[1..]);
      BlobFront(ss[0], Blobs(ss[1..]));
      assert [ss[0]] + ss[1..] == ss;
    }
  }

  lemma BlobFront(t: Data, rest: Data)
    requires 1 <= |t| < 0x1_0000
    ensures var s := Word(|t|) + t + rest;
            ToBlobs(s) == match ToBlobs(rest) case None => None case Some(ts) => Some([t] + ts)
  {
    hide Word;
    var s := Word(|t|) + t + rest;
    assert s == Word(|t|) + (t + rest);
    WordFront(|t|, t + rest);
    assert s[2..2 + |t|] == t && s[2 + |t|..] == rest;
  }

  lemma {:induction false} ToBlobsSized(s: Data)
    ensures ToBlobs(s).Some? ==> Sized(ToBlobs(s).value) && BlobsLen(ToBlobs(s).value) == |s|
    decreases |s|
  {
    if |s| >= 2 {
      var n := ToWord(s[0], s[1]);
      if n != 0 && n <= |s| - 2 {
        ToBlobsSized(s[2 + n..]);
      }
    }
  }

  /** A list that continues one already read. */
  function Behind(seen: seq<Data>, r: Option<seq<Data>>): Option<seq<Data>> {
    match r
    case None => None
    case Some(rest) => Some(seen + rest)
  }

  lemma Behind0(r: Option<seq<Data>>)
    ensures Behind([], r) == r
  {
    if r.Some? {
      assert [] + r.value == r.value;
    }
  }

  lemma Behind1(seen: seq<Data>, t: Data, r: Option<seq<Data>>)
    ensures Behind(seen, match r case None => None case Some(rest) => Some([t] + rest)) == Behind(seen + [t], r)
  {
    if r.Some? {
      assert seen + ([t] + r.value) == seen + [t] + r.value;
    }
  }

  // ----- Extensions

  function Ext(typ: word, body: Data): Data {
    Word(typ) + Word(|body|) + body
  }

  lemma ExtFront(typ: word, body: Data, rest: Data)
    requires |body| < 0x1_0000
    ensures var s := Ext(typ, body) + rest;
            && |s| >= 4 && ToWord(s[0], s[1]) == typ && ToWord(s[2], s[3]) == |body|
            && |s| == 4 + |body| + |rest| && s[4..4 + |body|] == body && s[4 + |body|..] == rest
  {
    var s := Ext(typ, body) + rest;
    WordBack(typ);
    WordBack(|body|);
    assert s[0] == Word(typ)[0] && s[1] == Word(typ)[1] && s[2] == Word(|body|)[0] && s[3] == Word(|body|)[1];
  }

  // ----- Writing through a moving cursor

  /** One byte more written over. */
  lemma PatchStep(t: Data, at: nat, s: Data, i: nat)
    requires i < |s| && at + |s| <= |t|
    ensures var u := t[..at] + s[..i] + t[at + i..];
            |u| == |t| && u[at + i := s[i]] == t[..at] + s[..i + 1] + t[at + i + 1..]
  {
  }

  /** A zeroed buffer and how far it has been written; writing beyond its end is an error. */
  class Cursor {
    const size: nat
    const buf: array<byte>
    var pos: nat
    ghost var text: Data

    constructor (n: nat)
      ensures Valid() && fresh(buf) && size == n && text == []
    {
      size := n;
      buf := new byte[n](_ => 0);
      pos, text := 0, [];
    }

    ghost predicate Valid()
      reads this, buf
    {
      && buf.Length == size && |text| == pos <= size
      && buf[..pos] == text
      && forall i | pos <= i < buf.Length :: buf[i] == 0
    }

    method Put(s: Data)
      requires Valid() && |text| + |s| <= size
      modifies this, buf
      ensures Valid() && text == old(text) + s
    {
      var i := 0;
      while i < |s|
        invariant 0 <= i <= |s| && pos == old(pos) && text == old(text)
        invariant buf[..pos + i] == text + s[..i]
        invariant forall k | pos + i <= k < buf.Length :: buf[k] == 0
      {
        buf[pos + i] := s[i];
        assert buf[..pos + i + 1] == buf[..pos + i] + [s[i]];
        assert s[..i + 1] == s[..i] + [s[i]];
        i := i + 1;
      }
      assert s[..|s|] == s;
      pos := pos + |s|;
      text := text + s;
    }

    /** Leave `n` bytes as they are, zero. */
    method Skip(n: nat)
      requires Valid() && |text| + n <= size
      modifies this
      ensures Valid() && text == old(text) + Zeros(n)
    {
      assert buf[..pos + n] == buf[..pos] + Zeros(n);
      pos := pos + n;
      text := text + Zeros(n);
    }

    /** Write over bytes the cursor has passed. */
    method Patch(at: nat, s: Data)
      requires Valid() && at + |s| <= |text|
      modifies this, buf
      ensures Valid() && text == old(text)[..at] + s + old(text)[at + |s|..]
    {
      ghost var before := text;
      for i := 0 to |s|
        modifies buf
        invariant buf[..pos] == before[..at] + s[..i] + before[at + i..]
        invariant forall k | pos <= k < buf.Length :: buf[k] == 0
      {
        ghost var was := buf[..pos];
        buf[at + i] := s[i];
        assert buf[..pos] == was[at + i := s[i]];
        PatchStep(before, at, s, i);
      }
      assert s[..|s|] == s;
      text := before[..at] + s + before[at + |s|..];
    }

    /** The whole buffer. */
    method Bytes() returns (s: Data)
      requires Valid()
      ensures s == text + Zeros(size - |text|)
    {
      s := buf[..];
      assert s[..pos] == text && s == s[..pos] + s[pos..];
      assert s[pos..] == Zeros(size - pos);
    }

    // ----- Lists

    method PutWords(ws: seq<word>)
      requires Valid() && |text| + 2 * |ws| <= size
      modifies this, buf
      ensures Valid() && text == old(text) + Words(ws)
    {
      hide Valid, Words;
      var i := 0;
      WordsNone();
      assert text + [] == text;
      while i < |ws|
        invariant 0 <= i <= |ws| && Valid()
        invariant text == old(text) + Words(ws[..i])
      {
        assert ws[..i + 1] == ws[..i] + [ws[i]];
        WordsAppend(ws[..i], ws[i]);
        Put([ws[i] / 256, ws[i] % 256]);
        assert text == old(text) + (Words(ws[..i]) + Word(ws[i]));
        i := i + 1;
      }
      assert ws[..|ws|] == ws;
    }

    method PutPairs(ps: seq<Pair>)
      requires Valid() && |text| + 2 * |ps| <= size
      modifies this, buf
      ensures Valid() && text == old(text) + Pairs(ps)
    {
      hide Valid, Pairs;
      var i := 0;
      PairsNone();
      assert text + [] == text;
      while i < |ps|
        invariant 0 <= i <= |ps| && Valid()
        invariant text == old(text) + Pairs(ps[..i])
      {
        assert ps[..i + 1] == ps[..i] + [ps[i]];
        PairsAppend(ps[..i], ps[i]);
        Put([ps[i].hash, ps[i].signature]);
        assert text == old(text) + (Pairs(ps[..i]) + [ps[i].hash, ps[i].signature]);
        i := i + 1;
      }
      assert ps[..|ps|] == ps;
    }

    /** Strings with a length byte each, and how many bytes that makes. */
    method PutStrings(ss: seq<Data>) returns (n: nat)
      requires Valid() && |text| + StringsLen(ss) <= size
      modifies this, buf
      ensures Valid() && text == old(text) + Strings(ss) && n == StringsLen(ss)
    {
      hide Valid, Strings, StringsLen;
      var i := 0;
      n := 0;
      StringsNone();
      assert text + [] == text;
      while i < |ss|
        invariant 0 <= i <= |ss| && Valid() && n == StringsLen(ss[..i])
        invariant text == old(text) + Strings(ss[..i])
      {
        StringsLength(ss[..i]);
        assert ss[..i + 1] == ss[..i] + [ss[i]] && ss == ss[..i + 1] + ss[i + 1..];
        StringsAppend(ss[..i], ss[i]);
        StringsLenAppend(ss[..i + 1], ss[i + 1..]);
        Put([|ss[i]| % 256]);
        Put(ss[i]);
        assert text == old(text) + (Strings(ss[..i]) + ([|ss[i]| % 256] + ss[i]));
        n := n + 1 + |ss[i]|;
        i := i + 1;
      }
      assert ss[..|ss|] == ss;
    }

    /** Byte strings with a length word each. */
    method PutBlobs(ss: seq<Data>)
      requires Valid() && |text| + BlobsLen(ss) <= size
      modifies this, buf
      ensures Valid() && text == old(text) + Blobs(ss)
    {
      hide Valid, Blobs, BlobsLen;
      var i := 0;
      StringsNone();
      assert text + [] == text;
      while i < |ss|
        invariant 0 <= i <= |ss| && Valid()
        invariant text == old(text) + Blobs(ss[..i])
      {
        BlobsLength(ss[..i]);
        assert ss[..i + 1] == ss[..i] + [ss[i]] && ss == ss[..i + 1] + ss[i + 1..];
        BlobsAppend(ss[..i], ss[i]);
        BlobsLenAppend(ss[..i + 1], ss[i + 1..]);
        Put([|ss[i]| / 256 % 256, |ss[i]| % 256]);
        Put(ss[i]);
        assert text == old(text) + (Blobs(ss[..i]) + (Word(|ss[i]|) + ss[i]));
        i := i + 1;
      }
      assert ss[..|ss|] == ss;
    }
  }

  lemma {:induction false} BlobsLenAppend(a: seq<Data>, b: seq<Data>)
    ensures BlobsLen(a + b) == BlobsLen(a) + BlobsLen(b)
  {
    if a == [] {
      assert a + b == b;
    } else {
      assert (a + b)[1..] == a[1..] + b;
      BlobsLenAppend(a[1..], b);
    }
  }

  lemma WordsNone()
    ensures Words([]) == []
  {
  }

  lemma PairsNone()
    ensures Pairs([]) == []
  {
  }

  lemma StringsNone()
    ensures Strings([]) == [] && StringsLen([]) == 0 && Blobs([]) == []
  {
  }
}
