/** serverHelloMsg as the source runs it: lengths first, a cursor over one buffer, parsing in place. */
module ServerHelloMsg {
  import opened Bytes
  import opened Encoding
  import opened ServerHello
  import C = ClientHello

  // ----- Lengths

  lemma Sizes(i: nat, m: Hello)
    ensures i == 0 ==> |E(i, m)| + Unreached(m) == if m.nextProtoNeg then 4 + StringsLen(m.nextProtos) else 0
    ensures i == 1 ==> |E(i, m)| == if m.ocspStapling then 4 else 0
    ensures i == 2 ==> |E(i, m)| == if m.ticketSupported then 4 else 0
    ensures i == 3 ==> |E(i, m)| == if m.secureRenegotiationSupported then 5 + |m.secureRenegotiation| else 0
    ensures i == 4 ==> |E(i, m)| == if m.alpnProtocol == [] then 0 else 7 + |m.alpnProtocol|
    ensures i == 5 ==> |E(i, m)| == if m.scts == [] then 0 else 6 + BlobsLen(m.scts)
  {
    CutLength(m.nextProtos);
    BlobsLength(m.scts);
  }

  lemma FromStep(i: nat, m: Hello)
    requires i < 6
    ensures From(i, m) == E(i, m) + From(i + 1, m)
  {
  }

  lemma NoMore(m: Hello)
    ensures From(6, m) == []
  {
  }

  lemma FromSize(m: Hello)
    ensures |From(0, m)| == |E(0, m)| + |E(1, m)| + |E(2, m)| + |E(3, m)| + |E(4, m)| + |E(5, m)|
  {
    hide E;
    FromStep(0, m); FromStep(1, m); FromStep(2, m); FromStep(3, m); FromStep(4, m); FromStep(5, m);
    NoMore(m);
    hide From;
  }

  /** The cursor stops short of the end exactly when a next protocol is longer than its length byte can say. */
  lemma CursorExact(m: Hello)
    ensures Unreached(m) == 0 <==> (m.nextProtoNeg ==> forall s | s in m.nextProtos :: |s| <= 255)
  {
    CutLength(m.nextProtos);
  }

  lemma NothingUnreached(m: Hello)
    ensures From(0, m) == [] ==> Unreached(m) == 0
  {
    FromSize(m);
    hide From;
  }

  class Msg {
    var raw: Option<Data>
    var m: Hello

    constructor (m: Hello)
      ensures raw == None && this.m == m
    {
      raw, this.m := None, m;
    }

    /**
     The number of extensions, the length of all of them, and the lengths of the two lists; not ok
     where the source panics.
     */
    method Measure() returns (ok: bool, numExtensions: nat, extensionsLength: nat, nextProtoLen: nat, sctLen: nat)
      ensures ok == (|m.alpnProtocol| < 256)
      ensures ok ==> extensionsLength == |From(0, m)| + Unreached(m) && (numExtensions > 0 <==> From(0, m) != [])
      ensures ok ==>
                && nextProtoLen == (if m.nextProtoNeg then StringsLen(m.nextProtos) else 0)
                && sctLen == BlobsLen(m.scts)
    {
      hide From, E, Unreached, StringsLen, BlobsLen;
      FromSize(m);
      NothingUnreached(m);
      ok, sctLen := true, 0;
      numExtensions, extensionsLength, nextProtoLen := MeasureFirst();
      if |m.alpnProtocol| > 0 {
        if |m.alpnProtocol| >= 256 {
          return false, 0, 0, 0, 0;
        }
        extensionsLength := extensionsLength + 2 + 1 + |m.alpnProtocol|;
        numExtensions := numExtensions + 1;
      }
      Sizes(4, m);
      NoBlobs();
      if |m.scts| > 0 {
        sctLen := MeasureScts();
        extensionsLength := extensionsLength + 2 + sctLen;
        numExtensions := numExtensions + 1;
      }
      Sizes(5, m);
      if numExtensions > 0 {
        extensionsLength := extensionsLength + 4 * numExtensions;
      }
    }

    method MeasureFirst() returns (numExtensions: nat, extensionsLength: nat, nextProtoLen: nat)
      ensures extensionsLength + 4 * numExtensions == |E(0, m)| + Unreached(m) + |E(1, m)| + |E(2, m)| + |E(3, m)|
      ensures numExtensions == 0 ==> extensionsLength == 0
      ensures numExtensions > 0 ==> |E(0, m)| + |E(1, m)| + |E(2, m)| + |E(3, m)| > 0
      ensures nextProtoLen == (if m.nextProtoNeg then StringsLen(m.nextProtos) else 0)
    {
      numExtensions, extensionsLength, nextProtoLen := 0, 0, 0;
      assert m.nextProtoNeg ==> |E(0, m)| > 0;
      hide E, Unreached, StringsLen;
      if m.nextProtoNeg {
        numExtensions := numExtensions + 1;
        nextProtoLen := MeasureProtocols();
        extensionsLength := extensionsLength + nextProtoLen;
      }
      Sizes(0, m);
      if m.ocspStapling {
        numExtensions := numExtensions + 1;
      }
      Sizes(1, m);
      if m.ticketSupported {
        numExtensions := numExtensions + 1;
      }
      Sizes(2, m);
      if m.secureRenegotiationSupported {
        extensionsLength := extensionsLength + 1 + |m.secureRenegotiation|;
        numExtensions := numExtensions + 1;
      }
      Sizes(3, m);
    }

    method MeasureProtocols() returns (n: nat)
      ensures n == StringsLen(m.nextProtos)
    {
      var ss := m.nextProtos;
      var i := 0;
      n := 0;
      while i < |ss|
        invariant 0 <= i <= |ss| && n + i == StringsLen(ss[..i])
      {
        assert ss[..i + 1] == ss[..i] + [ss[i]];
        StringsAppend(ss[..i], ss[i]);
        n := n + |ss[i]|;
        i := i + 1;
      }
      assert ss[..|ss|] == ss;
      n := n + |ss|;
    }

    method MeasureScts() returns (n: nat)
      ensures n == BlobsLen(m.scts)
    {
      var ss := m.scts;
      var i := 0;
      n := 0;
      while i < |ss|
        invariant 0 <= i <= |ss| && n == BlobsLen(ss[..i])
      {
        assert ss[..i + 1] == ss[..i] + [ss[i]];
        BlobsAppend(ss[..i], ss[i]);
        n := n + |ss[i]| + 2;
        i := i + 1;
      }
      assert ss[..|ss|] == ss;
    }

    /** marshal: the cursor stays inside the buffer. */
    method Marshal() returns (r: Option<Data>)
      modifies this`raw
      ensures r == if old(raw).Some? then old(raw) else Encode(m)
      ensures raw == if r.Some? then r else old(raw)
    {
      hide From, Fields, Unreached, StringsLen, BlobsLen;
      if raw.Some? {
        return raw;
      }
      var ok, numExtensions, extensionsLength, nextProtoLen, sctLen := Measure();
      if !ok {
        return None;
      }
      var length := 38 + |m.sessionID|;
      if numExtensions > 0 {
        length := length + 2 + extensionsLength;
      }
      FieldsSize(m);
      NothingUnreached(m);
      var x := WriteAll(length, numExtensions, extensionsLength, nextProtoLen, sctLen);
      AssembleExtensions(m, numExtensions > 0);
      raw := Some(x);
      r := Some(x);
    }

    method WriteAll(length: nat, numExtensions: nat, extensionsLength: nat, nextProtoLen: nat, sctLen: nat)
        returns (x: Data)
      requires (numExtensions > 0 <==> From(0, m) != []) && extensionsLength == |From(0, m)| + Unreached(m)
      requires length == |Fields(m)| + if numExtensions > 0 then 2 + extensionsLength else 0
      requires numExtensions == 0 ==> Unreached(m) == 0
      requires nextProtoLen == (if m.nextProtoNeg then StringsLen(m.nextProtos) else 0) && sctLen == BlobsLen(m.scts)
      ensures x == C.Header(2, length) + Fields(m) + (if numExtensions > 0 then Word(extensionsLength) else [])
              + From(0, m)
                   + Zeros(Unreached(m))
    {
      hide From, Fields, Cursor.Valid, Unreached, Word, StringsLen, BlobsLen;
      var cur := new Cursor(4 + length);
      cur.Put([2, length / 0x1_0000 % 256, length / 256 % 256, length % 256]);
      assert cur.text == C.Header(2, length);
      PutFields(cur);
      if numExtensions > 0 {
        cur.Put(Word(extensionsLength));
      }
      ghost var head := cur.text;
      assert head == C.Header(2, length) + Fields(m) + (if numExtensions > 0 then Word(extensionsLength) else []);
      PutExtensions(cur, nextProtoLen, sctLen);
      x := cur.Bytes();
    }

    method PutFields(cur: Cursor)
      requires cur.Valid() && |cur.text| + |Fields(m)| <= cur.size
      modifies cur, cur.buf
      ensures cur.Valid() && cur.text == old(cur.text) + Fields(m)
    {
      var m := this.m;
      FieldsSize(m);
      hide Fields, Cursor.Valid, Word;
      ghost var before := cur.text;
      cur.Put(Word(m.vers));
      cur.Put(Fixed(m.random, 32));
      cur.Put([|m.sessionID| % 256]);
      cur.Put(m.sessionID);
      cur.Put(Word(m.cipherSuite));
      cur.Put([m.compressionMethod]);
      FieldsAre(m, before);
    }

    method PutExtensions(cur: Cursor, nextProtoLen: nat, sctLen: nat)
      requires cur.Valid() && |cur.text| + |From(0, m)| <= cur.size
      requires nextProtoLen == (if m.nextProtoNeg then StringsLen(m.nextProtos) else 0) && sctLen == BlobsLen(m.scts)
      modifies cur, cur.buf
      ensures cur.Valid() && cur.text == old(cur.text) + From(0, m)
    {
      var m := this.m;
      hide From, E, Cursor.Valid, UpTo, StringsLen, BlobsLen;
      ghost var head := cur.text;
      UpToNothing(m, head);
      Left(0, m);
      PutNextProtos(cur, nextProtoLen);
      UpToNext(0, m, head);
      PutStatus(cur);
      UpToNext(1, m, head);
      PutTicket(cur);
      UpToNext(2, m, head);
      PutRenegotiation(cur);
      UpToNext(3, m, head);
      PutProtocol(cur);
      UpToNext(4, m, head);
      PutScts(cur, sctLen);
      UpToNext(5, m, head);
      UpToAll(m);
    }

    method PutNextProtos(cur: Cursor, nextProtoLen: nat)
      requires cur.Valid() && |cur.text| + |E(0, m)| <= cur.size
      requires nextProtoLen == (if m.nextProtoNeg then StringsLen(m.nextProtos) else 0)
      modifies cur, cur.buf
      ensures cur.Valid() && cur.text == old(cur.text) + E(0, m)
    {
      hide Cursor.Valid, CutStrings, StringsLen, Word, Excess;
      var m := this.m;
      ghost var w := cur.text;
      assert w + [] == w;
      if m.nextProtoNeg {
        cur.Put(Word(13172));
        cur.Put(Word(nextProtoLen));
        var i := 0;
        ghost var start := cur.text;
        CutNone();
        assert start + [] == start;
        while i < |m.nextProtos|
          invariant 0 <= i <= |m.nextProtos| && cur.Valid()
          invariant cur.text == start + CutStrings(m.nextProtos[..i])
        {
          var v := m.nextProtos[i];
          var l := |v|;
          if l > 255 {
            l := 255;
          }
          assert v[..l] == Cut(v);
          assert m.nextProtos[..i + 1] == m.nextProtos[..i] + [v];
          assert m.nextProtos == m.nextProtos[..i + 1] + m.nextProtos[i + 1..];
          CutAppend(m.nextProtos[..i], v);
          CutJoin(m.nextProtos[..i + 1], m.nextProtos[i + 1..]);
          cur.Put([l]);
          cur.Put(v[..l]);
          assert cur.text == start + (CutStrings(m.nextProtos[..i]) + ([|Cut(v)|] + Cut(v)));
          i := i + 1;
        }
        assert m.nextProtos[..|m.nextProtos|] == m.nextProtos;
        assert cur.text == w + (Word(13172) + Word(nextProtoLen) + CutStrings(m.nextProtos));
      }
    }

    method PutStatus(cur: Cursor)
      requires cur.Valid() && |cur.text| + |E(1, m)| <= cur.size
      modifies cur, cur.buf
      ensures cur.Valid() && cur.text == old(cur.text) + E(1, m)
    {
      var m := this.m;
      hide Cursor.Valid;
      ghost var w := cur.text;
      assert w + [] == w;
      if m.ocspStapling {
        cur.Put([0, 5]);
        cur.Skip(2);
        assert Ext(5, []) == [0, 5] + Zeros(2);
      }
    }

    method PutTicket(cur: Cursor)
      requires cur.Valid() && |cur.text| + |E(2, m)| <= cur.size
      modifies cur, cur.buf
      ensures cur.Valid() && cur.text == old(cur.text) + E(2, m)
    {
      var m := this.m;
      hide Cursor.Valid;
      ghost var w := cur.text;
      assert w + [] == w;
      if m.ticketSupported {
        cur.Put([0, 35]);
        cur.Skip(2);
        assert Ext(35, []) == [0, 35] + Zeros(2);
      }
    }

    method PutRenegotiation(cur: Cursor)
      requires cur.Valid() && |cur.text| + |E(3, m)| <= cur.size
      modifies cur, cur.buf
      ensures cur.Valid() && cur.text == old(cur.text) + E(3, m)
    {
      var m := this.m;
      Wrote3(m, cur.text);
      Sizes(3, m);
      hide Cursor.Valid, E;
      if m.secureRenegotiationSupported {
        cur.Put([0xff, 1]);
        cur.Put([0, (|m.secureRenegotiation| + 1) % 256]);
        cur.Put([|m.secureRenegotiation| % 256]);
        cur.Put(m.secureRenegotiation);
      }
    }

    method PutProtocol(cur: Cursor)
      requires cur.Valid() && |cur.text| + |E(4, m)| <= cur.size
      modifies cur, cur.buf
      ensures cur.Valid() && cur.text == old(cur.text) + E(4, m)
    {
      var m := this.m;
      Wrote4(m, cur.text);
      Sizes(4, m);
      hide Cursor.Valid, E, Word;
      var alpnLen := |m.alpnProtocol|;
      if alpnLen > 0 {
        cur.Put([0, 16]);
        var l := 2 + 1 + alpnLen;
        cur.Put(Word(l));
        l := l - 2;
        cur.Put(Word(l));
        l := l - 1;
        cur.Put([l % 256]);
        cur.Put(m.alpnProtocol);
      }
    }

    method PutScts(cur: Cursor, sctLen: nat)
      requires cur.Valid() && |cur.text| + |E(5, m)| <= cur.size && sctLen == BlobsLen(m.scts)
      modifies cur, cur.buf
      ensures cur.Valid() && cur.text == old(cur.text) + E(5, m)
    {
      hide Cursor.Valid, E, Word, Blobs, BlobsLen;
      var m := this.m;
      Wrote5(m, cur.text);
      Sizes(5, m);
      SomeLen(m.scts);
      if sctLen > 0 {
        cur.Put([0, 18]);
        var l := sctLen + 2;
        cur.Put(Word(l));
        cur.Put(Word(sctLen));
        cur.PutBlobs(m.scts);
      }
    }

    // ----- Parsing

    method Unmarshal(data: Data) returns (ok: bool)
      modifies this
      ensures ok == DecodeInto(old(m), data).Some?
      ensures ok ==> m == DecodeInto(old(m), data).value && raw == Some(data)
    {
      hide DecodeExtensions, ToWord;
      if |data| < 42 {
        return false;
      }
      raw := Some(data);
      var vers, random := ToWord(data[4], data[5]), data[6..38];
      var sessionIDLen: nat := data[38];
      if sessionIDLen > 32 || |data| < 39 + sessionIDLen {
        return false;
      }
      var sessionID := data[39..39 + sessionIDLen];
      var rest := data[39 + sessionIDLen..];
      if |rest| < 3 {
        return false;
      }
      m := m.(vers := vers, random := random, sessionID := sessionID, cipherSuite := ToWord(rest[0], rest[1]),
              compressionMethod := rest[2], nextProtoNeg := false, nextProtos := [], ocspStapling := false,
              scts := [], ticketSupported := false, alpnProtocol := []);
      ok := UnmarshalExtensions(rest[3..]);
    }

    method UnmarshalExtensions(data: Data) returns (ok: bool)
      modifies this`m
      ensures ok == DecodeExtensions(old(m), data).Some?
      ensures ok ==> m == DecodeExtensions(old(m), data).value
    {
      hide Apply, ToWord;
      if |data| == 0 {
        return true;
      }
      if |data| < 2 {
        return false;
      }
      var rest := data[2..];
      if |rest| != ToWord(data[0], data[1]) {
        return false;
      }
      while |rest| != 0
        invariant ApplyAll(old(m), data[2..]) == ApplyAll(m, rest)
        decreases |rest|
      {
        if |rest| < 4 {
          return false;
        }
        var extension, length := ToWord(rest[0], rest[1]), ToWord(rest[2], rest[3]);
        if |rest| - 4 < length {
          return false;
        }
        var applied := UnmarshalExtension(extension, rest[4..4 + length]);
        if !applied {
          return false;
        }
        rest := rest[4 + length..];
      }
      ok := true;
    }

    method UnmarshalExtension(extension: word, d: Data) returns (ok: bool)
      modifies this`m
      ensures ok == Apply(old(m), extension, d).Some?
      ensures ok ==> m == Apply(old(m), extension, d).value
    {
      hide ToStrings, ToBlobs, ToWord;
      ok := true;
      if extension == C.NEXT_PROTO_NEG {
        ok := ReadProtocols(d);
      } else if extension == C.STATUS_REQUEST {
        if |d| > 0 {
          return false;
        }
        m := m.(ocspStapling := true);
      } else if extension == C.SESSION_TICKET {
        if |d| > 0 {
          return false;
        }
        m := m.(ticketSupported := true);
      } else if extension == C.RENEGOTIATION_INFO {
        if |d| == 0 || d[0] != |d| - 1 {
          return false;
        }
        m := m.(secureRenegotiation := d[1..], secureRenegotiationSupported := true);
      } else if extension == C.ALPN {
        if |d| < 3 || ToWord(d[0], d[1]) != |d| - 2 {
          return false;
        }
        var e := d[2..];
        if e[0] != |e| - 1 {
          return false;
        }
        e := e[1..];
        if |e| == 0 {
          return false;
        }
        assert e == d[3..];
        m := m.(alpnProtocol := e);
      } else if extension == C.SCT {
        if |d| < 2 || |d| - 2 != ToWord(d[0], d[1]) || |d| == 2 {
          return false;
        }
        ok := ReadScts(d[2..]);
      }
    }

    method ReadProtocols(data: Data) returns (ok: bool)
      modifies this`m
      ensures ok == ToStrings(data).Some?
      ensures ok ==> m == old(m).(nextProtoNeg := true, nextProtos := old(m).nextProtos + ToStrings(data).value)
    {
      m := m.(nextProtoNeg := true);
      var d := data;
      ghost var seen: seq<Data> := [];
      assert old(m).nextProtos + [] == m.nextProtos;
      Behind0(ToStrings(data));
      while |d| > 0
        invariant m == old(m).(nextProtoNeg := true, nextProtos := old(m).nextProtos + seen)
        invariant ToStrings(data) == Behind(seen, ToStrings(d))
        decreases |d|
      {
        var l := d[0];
        var s := d[1..];
        if l == 0 || l > |s| {
          return false;
        }
        Behind1(seen, d[1..1 + l], ToStrings(d[1 + l..]));
        assert s[..l] == d[1..1 + l] && s[l..] == d[1 + l..];
        assert old(m).nextProtos + seen + [s[..l]] == old(m).nextProtos + (seen + [s[..l]]);
        m := m.(nextProtos := m.nextProtos + [s[..l]]);
        seen := seen + [s[..l]];
        d := s[l..];
      }
      assert seen + [] == seen;
      ok := true;
    }

    method ReadScts(data: Data) returns (ok: bool)
      modifies this`m
      ensures ok == ToBlobs(data).Some?
      ensures ok ==> m == old(m).(scts := ToBlobs(data).value)
    {
      hide ToWord;
      m := m.(scts := []);
      var d := data;
      Behind0(ToBlobs(data));
      while |d| != 0
        invariant m == old(m).(scts := m.scts)
        invariant ToBlobs(data) == Behind(m.scts, ToBlobs(d))
        decreases |d|
      {
        if |d| < 2 {
          return false;
        }
        var sctLen := ToWord(d[0], d[1]);
        var s := d[2..];
        if sctLen == 0 || |s| < sctLen {
          return false;
        }
        Behind1(m.scts, d[2..2 + sctLen], ToBlobs(d[2 + sctLen..]));
        assert s[..sctLen] == d[2..2 + sctLen] && s[sctLen..] == d[2 + sctLen..];
        m := m.(scts := m.scts + [s[..sctLen]]);
        d := s[sctLen..];
      }
      assert m.scts + [] == m.scts;
      ok := true;
    }
  }

  // ----- What each piece of writing amounts to

  lemma NoBlobs()
    ensures BlobsLen([]) == 0
  {
  }

  lemma CutNone()
    ensures CutStrings([]) == []
  {
  }

  lemma {:induction false} CutJoin(a: seq<Data>, b: seq<Data>)
    ensures |CutStrings(a + b)| == |CutStrings(a)| + |CutStrings(b)|
  {
    if a == [] {
      assert a + b == b;
    } else {
      assert (a + b)[1..] == a[1..] + b;
      CutJoin(a[1..], b);
    }
  }

  lemma SomeLen(ss: seq<Data>)
    ensures BlobsLen(ss) > 0 <==> ss != []
  {
  }

  lemma FieldsSize(m: Hello)
    ensures |Fields(m)| == 38 + |m.sessionID|
  {
  }

  lemma FieldsAre(m: Hello, w: Data)
    ensures w + Word(m.vers) + Fixed(m.random, 32) + [|m.sessionID| % 256] + m.sessionID + Word(m.cipherSuite)
            + [m.compressionMethod]
            == w + Fields(m)
  {
    hide Word, Fixed;
  }

  lemma AssembleExtensions(m: Hello, some: bool)
    requires (some <==> From(0, m) != []) && (!some ==> Unreached(m) == 0)
    ensures Encode(m).Some? ==>
              Encode(m).value == C.Header(2, |Body(m)|) + Fields(m)
                                 + (if some then Word(|From(0, m)| + Unreached(m)) else []) + From(0, m)
                                     + Zeros(Unreached(m))
    ensures |Body(m)| == |Fields(m)| + if some then 2 + |From(0, m)| + Unreached(m) else 0
  {
    hide From, Fields, Unreached, Word;
    var h, f, x, z := C.Header(2, |Body(m)|), Fields(m), From(0, m), Zeros(Unreached(m));
    if some {
      var n := Word(|From(0, m)| + Unreached(m));
      assert h + (f + (n + x + z)) == h + f + n + x + z;
    } else {
      assert h + (f + []) == h + f + [] + x + z;
    }
  }

  lemma Wrote3(m: Hello, w: Data)
    ensures var n := |m.secureRenegotiation|;
            (if m.secureRenegotiationSupported then w + [0xff, 1] + [0, (n + 1) % 256] + [n % 256]
                + m.secureRenegotiation else w)
            == w + E(3, m)
  {
  }

  lemma Wrote4(m: Hello, w: Data)
    ensures var n := |m.alpnProtocol|;
            (if n == 0 then w else w + [0, 16] + Word(n + 3) + Word(n + 1) + [n % 256] + m.alpnProtocol) == w + E(4, m)
  {
    assert Word(16) == [0, 16];
  }

  lemma Wrote5(m: Hello, w: Data)
    ensures var n := BlobsLen(m.scts);
            (if m.scts == [] then w else w + [0, 18] + Word(n + 2) + Word(n) + Blobs(m.scts)) == w + E(5, m)
  {
    BlobsLength(m.scts);
    assert Word(18) == [0, 18];
    hide Blobs, BlobsLen;
  }

  lemma UpToNext(i: nat, m: Hello, head: Data)
    requires i < 6
    ensures head + UpTo(i, m) + E(i, m) == head + UpTo(i + 1, m)
    ensures |From(0, m)| == |UpTo(i + 1, m)| + |From(i + 1, m)|
    ensures i < 5 ==> |From(i + 1, m)| >= |E(i + 1, m)|
  {
    hide E;
    UpToFrom(i + 1, m);
    assert head + (UpTo(i, m) + E(i, m)) == head + UpTo(i, m) + E(i, m);
  }

  lemma UpToNothing(m: Hello, head: Data)
    ensures head == head + UpTo(0, m)
  {
  }

  lemma Left(i: nat, m: Hello)
    requires i < 6
    ensures |From(i, m)| >= |E(i, m)|
  {
    hide E;
  }

  lemma UpToAll(m: Hello)
    ensures UpTo(6, m) == From(0, m)
  {
    UpToFrom(6, m);
    NoMore(m);
    assert UpTo(6, m) + [] == UpTo(6, m);
  }
}
