/** clientHelloMsg as the source runs it: lengths computed first, then a cursor over one buffer; parsing in place. */
module ClientHelloMsg {
  import opened Bytes
  import opened Encoding
  import opened ClientHello

  // ----- Lengths

  /** Four bytes of header, and the body. */
  lemma Sizes(i: nat, m: Hello)
    ensures i == 0 ==> |E(i, m)| == if m.nextProtoNeg then 4 else 0
    ensures i == 1 ==> |E(i, m)| == if m.serverName == [] then 0 else 9 + |m.serverName|
    ensures i == 2 ==> |E(i, m)| == if m.ocspStapling then 9 else 0
    ensures i == 3 ==> |E(i, m)| == if m.supportedCurves == [] then 0 else 6 + 2 * |m.supportedCurves|
    ensures i == 4 ==> |E(i, m)| == if m.supportedPoints == [] then 0 else 5 + |m.supportedPoints|
    ensures i == 5 ==> |E(i, m)| == if m.ticketSupported then 4 + |m.sessionTicket| else 0
    ensures i == 6 ==> |E(i, m)| == if m.signatureAndHashes == [] then 0 else 6 + 2 * |m.signatureAndHashes|
    ensures i == 7 ==> |E(i, m)| == if m.secureRenegotiationSupported then 5 + |m.secureRenegotiation| else 0
    ensures i == 8 ==> |E(i, m)| == if m.alpnProtocols == [] then 0 else 6 + StringsLen(m.alpnProtocols)
    ensures i == 9 ==> |E(i, m)| == if m.scts then 4 else 0
  {
    StringsLength(m.alpnProtocols);
  }

  lemma NoProtocols()
    ensures Short([])
  {
  }

  lemma FromSize(m: Hello)
    ensures |From(0, m)| == |E(0, m)| + |E(1, m)| + |E(2, m)| + |E(3, m)| + |E(4, m)|
                          + |E(5, m)| + |E(6, m)| + |E(7, m)| + |E(8, m)| + |E(9, m)|
  {
    hide E;
    FromStep(0, m); FromStep(1, m); FromStep(2, m); FromStep(3, m); FromStep(4, m);
    FromStep(5, m); FromStep(6, m); FromStep(7, m); FromStep(8, m); FromStep(9, m);
    hide From;
    assert |From(10, m)| == 0 by { NoMore(m); }
  }

  lemma FromStep(i: nat, m: Hello)
    requires i < 10
    ensures From(i, m) == E(i, m) + From(i + 1, m)
  {
  }

  lemma NoMore(m: Hello)
    ensures From(10, m) == []
  {
  }

  /** The bytes of 2n, from n shifted. */
  lemma Doubled(n: nat)
    ensures Word(2 * n) == [n / 128 % 256, 2 * n % 256]
  {
    assert 2 * n / 256 == n / 128;
  }

  class Msg {
    var raw: Option<Data>
    var m: Hello

    constructor (m: Hello)
      ensures raw == None && this.m == m
    {
      raw, this.m := None, m;
    }

    /** The number of extensions and the length of all of them, headers included; not ok where the source panics. */
    method Measure() returns (ok: bool, numExtensions: nat, extensionsLength: nat)
      ensures ok == Short(m.alpnProtocols)
      ensures ok ==> extensionsLength == |From(0, m)| && (numExtensions > 0 <==> From(0, m) != [])
    {
      hide From, E, Short;
      FromSize(m);
      ok := true;
      numExtensions, extensionsLength := MeasureFirst();
      numExtensions, extensionsLength := MeasureSecond(numExtensions, extensionsLength);
      if |m.alpnProtocols| > 0 {
        extensionsLength := extensionsLength + 2;
        var n;
        ok, n := MeasureProtocols();
        if !ok {
          return;
        }
        extensionsLength := extensionsLength + n;
        numExtensions := numExtensions + 1;
      }
      Sizes(8, m);
      NoProtocols();
      if m.scts {
        numExtensions := numExtensions + 1;
      }
      Sizes(9, m);
      if numExtensions > 0 {
        extensionsLength := extensionsLength + 4 * numExtensions;
      }
    }

    method MeasureFirst() returns (numExtensions: nat, extensionsLength: nat)
      ensures extensionsLength + 4 * numExtensions == |E(0, m)| + |E(1, m)| + |E(2, m)| + |E(3, m)| + |E(4, m)|
      ensures numExtensions == 0 ==> extensionsLength == 0
    {
      hide E;
      numExtensions, extensionsLength := 0, 0;
      if m.nextProtoNeg {
        numExtensions := numExtensions + 1;
      }
      Sizes(0, m);
      if m.ocspStapling {
        extensionsLength := extensionsLength + 1 + 2 + 2;
        numExtensions := numExtensions + 1;
      }
      Sizes(2, m);
      if |m.serverName| > 0 {
        extensionsLength := extensionsLength + 5 + |m.serverName|;
        numExtensions := numExtensions + 1;
      }
      Sizes(1, m);
      if |m.supportedCurves| > 0 {
        extensionsLength := extensionsLength + 2 + 2 * |m.supportedCurves|;
        numExtensions := numExtensions + 1;
      }
      Sizes(3, m);
      if |m.supportedPoints| > 0 {
        extensionsLength := extensionsLength + 1 + |m.supportedPoints|;
        numExtensions := numExtensions + 1;
      }
      Sizes(4, m);
    }

    method MeasureSecond(n: nat, length: nat) returns (numExtensions: nat, extensionsLength: nat)
      ensures extensionsLength + 4 * numExtensions == length + 4 * n + |E(5, m)| + |E(6, m)| + |E(7, m)|
      ensures numExtensions >= n && (numExtensions == n ==> extensionsLength == length)
    {
      hide E;
      numExtensions, extensionsLength := n, length;
      if m.ticketSupported {
        extensionsLength := extensionsLength + |m.sessionTicket|;
        numExtensions := numExtensions + 1;
      }
      Sizes(5, m);
      if |m.signatureAndHashes| > 0 {
        extensionsLength := extensionsLength + 2 + 2 * |m.signatureAndHashes|;
        numExtensions := numExtensions + 1;
      }
      Sizes(6, m);
      if m.secureRenegotiationSupported {
        extensionsLength := extensionsLength + 1 + |m.secureRenegotiation|;
        numExtensions := numExtensions + 1;
      }
      Sizes(7, m);
    }

    method MeasureProtocols() returns (ok: bool, n: nat)
      ensures ok == Short(m.alpnProtocols) && (ok ==> n == StringsLen(m.alpnProtocols))
    {
      var ss := m.alpnProtocols;
      var i := 0;
      n := 0;
      while i < |ss|
        invariant 0 <= i <= |ss| && Short(ss[..i]) && n == StringsLen(ss[..i])
      {
        if |ss[i]| == 0 || |ss[i]| > 255 {
          assert ss[i] in ss;
          return false, 0;
        }
        assert ss[..i + 1] == ss[..i] + [ss[i]];
        StringsAppend(ss[..i], ss[i]);
        n := n + 1 + |ss[i]|;
        i := i + 1;
      }
      assert ss[..|ss|] == ss;
      ok := true;
    }

    /** marshal: the cursor stays inside the buffer and ends exactly at its end. */
    method Marshal() returns (r: Option<Data>)
      modifies this`raw
      ensures r == if old(raw).Some? then old(raw) else Encode(m)
      ensures raw == if r.Some? then r else old(raw)
    {
      hide From, Short, Fields;
      if raw.Some? {
        return raw;
      }
      var ok, numExtensions, extensionsLength := Measure();
      if !ok {
        return None;
      }
      var length := 2 + 32 + 1 + |m.sessionID| + 2 + |m.cipherSuites| * 2 + 1 + |m.compressionMethods|;
      if numExtensions > 0 {
        length := length + 2 + extensionsLength;
      }
      FieldsSize(m);
      var x := Write(length, numExtensions, extensionsLength);
      AssembleExtensions(m, numExtensions > 0);
      raw := Some(x);
      r := Some(x);
    }

    method Write(length: nat, numExtensions: nat, extensionsLength: nat) returns (x: Data)
      requires Short(m.alpnProtocols) && (numExtensions > 0 <==> From(0, m) != []) && extensionsLength == |From(0, m)|
      requires length == |Fields(m)| + if numExtensions > 0 then 2 + extensionsLength else 0
      ensures var n := extensionsLength;
              x == Header(1, length) + Fields(m) + (if numExtensions > 0 then Word(n) else []) + From(0, m)
    {
      hide From, Short, Fields, Cursor.Valid;
      var cur := new Cursor(4 + length);
      cur.Put([1, length / 0x1_0000 % 256, length / 256 % 256, length % 256]);
      assert cur.text == Header(1, length);
      PutFields(cur);
      if numExtensions > 0 {
        cur.Put(Word(extensionsLength));
      }
      ghost var head := cur.text;
      assert head == Header(1, length) + Fields(m) +
                     (if numExtensions > 0 then Word(extensionsLength) else []);
      PutExtensions(cur);
      x := cur.Bytes();
      assert x == head + From(0, m) + Zeros(0) == head + From(0, m);
    }

    method PutFields(cur: Cursor)
      requires cur.Valid() && |cur.text| + |Fields(m)| <= cur.size
      modifies cur, cur.buf
      ensures cur.Valid() && cur.text == old(cur.text) + Fields(m)
    {
      FieldsSize(m);
      var m := this.m;
      hide Fields, Cursor.Valid, Words, Word;
      ghost var before := cur.text;
      cur.Put([m.vers / 256, m.vers % 256]);
      cur.Put(Fixed(m.random, 32));
      cur.Put([|m.sessionID| % 256]);
      cur.Put(m.sessionID);
      cur.Put([|m.cipherSuites| / 128 % 256, 2 * |m.cipherSuites| % 256]);
      cur.PutWords(m.cipherSuites);
      cur.Put([|m.compressionMethods| % 256]);
      cur.Put(m.compressionMethods);
      Doubled(|m.cipherSuites|);
      FieldsAre(m, before);
    }

    /** All extensions, in the order of the source. */
    method PutExtensions(cur: Cursor)
      requires cur.Valid() && |cur.text| + |From(0, m)| == cur.size && Short(m.alpnProtocols)
      modifies cur, cur.buf
      ensures cur.Valid() && cur.text == old(cur.text) + From(0, m)
    {
      hide From, E, Short, Cursor.Valid, UpTo;
      ghost var head := cur.text;
      UpToNothing(m, head);
      Left(0, m);
      PutNextProto(cur);
      UpToNext(0, m, head);
      PutServerName(cur);
      UpToNext(1, m, head);
      PutStatusRequest(cur);
      UpToNext(2, m, head);
      PutCurves(cur);
      UpToNext(3, m, head);
      PutPoints(cur);
      UpToNext(4, m, head);
      PutTicket(cur);
      UpToNext(5, m, head);
      PutAlgorithms(cur);
      UpToNext(6, m, head);
      PutRenegotiation(cur);
      UpToNext(7, m, head);
      PutProtocols(cur);
      UpToNext(8, m, head);
      PutSct(cur);
      UpToNext(9, m, head);
      UpToAll(m);
    }

    method PutNextProto(cur: Cursor)
      requires cur.Valid() && |cur.text| + |E(0, m)| <= cur.size
      modifies cur, cur.buf
      ensures cur.Valid() && cur.text == old(cur.text) + E(0, m)
    {
      var m := this.m;
      hide Cursor.Valid, Word;
      if m.nextProtoNeg {
        cur.Put([13172 / 256, 13172 % 256]);
        cur.Skip(2);
      }
      Wrote0(m, old(cur.text));
    }

    method PutServerName(cur: Cursor)
      requires cur.Valid() && |cur.text| + |E(1, m)| <= cur.size
      modifies cur, cur.buf
      ensures cur.Valid() && cur.text == old(cur.text) + E(1, m)
    {
      var m := this.m;
      hide Cursor.Valid, Word;
      Sizes(1, m);
      Wrote1(m, cur.text);
      hide E;
      if |m.serverName| > 0 {
        var l := |m.serverName| + 5;
        cur.Put([0, 0]);
        cur.Put(Word(l));
        cur.Put(Word(|m.serverName| + 3));
        cur.Skip(1);
        cur.Put(Word(|m.serverName|));
        cur.Put(m.serverName);
      }
    }

    method PutStatusRequest(cur: Cursor)
      requires cur.Valid() && |cur.text| + |E(2, m)| <= cur.size
      modifies cur, cur.buf
      ensures cur.Valid() && cur.text == old(cur.text) + E(2, m)
    {
      var m := this.m;
      hide Cursor.Valid, Word;
      if m.ocspStapling {
        cur.Put([0, 5]);
        cur.Put([0, 5, 1]);
        cur.Skip(4);
      }
      Wrote2(m, old(cur.text));
    }

    method PutCurves(cur: Cursor)
      requires cur.Valid() && |cur.text| + |E(3, m)| <= cur.size
      modifies cur, cur.buf
      ensures cur.Valid() && cur.text == old(cur.text) + E(3, m)
    {
      var m := this.m;
      hide Cursor.Valid, Words, Word;
      Wrote3(m, cur.text);
      hide E;
      if |m.supportedCurves| > 0 {
        var l := 2 + 2 * |m.supportedCurves|;
        cur.Put([0, 10]);
        cur.Put(Word(l));
        l := l - 2;
        cur.Put(Word(l));
        cur.PutWords(m.supportedCurves);
      }
    }

    method PutPoints(cur: Cursor)
      requires cur.Valid() && |cur.text| + |E(4, m)| <= cur.size
      modifies cur, cur.buf
      ensures cur.Valid() && cur.text == old(cur.text) + E(4, m)
    {
      var m := this.m;
      hide Cursor.Valid, Word;
      Wrote4(m, cur.text);
      hide E;
      if |m.supportedPoints| > 0 {
        var l := 1 + |m.supportedPoints|;
        cur.Put([0, 11]);
        cur.Put(Word(l));
        l := l - 1;
        cur.Put([l % 256]);
        cur.Put(m.supportedPoints);
      }
    }

    method PutTicket(cur: Cursor)
      requires cur.Valid() && |cur.text| + |E(5, m)| <= cur.size
      modifies cur, cur.buf
      ensures cur.Valid() && cur.text == old(cur.text) + E(5, m)
    {
      var m := this.m;
      hide Cursor.Valid, Word;
      Wrote5(m, cur.text);
      hide E;
      if m.ticketSupported {
        var l := |m.sessionTicket|;
        cur.Put([0, 35]);
        cur.Put(Word(l));
        cur.Put(m.sessionTicket);
      }
    }

    method PutAlgorithms(cur: Cursor)
      requires cur.Valid() && |cur.text| + |E(6, m)| <= cur.size
      modifies cur, cur.buf
      ensures cur.Valid() && cur.text == old(cur.text) + E(6, m)
    {
      var m := this.m;
      hide Cursor.Valid, Pairs, Word;
      Wrote6(m, cur.text);
      hide E;
      if |m.signatureAndHashes| > 0 {
        var l := 2 + 2 * |m.signatureAndHashes|;
        cur.Put([0, 13]);
        cur.Put(Word(l));
        l := l - 2;
        cur.Put(Word(l));
        cur.PutPairs(m.signatureAndHashes);
      }
    }

    method PutRenegotiation(cur: Cursor)
      requires cur.Valid() && |cur.text| + |E(7, m)| <= cur.size
      modifies cur, cur.buf
      ensures cur.Valid() && cur.text == old(cur.text) + E(7, m)
    {
      var m := this.m;
      hide Cursor.Valid, Word;
      Wrote7(m, cur.text);
      hide E;
      if m.secureRenegotiationSupported {
        cur.Put([0xff, 1]);
        cur.Put([0, (|m.secureRenegotiation| + 1) % 256]);
        cur.Put([|m.secureRenegotiation| % 256]);
        cur.Put(m.secureRenegotiation);
      }
    }

    /** The two lengths are filled in after the strings. */
    method PutProtocols(cur: Cursor)
      requires cur.Valid() && |cur.text| + |E(8, m)| <= cur.size
      modifies cur, cur.buf
      ensures cur.Valid() && cur.text == old(cur.text) + E(8, m)
    {
      var m := this.m;
      hide Cursor.Valid, Strings, StringsLen, Word;
      Sizes(8, m);
      ghost var w := cur.text;
      Wrote8(m, w);
      hide E;
      StringsLength(m.alpnProtocols);
      if |m.alpnProtocols| > 0 {
        cur.Put([0, 16]);
        PosIsLength(cur);
        var at := cur.pos;
        cur.Skip(4);
        var n := cur.PutStrings(m.alpnProtocols);
        PatchLengths(cur, at, n, w, Strings(m.alpnProtocols));
      }
    }

    method PutSct(cur: Cursor)
      requires cur.Valid() && |cur.text| + |E(9, m)| <= cur.size
      modifies cur, cur.buf
      ensures cur.Valid() && cur.text == old(cur.text) + E(9, m)
    {
      var m := this.m;
      hide Cursor.Valid, Word;
      if m.scts {
        cur.Put([0, 18]);
        cur.Skip(2);
      }
      Wrote9(m, old(cur.text));
    }

    // ----- Parsing

    method Unmarshal(data: Data) returns (ok: bool)
      modifies this
      ensures ok == DecodeInto(old(m), data).Some?
      ensures ok ==> m == DecodeInto(old(m), data).value && raw == Some(data)
    {
      hide DecodeSuites, ToWord;
      if |data| < 42 {
        return false;
      }
      raw := Some(data);
      var vers, random := ToWord(data[4], data[5]), data[6..38];
      var sessionIDLen: nat := data[38];
      if sessionIDLen > 32 || |data| < 39 + sessionIDLen {
        return false;
      }
      ok := UnmarshalSuites(vers, random, data[39..39 + sessionIDLen], data[39 + sessionIDLen..]);
    }

    /** unmarshal from the cipher suites on. */
    method UnmarshalSuites(vers: word, random: Data, sessionID: Data, data: Data) returns (ok: bool)
      modifies this`m
      ensures ok == DecodeSuites(old(m), vers, random, sessionID, data).Some?
      ensures ok ==> m == DecodeSuites(old(m), vers, random, sessionID, data).value
    {
      hide ApplyAll, ToWord, ToWords;
      var rest := data;
      if |rest| < 2 {
        return false;
      }
      var cipherSuiteLen: nat := ToWord(rest[0], rest[1]);
      if cipherSuiteLen % 2 == 1 || |rest| < 2 + cipherSuiteLen {
        return false;
      }
      var suites, scsv := ReadSuites(rest[2..2 + cipherSuiteLen]);
      rest := rest[2 + cipherSuiteLen..];
      if |rest| < 1 {
        return false;
      }
      var compressionMethodsLen: nat := rest[0];
      if |rest| < 1 + compressionMethodsLen {
        return false;
      }
      m := m.(vers := vers, random := random, sessionID := sessionID, cipherSuites := suites,
              compressionMethods := rest[1..1 + compressionMethodsLen],
              nextProtoNeg := false, serverName := [], ocspStapling := false, ticketSupported := false,
              sessionTicket := [], signatureAndHashes := [], alpnProtocols := [], scts := false);
      if scsv {
        m := m.(secureRenegotiationSupported := true);
      }
      rest := rest[1 + compressionMethodsLen..];
      ok := UnmarshalExtensions(rest);
    }

    method UnmarshalExtensions(data: Data) returns (ok: bool)
      modifies this`m
      ensures ok == DecodeExtensions(old(m), data).Some?
      ensures ok ==> m == DecodeExtensions(old(m), data).value
    {
      hide Apply, ToWord;
      if |data| == 0 {
        return true;
      }
      if |data| < 2 {
        return false;
      }
      var rest := data[2..];
      if ToWord(data[0], data[1]) != |rest| {
        return false;
      }
      while |rest| != 0
        invariant ApplyAll(old(m), data[2..]) == ApplyAll(m, rest)
        decreases |rest|
      {
        if |rest| < 4 {
          return false;
        }
        var extension, length := ToWord(rest[0], rest[1]), ToWord(rest[2], rest[3]);
        if |rest| - 4 < length {
          return false;
        }
        var applied := UnmarshalExtension(extension, rest[4..4 + length]);
        if !applied {
          return false;
        }
        rest := rest[4 + length..];
      }
      ok := true;
    }

    method UnmarshalExtension(extension: word, d: Data) returns (ok: bool)
      modifies this`m
      ensures ok == Apply(old(m), extension, d).Some?
      ensures ok ==> m == Apply(old(m), extension, d).value
    {
      hide ToWords, ToPairs, ToStrings, HostName, ToWord;
      if extension == SERVER_NAME {
        if |d| < 2 || |d| - 2 != ToWord(d[0], d[1]) {
          return false;
        }
        var name;
        ok, name := ReadHostName(d[2..]);
        if ok {
          m := m.(serverName := name);
        }
      } else if extension == NEXT_PROTO_NEG {
        if |d| > 0 {
          return false;
        }
        m := m.(nextProtoNeg := true);
      } else if extension == STATUS_REQUEST {
        m := m.(ocspStapling := |d| > 0 && d[0] == 1);
      } else if extension == SUPPORTED_CURVES {
        if |d| < 2 || ToWord(d[0], d[1]) % 2 == 1 || |d| != ToWord(d[0], d[1]) + 2 {
          return false;
        }
        var curves, _ := ReadSuites(d[2..]);
        m := m.(supportedCurves := curves);
      } else if extension == SUPPORTED_POINTS {
        if |d| < 1 || |d| - 1 != d[0] {
          return false;
        }
        m := m.(supportedPoints := d[1..]);
      } else if extension == SESSION_TICKET {
        m := m.(ticketSupported := true, sessionTicket := d);
      } else if extension == SIGNATURE_ALGORITHMS {
        if |d| < 2 || |d| % 2 != 0 || |d| - 2 != ToWord(d[0], d[1]) {
          return false;
        }
        var algorithms := ReadPairs(d[2..]);
        m := m.(signatureAndHashes := algorithms);
      } else if extension == RENEGOTIATION_INFO {
        if |d| == 0 || d[0] != |d| - 1 {
          return false;
        }
        m := m.(secureRenegotiation := d[1..], secureRenegotiationSupported := true);
      } else if extension == ALPN {
        if |d| < 2 || |d| - 2 != ToWord(d[0], d[1]) {
          return false;
        }
        ok := ReadProtocols(d[2..]);
        return;
      } else if extension == SCT {
        m := m.(scts := true);
        if |d| != 0 {
          return false;
        }
      }
      ok := if extension == SERVER_NAME then ok else true;
    }

    method ReadHostName(data: Data) returns (ok: bool, name: Data)
      ensures ok == HostName(data, m.serverName).Some? && (ok ==> name == HostName(data, m.serverName).value)
    {
      hide ToWord;
      var d := data;
      name := m.serverName;
      while |d| > 0
        invariant name == m.serverName && HostName(data, m.serverName) == HostName(d, m.serverName)
        decreases |d|
      {
        if |d| < 3 {
          return false, name;
        }
        var nameType, nameLen := d[0], ToWord(d[1], d[2]);
        d := d[3..];
        if |d| < nameLen {
          return false, name;
        }
        if nameType == 0 {
          return true, d[..nameLen];
        }
        d := d[nameLen..];
      }
      ok := true;
    }

    /** ALPN protocols are appended to those already there. */
    method ReadProtocols(data: Data) returns (ok: bool)
      modifies this`m
      ensures ok == ToStrings(data).Some?
      ensures ok ==> m == old(m).(alpnProtocols := old(m).alpnProtocols + ToStrings(data).value)
    {
      var d := data;
      ghost var seen: seq<Data> := [];
      assert old(m).alpnProtocols + [] == m.alpnProtocols;
      Behind0(ToStrings(data));
      while |d| != 0
        invariant m == old(m).(alpnProtocols := old(m).alpnProtocols + seen)
        invariant ToStrings(data) == Behind(seen, ToStrings(d))
        decreases |d|
      {
        var stringLen := d[0];
        var s := d[1..];
        if stringLen == 0 || stringLen > |s| {
          return false;
        }
        Behind1(seen, d[1..1 + stringLen], ToStrings(d[1 + stringLen..]));
        assert s[..stringLen] == d[1..1 + stringLen] && s[stringLen..] == d[1 + stringLen..];
        assert old(m).alpnProtocols + seen + [s[..stringLen]] == old(m).alpnProtocols + (seen + [s[..stringLen]]);
        m := m.(alpnProtocols := m.alpnProtocols + [s[..stringLen]]);
        seen := seen + [s[..stringLen]];
        d := s[stringLen..];
      }
      assert seen + [] == seen;
      ok := true;
    }
  }

  /** A list of words, and whether the renegotiation signal is among them. */
  method ReadSuites(d: Data) returns (ws: seq<word>, scsv: bool)
    requires |d| % 2 == 0
    ensures ws == ToWords(d) && scsv == (SCSV_RENEGOTIATION in ws)
  {
    ws, scsv := [], false;
    var i := 0;
    assert d[..0] == [];
    while i < |d| / 2
      invariant 0 <= i <= |d| / 2 && ws == ToWords(d[..2 * i]) && scsv == (SCSV_RENEGOTIATION in ws)
    {
      var w := ToWord(d[2 * i], d[2 * i + 1]);
      ToWordsAppend(d[..2 * i], d[2 * i], d[2 * i + 1]);
      assert d[..2 * (i + 1)] == d[..2 * i] + [d[2 * i], d[2 * i + 1]];
      ws := ws + [w];
      if w == SCSV_RENEGOTIATION {
        scsv := true;
      }
      i := i + 1;
    }
    assert d[..|d|] == d;
  }

  method ReadPairs(d: Data) returns (ps: seq<Pair>)
    requires |d| % 2 == 0
    ensures ps == ToPairs(d)
  {
    ps := [];
    var i := 0;
    assert d[..0] == [];
    while i < |d| / 2
      invariant 0 <= i <= |d| / 2 && ps == ToPairs(d[..2 * i])
    {
      ToPairsAppend(d[..2 * i], d[2 * i], d[2 * i + 1]);
      assert d[..2 * (i + 1)] == d[..2 * i] + [d[2 * i], d[2 * i + 1]];
      ps := ps + [Pair(d[2 * i], d[2 * i + 1])];
      i := i + 1;
    }
    assert d[..|d|] == d;
  }

  /** Fill in the lengths of the ALPN extension, which starts behind `w`. */
  method PatchLengths(cur: Cursor, at: nat, n: nat, ghost w: Data, ghost s: Data)
    requires cur.Valid() && cur.text == w + [0, 16] + Zeros(4) + s && at == |w| + 2
    modifies cur, cur.buf
    ensures cur.Valid() && cur.text == w + [0, 16] + Word(n + 2) + Word(n) + s
  {
    hide Cursor.Valid, Word;
    Patched(w, s, Word(n), Word(n + 2));
    var stringsLength := n;
    cur.Patch(at + 2, Word(stringsLength));
    stringsLength := stringsLength + 2;
    cur.Patch(at, Word(stringsLength));
  }

  /** Two fields filled in after what follows them. */
  lemma Patched(w: Data, s: Data, a: Data, b: Data)
    requires |a| == |b| == 2
    ensures var t := w + [0, 16] + Zeros(4) + s;
            var u := t[..|w| + 4] + a + t[|w| + 6..];
            u[..|w| + 2] + b + u[|w| + 4..] == w + [0, 16] + b + a + s
  {
    var t := w + [0, 16] + Zeros(4) + s;
    var u := t[..|w| + 4] + a + t[|w| + 6..];
    assert u == w + [0, 16] + Zeros(2) + a + s;
  }

  lemma PosIsLength(cur: Cursor)
    requires cur.Valid()
    ensures cur.pos == |cur.text|
  {
  }

  /** What has been written after `i` extensions, and how much is left. */
  lemma UpToNext(i: nat, m: Hello, head: Data)
    requires i < 10
    ensures head + UpTo(i, m) + E(i, m) == head + UpTo(i + 1, m)
    ensures |From(0, m)| == |UpTo(i + 1, m)| + |From(i + 1, m)|
    ensures i < 9 ==> |From(i + 1, m)| >= |E(i + 1, m)|
  {
    hide E;
    UpToFrom(i + 1, m);
    assert head + (UpTo(i, m) + E(i, m)) == head + UpTo(i, m) + E(i, m);
  }

  lemma UpToNothing(m: Hello, head: Data)
    ensures head == head + UpTo(0, m)
  {
  }

  lemma Left(i: nat, m: Hello)
    requires i < 10
    ensures |From(i, m)| >= |E(i, m)|
  {
    hide E;
  }

  lemma UpToAll(m: Hello)
    ensures UpTo(10, m) == From(0, m)
  {
    UpToFrom(10, m);
    NoMore(m);
    assert UpTo(10, m) + [] == UpTo(10, m);
  }

  // ----- What each piece of writing amounts to

  lemma FieldsSize(m: Hello)
    ensures |Fields(m)| == 2 + 32 + 1 + |m.sessionID| + 2 + 2 * |m.cipherSuites| + 1 + |m.compressionMethods|
  {
  }

  lemma FieldsAre(m: Hello, w: Data)
    ensures w + [m.vers / 256, m.vers % 256] + Fixed(m.random, 32) + [|m.sessionID| % 256] + m.sessionID
            + Word(2 * |m.cipherSuites|) + Words(m.cipherSuites) + [|m.compressionMethods| % 256] + m.compressionMethods
            == w + Fields(m)
  {
    hide Words, Fixed;
    assert [m.vers / 256, m.vers % 256] == Word(m.vers);
    assert w + Word(m.vers) + Fixed(m.random, 32) + [|m.sessionID| % 256] + m.sessionID
           + Word(2 * |m.cipherSuites|) + Words(m.cipherSuites) + [|m.compressionMethods| % 256] + m.compressionMethods
           == w + Fields(m);
  }

  lemma AssembleExtensions(m: Hello, some: bool)
    requires some <==> From(0, m) != []
    ensures Encode(m).Some? ==>
              var n := |From(0, m)|;
              Encode(m).value == Header(1, |Body(m)|) + Fields(m)
                                 + (if some then Word(n) else []) + From(0, m)
  {
    hide From, Fields;
    assert Header(1, |Body(m)|) + (Fields(m) + Extensions(m)) == Header(1, |Body(m)|) + Fields(m) + Extensions(m);
    if some {
      assert Word(|From(0, m)|) == Word(|From(0, m)|);
    }
  }

  lemma Wrote0(m: Hello, w: Data)
    ensures (if m.nextProtoNeg then w + [13172 / 256, 13172 % 256] + Zeros(2) else w) == w + E(0, m)
  {
    assert Word(13172) == [13172 / 256, 13172 % 256] && Word(0) == Zeros(2);
  }

  lemma Wrote1(m: Hello, w: Data)
    ensures var n := |m.serverName|;
            (if n == 0 then w
             else w + [0, 0] + Word(n + 5) + Word(n + 3) + Zeros(1)
                  + Word(n) + m.serverName) == w + E(1, m)
  {
    var n := |m.serverName|;
    if n > 0 {
      var body := Word(n + 3) + [0] + Word(n) + m.serverName;
      assert Zeros(1) == [0] && |body| == n + 5;
    }
  }

  lemma Wrote2(m: Hello, w: Data)
    ensures (if m.ocspStapling then w + [0, 5] + [0, 5, 1] + Zeros(4) else w) == w + E(2, m)
  {
    assert Word(5) == [0, 5];
    assert [0, 5] + [0, 5, 1] + Zeros(4) == [0, 5] + [0, 5] + [1, 0, 0, 0, 0];
  }

  lemma Wrote3(m: Hello, w: Data)
    ensures var n := 2 * |m.supportedCurves|;
            (if n == 0 then w
             else w + [0, 10] + Word(n + 2) + Word(n) + Words(m.supportedCurves)) == w + E(3, m)
  {
    hide Words;
  }

  lemma Wrote4(m: Hello, w: Data)
    ensures var n := |m.supportedPoints|;
            (if n == 0 then w
             else w + [0, 11] + Word(n + 1) + [n % 256] + m.supportedPoints) == w + E(4, m)
  {
  }

  lemma Wrote5(m: Hello, w: Data)
    ensures var n := |m.sessionTicket|;
            (if m.ticketSupported then w + [0, 35] + Word(n) + m.sessionTicket else w) == w + E(5, m)
  {
  }

  lemma Wrote6(m: Hello, w: Data)
    ensures var n := 2 * |m.signatureAndHashes|;
            (if n == 0 then w
             else w + [0, 13] + Word(n + 2) + Word(n) + Pairs(m.signatureAndHashes)) == w + E(6, m)
  {
    hide Pairs;
  }

  lemma Wrote7(m: Hello, w: Data)
    ensures var n := |m.secureRenegotiation|;
            (if m.secureRenegotiationSupported then w + [0xff, 1] + [0, (n + 1) % 256] + [n % 256]
                + m.secureRenegotiation else w)
            == w + E(7, m)
  {
  }

  lemma Wrote8(m: Hello, w: Data)
    ensures var n := StringsLen(m.alpnProtocols);
            (if m.alpnProtocols == [] then w
             else w + [0, 16] + Word(n + 2) + Word(n) + Strings(m.alpnProtocols)) == w + E(8, m)
  {
    StringsLength(m.alpnProtocols);
    hide Strings, StringsLen;
  }

  lemma Wrote9(m: Hello, w: Data)
    ensures (if m.scts then w + [0, 18] + Zeros(2) else w) == w + E(9, m)
  {
    assert Word(18) == [0, 18] && Word(0) == Zeros(2);
  }
}
