/** How the shared listener tells HTTP/1 from gRPC by the first bytes of a connection. */
module Sniff {
  import opened Bytes
  import opened Mux

  const TLS_HANDSHAKE: byte := 22

  /** "PRI * HTTP/2.0\r\n\r\nSM\r\n\r\n" */
  const PREFACE: seq<byte> :=
    [0x50, 0x52, 0x49, 0x20, 0x2A, 0x20, 0x48, 0x54, 0x54, 0x50, 0x2F, 0x32, 0x2E, 0x30,
     0x0D, 0x0A, 0x0D, 0x0A, 0x53, 0x4D, 0x0D, 0x0A, 0x0D, 0x0A]

  /** A TLS handshake record of major version 3, or an HTTP/2 preface. */
  predicate SpeaksGrpc(stream: seq<byte>) {
    (|stream| >= 3 && stream[0] == TLS_HANDSHAKE && stream[1] == 3) || PREFACE <= stream
  }

  /** The bytes that came before the end or the deadline leave the question open. */
  predicate Undecided(stream: seq<byte>) {
    stream < PREFACE || (|stream| < 3 && stream[0] == TLS_HANDSHAKE)
  }

  /** `stream` is all that can be read before the deadline; `replay` is what the protocol server will read. */
  method SniffProtocol(stream: seq<byte>) returns (r: Option<Protocol>, replay: seq<byte>)
    ensures r == None <==> Undecided(stream)
    ensures r.Some? ==> (r.value == Grpc <==> SpeaksGrpc(stream)) && replay == stream
  {
    var prefix, rest := [], stream;
    if rest == [] {
      return None, [];
    }
    var first := rest[0];
    prefix, rest := prefix + [first], rest[1..];
    var grpc := false;
    if first == TLS_HANDSHAKE {
      if rest == [] {
        return None, [];
      }
      var major := rest[0];
      prefix, rest := prefix + [major], rest[1..];
      if rest == [] {
        return None, [];
      }
      prefix, rest := prefix + [rest[0]], rest[1..];
      grpc := major == 3;
    } else if first == PREFACE[0] {
      grpc := true;
      var i := 1;
      while i < |PREFACE|
        invariant 1 <= i <= |PREFACE| && grpc
        invariant prefix == PREFACE[..i] && prefix + rest == stream
      {
        if rest == [] {
          assert stream == PREFACE[..i];
          return None, [];
        }
        var b := rest[0];
        prefix, rest := prefix + [b], rest[1..];
        if b != PREFACE[i] {
          assert stream[i] == b;
          grpc := false;
          break;
        }
        i := i + 1;
      }
    }
    return Some(if grpc then Grpc else Http), prefix + rest;
  }

  lemma PrefaceIs()
    ensures var text := "PRI * HTTP/2.0\r\n\r\nSM\r\n\r\n";
            |PREFACE| == |text| && forall i | 0 <= i < |text| :: PREFACE[i] as char == text[i]
  {
    assert PREFACE[0] as char == 'P' && PREFACE[1] as char == 'R' && PREFACE[2] as char == 'I';
  }

  /**
   A verdict is never changed by what follows, and no shorter beginning allows one; before there is one, the bytes
   may still go on to be gRPC, unless they are those of a TLS handshake of another version.
   */
  lemma VerdictStands(s: seq<byte>, t: seq<byte>)
    ensures !Undecided(s) ==> !Undecided(s + t) && SpeaksGrpc(s + t) == SpeaksGrpc(s)
    ensures Undecided(s) ==>
              ((exists u :: SpeaksGrpc(s + u)) <==> !(|s| == 2 && s[0] == 22 && s[1] != 3))
  {
    if Undecided(s) {
      if s < PREFACE {
        assert s + PREFACE[|s|..] == PREFACE;
        assert SpeaksGrpc(s + PREFACE[|s|..]);
      } else if |s| == 1 {
        assert SpeaksGrpc(s + [3, 0]);
      } else {
        assert s[1] == 3 ==> SpeaksGrpc(s + [0]);
        forall u ensures SpeaksGrpc(s + u) ==> s[1] == 3 {
          assert (s + u)[0] == 22 && (s + u)[1] == s[1];
          if PREFACE <= s + u {
            assert (s + u)[0] == PREFACE[0];
          }
        }
      }
    } else {
      if PREFACE <= s {
        assert PREFACE <= s + t;
      }
    }
  }
}
