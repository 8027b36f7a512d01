/** Octets and the few sequence facts every other module needs. */
module Bytes {
  type byte = b: int | 0 <= b < 256

  const LF: byte := 0x0A
  const CR: byte := 0x0D
  const BS: byte := 0x08
  const ESC: byte := 0x1B

  datatype Option<+T> = None | Some(value: T)

  /** All the segments of a stream, joined in order. */
  function Join<T>(parts: seq<seq<T>>): seq<T> {
    if parts == [] then [] else parts[0] + Join(parts[1..])
  }

  lemma {:induction false} JoinAppend<T>(a: seq<seq<T>>, b: seq<seq<T>>)
    ensures Join(a + b) == Join(a) + Join(b)
  {
    if a == [] {
      assert a + b == b;
    } else {
      assert (a + b)[1..] == a[1..] + b;
      JoinAppend(a[1..], b);
    }
  }

  /** How often `b` occurs in `s`. */
  function Count(s: seq<byte>, b: byte): nat {
    if s == [] then 0 else (if s[0] == b then 1 else 0) + Count(s[1..], b)
  }

  lemma {:induction false} CountAppend(s: seq<byte>, t: seq<byte>, b: byte)
    ensures Count(s + t, b) == Count(s, b) + Count(t, b)
  {
    if s == [] {
      assert s + t == t;
    } else {
      assert (s + t)[1..] == s[1..] + t;
      CountAppend(s[1..], t, b);
    }
  }

  lemma {:induction false} CountZero(s: seq<byte>, b: byte)
    ensures Count(s, b) == 0 <==> b !in s
  {
    if s != [] {
      assert s == [s[0]] + s[1..];
      CountZero(s[1..], b);
    }
  }
}
