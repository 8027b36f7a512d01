/** CBC padding of the record layer: internal/tls_hack/conn.go, RFC 5246 section 6.2.3.2. */
module Padding {
  type octet = bv8

  function Num(b: octet): (n: nat)
    ensures n < 256
  {
    b as nat
  }

  /** byte(n) for an `n` that fits. */
  function Octet(n: nat): (b: octet)
    requires n < 256
    ensures Num(b) == n
  {
    if n == 0 then 0
    else
      NextOctet(Octet(n - 1));
      Octet(n - 1) + 1
  }

  lemma NextOctet(b: octet)
    requires b as nat < 255
    ensures (b + 1) as nat == b as nat + 1
  {
  }

  // ----- The check

  /** byte(int32(^t) >> 31) for t = uint(a) - uint(b), which wraps around at 64 bits: all ones iff bit 31 of t is 0. */
  function NotBelow(a: nat, b: nat): octet {
    var t := (a - b) % 0x1_0000_0000_0000_0000;
    if t / 0x8000_0000 % 2 == 0 then 0xFF else 0
  }

  lemma NotBelowExact(a: nat, b: nat)
    requires a < 0x8000_0000 && b < 0x8000_0000
    ensures NotBelow(a, b) == if b <= a then 0xFF else 0
  {
    if b <= a {
      assert (a - b) % 0x1_0000_0000_0000_0000 == a - b;
    } else {
      assert (a - b) % 0x1_0000_0000_0000_0000 == a - b + 0x1_0000_0000_0000_0000;
    }
  }

  function PaddingLen(payload: seq<octet>): nat
    requires payload != []
  {
    payload[|payload| - 1] as nat
  }

  /** How many bytes from the end the check looks at: never the 256th, and never the first of the payload. */
  function ToCheck(payload: seq<octet>): nat
    requires payload != []
  {
    if 255 + 1 > |payload| then |payload| - 1 else 255
  }

  /** The byte `i` places before the last one. */
  function FromEnd(payload: seq<octet>, i: nat): octet
    requires i < |payload|
  {
    payload[|payload| - 1 - i]
  }

  /** Those of the last `n` bytes that belong to the padding all repeat its length. */
  predicate Repeats(payload: seq<octet>, n: nat)
    requires payload != [] && n <= |payload|
  {
    forall i | 0 <= i < n && i <= PaddingLen(payload) :: FromEnd(payload, i) == payload[|payload| - 1]
  }

  lemma AccumulateBits(good: octet, mask: octet, x: octet, y: octet)
    requires mask == 0xFF || mask == 0
    ensures (good & !((mask & x) ^ (mask & y))) == 0xFF <==> good == 0xFF && (mask == 0xFF ==> x == y)
  {
    if mask == 0xFF {
      assert mask & x == x && mask & y == y;
    } else {
      assert mask & x == 0 && mask & y == 0;
    }
  }

  /** The AND of all bits, replicated. */
  function Replicated(good: octet): octet {
    var a := good & (good << 4);
    var b := a & (a << 2);
    var c := b & (b << 1);
    if c & 0x80 != 0 then 0xFF else 0   // uint8(int8(c) >> 7)
  }

  lemma ReplicatedExact(good: octet)
    ensures Replicated(good) == if good == 0xFF then 0xFF else 0
  {
  }

  /** The constant-time check finds exactly what a branching one over the inspected bytes would. */
  method ExtractPadding(payload: seq<octet>) returns (toRemove: nat, good: octet)
    ensures payload == [] ==> toRemove == 0 && good == 0
    ensures payload != [] ==>
              && toRemove == PaddingLen(payload) + 1
              && good == if NotBelow(|payload| - 1, PaddingLen(payload)) == 0xFF && Repeats(payload, ToCheck(payload))
                         then 0xFF else 0
    ensures payload != [] && |payload| <= 0x8000_0000 ==>
              good == if PaddingLen(payload) + 1 <= |payload| && Repeats(payload, ToCheck(payload)) then 0xFF else 0
  {
    hide NotBelow, Replicated, Repeats;
    if |payload| < 1 {
      return 0, 0;
    }
    var paddingLen := payload[|payload| - 1];
    toRemove := PaddingLen(payload) + 1;
    good := NotBelow(|payload| - 1, PaddingLen(payload));
    good := Inspect(payload, paddingLen, good);
    ReplicatedExact(good);
    good := Replicated(good);
    if |payload| <= 0x8000_0000 {
      NotBelowExact(|payload| - 1, PaddingLen(payload));
    }
  }

  /** The loop over the bytes that are looked at: all bits stay set where padding bytes are right. */
  method Inspect(payload: seq<octet>, paddingLen: octet, start: octet) returns (good: octet)
    requires payload != [] && paddingLen == payload[|payload| - 1]
    ensures good == 0xFF <==> start == 0xFF && Repeats(payload, ToCheck(payload))
  {
    hide NotBelow;
    good := start;
    var toCheck := 255;
    if toCheck + 1 > |payload| {
      toCheck := |payload| - 1;
    }
    for i := 0 to toCheck
      invariant good == 0xFF <==> start == 0xFF && Repeats(payload, i)
    {
      var mask := NotBelow(paddingLen as nat, i);
      NotBelowExact(paddingLen as nat, i);
      var b := payload[|payload| - 1 - i];
      AccumulateBits(good, mask, paddingLen, b);
      assert b == FromEnd(payload, i);
      good := good & !((mask & paddingLen) ^ (mask & b));
    }
  }

  /** RFC 5246: a length byte and that many bytes before it, all equal to the length. */
  predicate Proper(payload: seq<octet>) {
    && payload != []
    && PaddingLen(payload) + 1 <= |payload|
    && Repeats(payload, |payload|)
  }

  predicate Accepted(payload: seq<octet>) {
    && payload != []
    && NotBelow(|payload| - 1, PaddingLen(payload)) == 0xFF
    && Repeats(payload, ToCheck(payload))
  }

  /** The padding reaches back to the first byte the check does not look at, and that byte is wrong. */
  predicate Overlooked(payload: seq<octet>) {
    && payload != []
    && PaddingLen(payload) == ToCheck(payload)
    && FromEnd(payload, PaddingLen(payload)) != payload[|payload| - 1]
  }

  /**
   On payloads of up to 2 GiB the check accepts what the plain comparison over
   the inspected bytes accepts: all proper padding, and beyond it exactly what it overlooks.
   */
  lemma AcceptsExactly(payload: seq<octet>)
    requires |payload| <= 0x8000_0000
    ensures Accepted(payload) <==>
            && payload != [] && PaddingLen(payload) + 1 <= |payload|
            && Repeats(payload, ToCheck(payload))
    ensures Proper(payload) <==> Accepted(payload) && !Overlooked(payload)
  {
    hide NotBelow;
    if payload != [] {
      NotBelowExact(|payload| - 1, PaddingLen(payload));
      var p := PaddingLen(payload);
      if Accepted(payload) && !Overlooked(payload) {
        forall i | 0 <= i < |payload| && i <= p ensures FromEnd(payload, i) == payload[|payload| - 1] {
          assert i < ToCheck(payload) || i == p;
        }
      }
    }
  }

  /** Sixteen bytes that announce fifteen of padding pass although the first of them is wrong. */
  lemma AcceptsImproper()
    ensures exists payload :: |payload| == 16 && Accepted(payload) && !Proper(payload)
  {
    var payload: seq<octet> := seq(16, i => if i == 0 then 0 else 15);
    assert PaddingLen(payload) == 15;
    NotBelowExact(15, 15);
    assert FromEnd(payload, 15) == 0;
    assert Accepted(payload);
  }

  // ----- The padding itself

  /** What the padded payload is: payload bytes, then copies of the padding length. */
  function Padded(payload: seq<octet>, blockSize: nat): (padded: seq<octet>)
    requires 1 <= blockSize <= 256
    ensures |padded| % blockSize == 0 && |payload| < |padded| <= |payload| + blockSize
  {
    var paddingLen := blockSize - |payload| % blockSize;
    PaddedLength(|payload|, blockSize);
    payload + Copies(paddingLen, Octet(paddingLen - 1))
  }

  lemma PaddedLength(n: nat, blockSize: nat)
    requires blockSize >= 1
    ensures (n + (blockSize - n % blockSize)) % blockSize == 0
  {
    assert n + (blockSize - n % blockSize) == blockSize * (n / blockSize + 1);
    MultipleMod(n / blockSize + 1, blockSize);
  }

  lemma AtLeast(b: nat, d: nat)
    requires d >= 1
    ensures b * d >= b
  {
  }

  lemma MultipleMod(q: nat, b: nat)
    requires b >= 1
    ensures (b * q) % b == 0
  {
    var x := b * q;
    var d := q - x / b;
    if d > 0 {
      AtLeast(b, d);
    } else if d < 0 {
      AtLeast(b, -d);
    }
    assert b * d == b * q - b * (x / b);
  }

  /** `n` copies of a byte. */
  function Copies(n: nat, b: octet): (s: seq<octet>)
    ensures |s| == n && forall i | 0 <= i < n :: s[i] == b
  {
    seq(n, _ => b)
  }

  lemma WholeBlocks(n: nat, b: nat)
    requires b >= 1
    ensures n % b < b && n % b <= n && (n - n % b) % b == 0
  {
    MultipleMod(n / b, b);
    assert n - n % b == b * (n / b);
  }

  method PadToBlockSize(payload: seq<octet>, blockSize: nat) returns (prefix: seq<octet>, finalBlock: seq<octet>)
    requires 1 <= blockSize <= 256
    ensures prefix + finalBlock == Padded(payload, blockSize)
    ensures |finalBlock| == blockSize && |prefix| % blockSize == 0
  {
    var overrun := |payload| % blockSize;
    WholeBlocks(|payload|, blockSize);
    var paddingLen := blockSize - overrun;
    prefix := payload[..|payload| - overrun];
    ghost var tail := payload[|payload| - overrun..];
    finalBlock := FinalBlock(payload[|payload| - overrun..], blockSize, paddingLen);
    assert prefix + (tail + Copies(paddingLen, Octet(paddingLen - 1))) == payload
        + Copies(paddingLen, Octet(paddingLen - 1));
  }

  method FinalBlock(tail: seq<octet>, blockSize: nat, paddingLen: nat) returns (finalBlock: seq<octet>)
    requires |tail| + paddingLen == blockSize <= 256 && paddingLen >= 1
    ensures finalBlock == tail + Copies(paddingLen, Octet(paddingLen - 1))
  {
    var block := new octet[blockSize](i requires 0 <= i < blockSize => if i < |tail| then tail[i] else 0);
    var pad := Octet(paddingLen - 1);
    for i := |tail| to blockSize
      invariant block[..i] == tail + Copies(i - |tail|, pad)
    {
      block[i] := pad;
      assert block[..i + 1] == block[..i] + [pad];
    }
    finalBlock := block[..];
    assert finalBlock == block[..blockSize];
  }

  lemma CopiesProper(payload: seq<octet>, n: nat)
    requires 1 <= n <= 256
    ensures var padded := payload + Copies(n, Octet(n - 1));
            Proper(padded) && PaddingLen(padded) == n - 1
  {
    var last := Octet(n - 1);
    var padded := payload + Copies(n, last);
    assert padded[|padded| - 1] == last;
    forall i | 0 <= i < |padded| && i <= n - 1 ensures FromEnd(padded, i) == last {
      assert padded[|padded| - 1 - i] == last;
    }
  }

  /** The check accepts every padded payload and says how much to take off to get the payload back. */
  lemma PaddedAccepted(payload: seq<octet>, blockSize: nat)
    requires 1 <= blockSize <= 256
    requires |payload| + blockSize <= 0x8000_0000
    ensures var padded := Padded(payload, blockSize);
            && Accepted(padded)
            && PaddingLen(padded) + 1 <= |padded|
            && padded[..|padded| - (PaddingLen(padded) + 1)] == payload
  {
    CopiesProper(payload, blockSize - |payload| % blockSize);
    AcceptsExactly(Padded(payload, blockSize));
  }

  /** Behind the payload every byte tells how many more there are: one less than their number. */
  lemma PaddingSays(payload: seq<octet>, blockSize: nat)
    requires 1 <= blockSize <= 256
    ensures var (padded, n) := (Padded(payload, blockSize), |payload|);
            && padded[..n] == payload && n < |padded| <= n + blockSize && |padded| % blockSize == 0
            && forall i | n <= i < |padded| :: padded[i] as nat == |padded| - n - 1
  {
    var paddingLen := blockSize - |payload| % blockSize;
    var pad := Octet(paddingLen - 1);
    assert Num(pad) == paddingLen - 1;
    assert forall i | 0 <= i < paddingLen :: Copies(paddingLen, pad)[i] == pad;
  }
}
