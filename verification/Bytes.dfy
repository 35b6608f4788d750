/** Bytes, and words in network order. */
module Bytes {
  type Byte = x: int | 0 <= x < 256

  const WORD := 0x1_0000_0000
  const HALF := 0x1_0000

  /** Four bytes, the high one first. */
  function PutWord(n: int): (b: seq<Byte>)
    requires 0 <= n < WORD
    ensures |b| == 4
  {
    var q1 := n / 256;
    var q2 := q1 / 256;
    [q2 / 256, q2 % 256, q1 % 256, n % 256]
  }

  function Word(b: seq<Byte>): (n: int)
    requires |b| == 4
    ensures 0 <= n < WORD
  {
    var (b0: int, b1: int, b2: int, b3: int) := (b[0], b[1], b[2], b[3]);
    ((b0 * 256 + b1) * 256 + b2) * 256 + b3
  }

  lemma WordRoundTrip(n: int)
    requires 0 <= n < WORD
    ensures Word(PutWord(n)) == n
  {
  }

  lemma WordInverse(b: seq<Byte>)
    requires |b| == 4
    ensures PutWord(Word(b)) == b
  {
    var (b0: int, b1: int, b2: int) := (b[0], b[1], b[2]);
    assert Word(b) / 256 == (b0 * 256 + b1) * 256 + b2;
    assert Word(b) / 256 / 256 == b0 * 256 + b1;
  }

  function PutHalf(n: int): (b: seq<Byte>)
    requires 0 <= n < HALF
    ensures |b| == 2
  {
    [n / 256, n % 256]
  }

  function Half(b: seq<Byte>): (n: int)
    requires |b| == 2
    ensures 0 <= n < HALF
  {
    var (b0: int, b1: int) := (b[0], b[1]);
    b0 * 256 + b1
  }

  lemma HalfRoundTrip(n: int)
    requires 0 <= n < HALF
    ensures Half(PutHalf(n)) == n
  {
  }

  lemma HalfInverse(b: seq<Byte>)
    requires |b| == 2
    ensures PutHalf(Half(b)) == b
  {
    var (b0: int, b1: int) := (b[0], b[1]);
    assert Half(b) / 256 == b0;
  }
}
