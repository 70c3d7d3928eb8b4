/** Octets, octet strings and the big-endian 16-bit integers of the SOCKS5 wire format. */
module Bytes {
  type Byte = x: int | 0 <= x < 256

  /** A Go string: an immutable sequence of octets. */
  type Text = seq<Byte>

  datatype Option<+T> = None | Some(value: T)

  const COLON: Byte := 58
  const OPEN: Byte := 91
  const CLOSE: Byte := 93
  const MINUS: Byte := 45
  const PLUS: Byte := 43
  const ZERO: Byte := 48

  /** The octets of an ASCII literal. */
  function Lit(s: string): (t: Text)
    ensures |t| == |s|
  {
    seq(|s|, i requires 0 <= i < |s| => s[i] as int % 256)
  }

  lemma LitIsAscii(s: string, i: nat)
    requires i < |s| && s[i] as int < 128
    ensures Lit(s)[i] as int == s[i] as int
  {
  }

  /** Go's byte(n): the low eight bits. */
  function Low8(n: int): Byte {
    n % 256
  }

  /** binary.BigEndian.PutUint16(_, uint16(n)): the low sixteen bits, high octet first. */
  function PutUint16(n: int): (b: seq<Byte>)
    ensures |b| == 2
  {
    [n % 65536 / 256, n % 256]
  }

  function Uint16(b: seq<Byte>): (n: nat)
    requires |b| == 2
    ensures n < 65536
  {
    var high: int := b[0];
    high * 256 + b[1]
  }

  lemma LowOctet(n: int)
    ensures n % 256 == n % 65536 % 256
  {
    var q := n / 65536;
    assert n == 256 * (256 * q) + n % 65536;
    ModMultiple(256 * q, n % 65536);
  }

  lemma ModMultiple(k: int, r: int)
    ensures (256 * k + r) % 256 == r % 256
  {
    var a := r / 256;
    assert 256 * k + r == 256 * (k + a) + r % 256;
    ModUnique(256 * k + r, k + a, r % 256);
  }

  lemma ModUnique(n: int, q: int, r: int)
    requires n == 256 * q + r && 0 <= r < 256
    ensures n % 256 == r
  {
  }

  /** Decoding an encoded integer gives it back exactly when it fits in sixteen bits. */
  lemma Uint16RoundTrip(n: int)
    ensures Uint16(PutUint16(n)) == n % 65536
    ensures Uint16(PutUint16(n)) == n <==> 0 <= n < 65536
  {
    LowOctet(n);
  }

  lemma PutUint16OfUint16(b: seq<Byte>)
    requires |b| == 2
    ensures PutUint16(Uint16(b)) == b
  {
    var high: int, low: int := b[0], b[1];
    ModUnique(Uint16(b), high, low);
    assert Uint16(b) / 256 == high;
  }
}
