/** The MD5 message-digest algorithm as RFC 1321 defines it. */
module Md5Spec {
  import opened Bytes

  type Word = bv32

  /** The four-word buffer of RFC 1321, section 3.3, in the order of the next operation's
      arguments. */
  datatype Quad = Quad(a: Word, b: Word, c: Word, d: Word)

  const INITIAL: Quad := Quad(0x67452301, 0xefcdab89, 0x98badcfe, 0x10325476)

  // ---------- RFC 1321, section 3.4: processing 16-word blocks ----------

  function F(x: Word, y: Word, z: Word): Word { (x & y) | (!x & z) }
  function G(x: Word, y: Word, z: Word): Word { (x & z) | (y & !z) }
  function H(x: Word, y: Word, z: Word): Word { x ^ y ^ z }
  function I(x: Word, y: Word, z: Word): Word { y ^ (x | !z) }

  function Mix(i: nat, x: Word, y: Word, z: Word): Word
    requires i < 64
  {
    if i < 16 then F(x, y, z) else if i < 32 then G(x, y, z) else if i < 48 then H(x, y, z) else I(x, y, z)
  }

  /** Which word of the block operation `i` takes. */
  function K(i: nat): (k: nat)
    requires i < 64
    ensures k < 16
  {
    if i < 16 then i else if i < 32 then (5 * i + 1) % 16 else if i < 48 then (3 * i + 5) % 16 else 7 * i % 16
  }

  function S(i: nat): (s: nat)
    requires i < 64
    ensures 0 < s < 32
  {
    var j := i % 4;
    if i < 16 then (if j == 0 then 7 else if j == 1 then 12 else if j == 2 then 17 else 22)
    else if i < 32 then (if j == 0 then 5 else if j == 1 then 9 else if j == 2 then 14 else 20)
    else if i < 48 then (if j == 0 then 4 else if j == 1 then 11 else if j == 2 then 16 else 23)
    else (if j == 0 then 6 else if j == 1 then 10 else if j == 2 then 15 else 21)
  }

  /** 4294967296 times abs(sin(i + 1)), rounded down. */
  function T(i: nat): Word
    requires i < 64
  {
    if i < 16 then T1(i) else if i < 32 then T2(i - 16) else if i < 48 then T3(i - 32) else T4(i - 48)
  }

  function T1(j: nat): Word
    requires j < 16
  {
    match j
    case 0 => 0xd76aa478
    case 1 => 0xe8c7b756
    case 2 => 0x242070db
    case 3 => 0xc1bdceee
    case 4 => 0xf57c0faf
    case 5 => 0x4787c62a
    case 6 => 0xa8304613
    case 7 => 0xfd469501
    case 8 => 0x698098d8
    case 9 => 0x8b44f7af
    case 10 => 0xffff5bb1
    case 11 => 0x895cd7be
    case 12 => 0x6b901122
    case 13 => 0xfd987193
    case 14 => 0xa679438e
    case _ => 0x49b40821
  }

  function T2(j: nat): Word
    requires j < 16
  {
    match j
    case 0 => 0xf61e2562
    case 1 => 0xc040b340
    case 2 => 0x265e5a51
    case 3 => 0xe9b6c7aa
    case 4 => 0xd62f105d
    case 5 => 0x02441453
    case 6 => 0xd8a1e681
    case 7 => 0xe7d3fbc8
    case 8 => 0x21e1cde6
    case 9 => 0xc33707d6
    case 10 => 0xf4d50d87
    case 11 => 0x455a14ed
    case 12 => 0xa9e3e905
    case 13 => 0xfcefa3f8
    case 14 => 0x676f02d9
    case _ => 0x8d2a4c8a
  }

  function T3(j: nat): Word
    requires j < 16
  {
    match j
    case 0 => 0xfffa3942
    case 1 => 0x8771f681
    case 2 => 0x6d9d6122
    case 3 => 0xfde5380c
    case 4 => 0xa4beea44
    case 5 => 0x4bdecfa9
    case 6 => 0xf6bb4b60
    case 7 => 0xbebfbc70
    case 8 => 0x289b7ec6
    case 9 => 0xeaa127fa
    case 10 => 0xd4ef3085
    case 11 => 0x04881d05
    case 12 => 0xd9d4d039
    case 13 => 0xe6db99e5
    case 14 => 0x1fa27cf8
    case _ => 0xc4ac5665
  }

  function T4(j: nat): Word
    requires j < 16
  {
    match j
    case 0 => 0xf4292244
    case 1 => 0x432aff97
    case 2 => 0xab9423a7
    case 3 => 0xfc93a039
    case 4 => 0x655b59c3
    case 5 => 0x8f0ccc92
    case 6 => 0xffeff47d
    case 7 => 0x85845dd1
    case 8 => 0x6fa87e4f
    case 9 => 0xfe2ce6e0
    case 10 => 0xa3014314
    case 11 => 0x4e0811a1
    case 12 => 0xf7537e82
    case 13 => 0xbd3af235
    case 14 => 0x2ad7d2bb
    case _ => 0xeb86d391
  }

  function RotateLeft(w: Word, s: nat): Word
    requires s < 32
  {
    (w << s) | (w >> (32 - s))
  }

  /** `a = b + ((a + mix + word + t) <<< s)` */
  function Turn(a: Word, mix: Word, b: Word, word: Word, s: nat, t: Word): Word
    requires s < 32
  {
    b + RotateLeft(a + mix + word + t, s)
  }

  /** One operation `[abcd k s i]`; the roles of the four words then move round. */
  function Op(i: nat, q: Quad, x: seq<Word>): Quad
    requires i < 64 && |x| == 16
  {
    Quad(q.d, Turn(q.a, Mix(i, q.b, q.c, q.d), q.b, x[K(i)], S(i), T(i)), q.b, q.c)
  }

  function Ops(n: nat, q: Quad, x: seq<Word>): Quad
    requires n <= 64 && |x| == 16
  {
    if n == 0 then q else Op(n - 1, Ops(n - 1, q, x), x)
  }

  function Add(p: Quad, q: Quad): Quad {
    Quad(p.a + q.a, p.b + q.b, p.c + q.c, p.d + q.d)
  }

  function LittleEndian(b: seq<Byte>, at: nat): Word
    requires at + 4 <= |b|
  {
    (b[at] as Word) | ((b[at + 1] as Word) << 8) | ((b[at + 2] as Word) << 16) | ((b[at + 3] as Word) << 24)
  }

  function BlockWords(b: seq<Byte>): (x: seq<Word>)
    requires |b| == 64
    ensures |x| == 16
  {
    seq(16, k requires 0 <= k < 16 => LittleEndian(b, 4 * k))
  }

  function Compress(q: Quad, block: seq<Byte>): Quad
    requires |block| == 64
  {
    Add(q, Ops(64, q, BlockWords(block)))
  }

  /** The first `n` blocks of the data, one after the other. */
  function Fold(q: Quad, data: seq<Byte>, n: nat): Quad
    requires 64 * n <= |data|
  {
    if n == 0 then q else Compress(Fold(q, data, n - 1), data[64 * n - 64..64 * n])
  }

  // ---------- sections 3.1, 3.2 and 3.5: padding, length, output ----------

  const TWO32: nat := 0x1_0000_0000

  function Zeros(n: nat): (z: seq<Byte>)
    ensures |z| == n
  {
    seq(n, _ => 0)
  }

  /** How many zero bytes follow the 0x80 so that eight bytes are missing to a whole number
      of blocks. */
  function PadZeros(n: nat): (z: nat)
    ensures (n + 1 + z + 8) % 64 == 0 && z < 64
  {
    (119 - n % 64) % 64
  }

  function Le32(n: nat): (b: seq<Byte>)
    ensures |b| == 4
  {
    [(n % 256) as Byte, (n / 256 % 256) as Byte, (n / 0x1_0000 % 256) as Byte, (n / 0x100_0000 % 256) as Byte]
  }

  /** The message, one bit, zeros, and the length in bits modulo 2^64, low word first. */
  function Pad(msg: seq<Byte>): (p: seq<Byte>)
    ensures |p| % 64 == 0
  {
    var bits := 8 * |msg|;
    msg + [0x80] + Zeros(PadZeros(|msg|)) + Le32(bits % TWO32) + Le32(bits / TWO32 % TWO32)
  }

  function WordBytes(w: Word): (b: seq<Byte>)
    ensures |b| == 4
  {
    [(w & 0xff) as Byte, ((w >> 8) & 0xff) as Byte, ((w >> 16) & 0xff) as Byte, (w >> 24) as Byte]
  }

  function Output(q: Quad): (r: seq<Byte>)
    ensures |r| == 16
  {
    WordBytes(q.a) + WordBytes(q.b) + WordBytes(q.c) + WordBytes(q.d)
  }

  function Digest(msg: seq<Byte>): (r: seq<Byte>)
    ensures |r| == 16
  {
    Output(Fold(INITIAL, Pad(msg), |Pad(msg)| / 64))
  }
}
