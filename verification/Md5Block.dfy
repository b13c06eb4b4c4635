/** The block transformation of src/utils/md5.cpp, unrolled as it is there, and its
    agreement with RFC 1321. */
module Md5Block {
  import opened Md5Spec

  // ---------- the source's four functions ----------

  function FF(b: Word, c: Word, d: Word): Word { d ^ (b & (c ^ d)) }
  function FG(b: Word, c: Word, d: Word): Word { FF(d, b, c) }
  function FH(b: Word, c: Word, d: Word): Word { b ^ c ^ d }
  function FI(b: Word, c: Word, d: Word): Word { c ^ (b | !d) }

  lemma Select(b: Word, c: Word, d: Word)
    ensures d ^ (b & (c ^ d)) == (b & c) | (!b & d)
  {
  }

  lemma SelectOr(b: Word, c: Word, d: Word)
    ensures c ^ (d & (b ^ c)) == (b & d) | (c & !d)
  {
  }

  lemma FAgrees(b: Word, c: Word, d: Word)
    ensures FF(b, c, d) == F(b, c, d)
  {
    Select(b, c, d);
  }

  lemma GAgrees(b: Word, c: Word, d: Word)
    ensures FG(b, c, d) == G(b, c, d)
  {
    SelectOr(b, c, d);
  }

  lemma HAndIAgree(b: Word, c: Word, d: Word)
    ensures FH(b, c, d) == H(b, c, d) && FI(b, c, d) == I(b, c, d)
  {
  }

  /** The optimised forms of F and G, and the plain forms of H and I. */
  lemma FunctionsAgree(b: Word, c: Word, d: Word)
    ensures FF(b, c, d) == F(b, c, d) && FG(b, c, d) == G(b, c, d)
    ensures FH(b, c, d) == H(b, c, d) && FI(b, c, d) == I(b, c, d)
  {
    hide FF, FG, FH, FI, F, G, H, I;
    FAgrees(b, c, d);
    GAgrees(b, c, d);
    HAndIAgree(b, c, d);
  }

  /** The OP macros: add the function's value, a word of the block and a constant, rotate,
      add the second word. */
  function OpMacro(a: Word, f: Word, b: Word, word: Word, s: nat, t: Word): Word
    requires s < 32
  {
    RotateLeft(a + f + word + t, s) + b
  }

  lemma Commute(x: Word, y: Word)
    ensures x + y == y + x
  {
  }

  lemma MacroAgrees(a: Word, f: Word, b: Word, word: Word, s: nat, t: Word)
    requires s < 32
    ensures OpMacro(a, f, b, word, s, t) == Turn(a, f, b, word, s, t)
  {
    hide RotateLeft;
    Commute(RotateLeft(a + f + word + t, s), b);
  }

  function Chosen(i: nat, b: Word, c: Word, d: Word): Word
    requires i < 64
  {
    if i < 16 then FF(b, c, d) else if i < 32 then FG(b, c, d) else if i < 48 then FH(b, c, d) else FI(b, c, d)
  }

  /** One line of the unrolled code is one operation of the RFC. */
  lemma LineAgrees(i: nat, a: Word, b: Word, c: Word, d: Word, x: seq<Word>, k: nat, s: nat, t: Word)
    requires i < 64 && |x| == 16 && k == K(i) && s == S(i) && t == T(i)
    ensures Op(i, Quad(a, b, c, d), x) == Quad(d, OpMacro(a, Chosen(i, b, c, d), b, x[k], s, t), b, c)
  {
    FunctionsAgree(b, c, d);
    MacroAgrees(a, Chosen(i, b, c, d), b, x[k], s, t);
    hide OpMacro, Turn, FF, FG, FH, FI, F, G, H, I, T, S, K;
  }

  /** What one line of the unrolled code is written with: the number of its word, its shift and
      its constant. */
  datatype Line = Line(k: nat, s: nat, t: Word)

  /** Operation `i` of the RFC has these. */
  predicate IsLine(l: Line, i: nat) {
    i < 64 && l.k == K(i) && l.s == S(i) && l.t == T(i)
  }

  /** One line, whose words are in turn. */
  method OneLine(a: Word, b: Word, c: Word, d: Word, x: seq<Word>, i: nat, l: Line, ghost q: Quad)
    returns (r: Word)
    requires IsLine(l, i) && |x| == 16 && Ops(i, q, x) == Quad(a, b, c, d)
    ensures Ops(i + 1, q, x) == Quad(d, r, b, c)
  {
    hide Op, OpMacro, Chosen, K, S, T;
    LineAgrees(i, a, b, c, d, x, l.k, l.s, l.t);
    r := OpMacro(a, Chosen(i, b, c, d), b, x[l.k], l.s, l.t);
  }

  /** Four consecutive lines, after which the words are back in their places. */
  method FourLines(w: Quad, x: seq<Word>, i: nat, l0: Line, l1: Line, l2: Line, l3: Line, ghost q: Quad)
    returns (r: Quad)
    requires |x| == 16 && i + 3 < 64 && Ops(i, q, x) == w
    requires IsLine(l0, i) && IsLine(l1, i + 1) && IsLine(l2, i + 2) && IsLine(l3, i + 3)
    ensures Ops(i + 4, q, x) == r
  {
    hide Ops, IsLine;
    var a := OneLine(w.a, w.b, w.c, w.d, x, i, l0, q);
    var d := OneLine(w.d, a, w.b, w.c, x, i + 1, l1, q);
    var c := OneLine(w.c, d, a, w.b, x, i + 2, l2, q);
    var b := OneLine(w.b, c, d, a, x, i + 3, l3, q);
    r := Quad(a, b, c, d);
  }

  /** Round 1, lines 361-376. */
  method Round1(w: Quad, x: seq<Word>, ghost q: Quad) returns (r: Quad)
    requires |x| == 16 && Ops(0, q, x) == w
    ensures Ops(16, q, x) == r
  {
    hide Op, Ops;
    r := w;
    r := FourLines(r, x, 0, Line(0, 7, 0xd76aa478), Line(1, 12, 0xe8c7b756),
                   Line(2, 17, 0x242070db), Line(3, 22, 0xc1bdceee), q);
    r := FourLines(r, x, 4, Line(4, 7, 0xf57c0faf), Line(5, 12, 0x4787c62a),
                   Line(6, 17, 0xa8304613), Line(7, 22, 0xfd469501), q);
    r := FourLines(r, x, 8, Line(8, 7, 0x698098d8), Line(9, 12, 0x8b44f7af),
                   Line(10, 17, 0xffff5bb1), Line(11, 22, 0x895cd7be), q);
    r := FourLines(r, x, 12, Line(12, 7, 0x6b901122), Line(13, 12, 0xfd987193),
                   Line(14, 17, 0xa679438e), Line(15, 22, 0x49b40821), q);
  }

  /** Round 2, lines 391-406. */
  method Round2(w: Quad, x: seq<Word>, ghost q: Quad) returns (r: Quad)
    requires |x| == 16 && Ops(16, q, x) == w
    ensures Ops(32, q, x) == r
  {
    hide Op, Ops;
    r := w;
    r := FourLines(r, x, 16, Line(1, 5, 0xf61e2562), Line(6, 9, 0xc040b340),
                   Line(11, 14, 0x265e5a51), Line(0, 20, 0xe9b6c7aa), q);
    r := FourLines(r, x, 20, Line(5, 5, 0xd62f105d), Line(10, 9, 0x02441453),
                   Line(15, 14, 0xd8a1e681), Line(4, 20, 0xe7d3fbc8), q);
    r := FourLines(r, x, 24, Line(9, 5, 0x21e1cde6), Line(14, 9, 0xc33707d6),
                   Line(3, 14, 0xf4d50d87), Line(8, 20, 0x455a14ed), q);
    r := FourLines(r, x, 28, Line(13, 5, 0xa9e3e905), Line(2, 9, 0xfcefa3f8),
                   Line(7, 14, 0x676f02d9), Line(12, 20, 0x8d2a4c8a), q);
  }

  /** Round 3, lines 409-424. */
  method Round3(w: Quad, x: seq<Word>, ghost q: Quad) returns (r: Quad)
    requires |x| == 16 && Ops(32, q, x) == w
    ensures Ops(48, q, x) == r
  {
    hide Op, Ops;
    r := w;
    r := FourLines(r, x, 32, Line(5, 4, 0xfffa3942), Line(8, 11, 0x8771f681),
                   Line(11, 16, 0x6d9d6122), Line(14, 23, 0xfde5380c), q);
    r := FourLines(r, x, 36, Line(1, 4, 0xa4beea44), Line(4, 11, 0x4bdecfa9),
                   Line(7, 16, 0xf6bb4b60), Line(10, 23, 0xbebfbc70), q);
    r := FourLines(r, x, 40, Line(13, 4, 0x289b7ec6), Line(0, 11, 0xeaa127fa),
                   Line(3, 16, 0xd4ef3085), Line(6, 23, 0x04881d05), q);
    r := FourLines(r, x, 44, Line(9, 4, 0xd9d4d039), Line(12, 11, 0xe6db99e5),
                   Line(15, 16, 0x1fa27cf8), Line(2, 23, 0xc4ac5665), q);
  }

  /** Round 4, lines 427-442. */
  method Round4(w: Quad, x: seq<Word>, ghost q: Quad) returns (r: Quad)
    requires |x| == 16 && Ops(48, q, x) == w
    ensures Ops(64, q, x) == r
  {
    hide Op, Ops;
    r := w;
    r := FourLines(r, x, 48, Line(0, 6, 0xf4292244), Line(7, 10, 0x432aff97),
                   Line(14, 15, 0xab9423a7), Line(5, 21, 0xfc93a039), q);
    r := FourLines(r, x, 52, Line(12, 6, 0x655b59c3), Line(3, 10, 0x8f0ccc92),
                   Line(10, 15, 0xffeff47d), Line(1, 21, 0x85845dd1), q);
    r := FourLines(r, x, 56, Line(8, 6, 0x6fa87e4f), Line(15, 10, 0xfe2ce6e0),
                   Line(6, 15, 0xa3014314), Line(13, 21, 0x4e0811a1), q);
    r := FourLines(r, x, 60, Line(4, 6, 0xf7537e82), Line(11, 10, 0xbd3af235),
                   Line(2, 15, 0x2ad7d2bb), Line(9, 21, 0xeb86d391), q);
  }

  method Rounds(q: Quad, x: seq<Word>) returns (r: Quad)
    requires |x| == 16
    ensures r == Ops(64, q, x)
  {
    hide Op, Ops;
    NoOps(q, x);
    r := Round1(q, x, q);
    r := Round2(r, x, q);
    r := Round3(r, x, q);
    r := Round4(r, x, q);
  }

  lemma NoOps(q: Quad, x: seq<Word>)
    requires |x| == 16
    ensures Ops(0, q, x) == q
  {
  }
}
