/** The streaming MD5 context of src/utils/md5.cpp. Whatever the pieces are in which a message
    comes in, the result is the RFC 1321 digest of the whole. */
module Md5 {
  import opened Bytes
  import opened Md5Spec
  import opened Numbers
  import Md5Block
  import Fifo

  // ---------- folding over blocks ----------

  /** Folding only looks at the blocks it folds. */
  lemma {:induction false} FoldPrefix(q: Quad, data: seq<Byte>, more: seq<Byte>, n: nat)
    requires 64 * n <= |data|
    ensures Fold(q, data + more, n) == Fold(q, data, n)
  {
    hide Compress;
    if n > 0 {
      FoldPrefix(q, data, more, n - 1);
      assert (data + more)[64 * n - 64..64 * n] == data[64 * n - 64..64 * n];
    }
  }

  lemma {:induction false} FoldJoin(q: Quad, front: seq<Byte>, back: seq<Byte>, m: nat, n: nat)
    requires |front| == 64 * m && 64 * n <= |back|
    ensures Fold(q, front + back, m + n) == Fold(Fold(q, front, m), back, n)
  {
    hide Compress;
    if n == 0 {
      FoldPrefix(q, front, back, m);
    } else {
      FoldJoin(q, front, back, m, n - 1);
      assert (front + back)[64 * (m + n) - 64..64 * (m + n)] == back[64 * n - 64..64 * n];
    }
  }

  // ---------- the byte count ----------

  /** `total[0] += len; if (total[0] < len) ++total[1];` on two 32-bit words, low word first. */
  function AddCount(low: nat, high: nat, len: nat): (r: (nat, nat))
    ensures r.0 < TWO32 && (high < TWO32 ==> r.1 < TWO32)
  {
    var sum := (low + len) % TWO32;
    (sum, if sum < len then (high + 1) % TWO32 else high)
  }

  /** The two words hold the number of bytes modulo 2^64. */
  predicate Counts(low: nat, high: nat, n: nat) {
    low < TWO32 && high < TWO32 && low + TWO32 * high == n % (TWO32 * TWO32)
  }

  /** A 64-bit sum, a word at a time: `carry` is what the low words overflow by. */
  lemma WordSum(low: nat, high: nat, n: nat, len: nat, carry: nat)
    requires Counts(low, high, n) && carry == (low + len) / TWO32
    ensures (n + len) % (TWO32 * TWO32) == (low + len) % TWO32 + TWO32 * ((high + carry) % TWO32)
  {
    var k := n / (TWO32 * TWO32);
    assert n == low + TWO32 * high + TWO32 * TWO32 * k;
    var h := (high + carry) / TWO32;
    assert n + len == (low + len) % TWO32 + TWO32 * ((high + carry) % TWO32) + TWO32 * TWO32 * (k + h);
    Unique((low + len) % TWO32 + TWO32 * ((high + carry) % TWO32), k + h);
  }

  lemma Unique(r: nat, k: nat)
    requires r < TWO32 * TWO32
    ensures (r + TWO32 * TWO32 * k) % (TWO32 * TWO32) == r
  {
  }

  /** The single carry is enough exactly when the low word and the length together stay below
      2^33. A length below 2^32 always does. */
  lemma CarryIsExact(low: nat, high: nat, n: nat, len: nat)
    requires Counts(low, high, n) && len < TWO32 * TWO32
    ensures var r := AddCount(low, high, len);
      Counts(r.0, r.1, n + len) <==> low + len < 2 * TWO32
  {
    var carry := (low + len) / TWO32;
    WordSum(low, high, n, len, carry);
    var c := if (low + len) % TWO32 < len then 1 else 0;
    if low + len < 2 * TWO32 {
      assert c == carry;
    } else {
      assert 2 <= carry <= TWO32 && c == 1;
      assert (high + carry) % TWO32 != (high + 1) % TWO32;
    }
  }

  /** A short piece neither spoils a right count nor mends a wrong one. */
  lemma CountBack(low: nat, high: nat, n: nat, len: nat)
    requires low < TWO32 && high < TWO32 && len < TWO32
    ensures var r := AddCount(low, high, len); Counts(r.0, r.1, n + len) <==> Counts(low, high, n)
  {
    hide AddCount;
    var v, m := low + TWO32 * high, TWO32 * TWO32;
    SmallMod(v, m);
    CountOn(low, high, v, len);
    if Counts(low, high, n) {
      CountOn(low, high, n, len);
    } else if (v + len) % m == (n + len) % m {
      SameMod(v, n, len, m);
    }
  }

  // ---------- the end of a message ----------

  /** What md5_finish_ctx appends to the unprocessed tail: the fill bytes up to the last
      eight of one or two blocks, then the bit count as two shifted words. */
  function Ending(tail: nat, low: nat, high: nat): seq<Byte>
    requires tail <= 64
  {
    var size := if tail < 56 then 64 else 128;
    [0x80] + Zeros(size - 8 - tail - 1)
      + Le32(8 * low % TWO32)                       // total[0] << 3
      + Le32(8 * high % TWO32 + low / 0x2000_0000)  // (total[1] << 3) | (total[0] >> 29)
  }

  lemma BitCount(low: nat, high: nat, n: nat)
    requires Counts(low, high, n)
    ensures 8 * low % TWO32 == 8 * n % TWO32
    ensures 8 * high % TWO32 + low / 0x2000_0000 == 8 * n / TWO32 % TWO32
  {
    var k := n / (TWO32 * TWO32);
    assert n == low + TWO32 * high + TWO32 * TWO32 * k;
    var up, h := low / 0x2000_0000, 8 * high / TWO32;
    LowBits(low);
    var q := 8 * high + up + TWO32 * (8 * k);
    assert 8 * n == TWO32 * q + 8 * low % TWO32;
    DivMod(8 * n, TWO32, q, 8 * low % TWO32);
    assert 8 * high == TWO32 * h + 8 * high % TWO32;
    TopBits(high);
    assert q == TWO32 * (h + 8 * k) + (8 * high % TWO32 + up);
    DivMod(q, TWO32, h + 8 * k, 8 * high % TWO32 + up);
  }

  lemma LowBits(low: nat)
    requires low < TWO32
    ensures 8 * low == TWO32 * (low / 0x2000_0000) + 8 * low % TWO32 && low / 0x2000_0000 < 8
  {
    DivMod(8 * low, TWO32, low / 0x2000_0000, 8 * (low % 0x2000_0000));
  }

  lemma TopBits(high: nat)
    ensures 8 * high % TWO32 <= TWO32 - 8
  {
    DivMod(8 * high, TWO32, high / 0x2000_0000, 8 * (high % 0x2000_0000));
  }

  lemma FillLength(n: nat, tail: nat)
    requires tail <= 64 && tail <= n && (n - tail) % 64 == 0
    ensures (if tail < 56 then 64 else 128) - 8 - tail - 1 == PadZeros(n)
  {
  }

  lemma Joined(m: seq<Byte>, x: seq<Byte>, z: seq<Byte>, l: seq<Byte>, h: seq<Byte>)
    ensures m + (x + z + l + h) == m + x + z + l + h
  {
  }

  lemma EndingPads(msg: seq<Byte>, tail: nat, low: nat, high: nat)
    requires tail <= 64 && tail <= |msg| && (|msg| - tail) % 64 == 0
    requires Counts(low, high, |msg|)
    ensures msg + Ending(tail, low, high) == Pad(msg)
  {
    BitCount(low, high, |msg|);
    FillLength(|msg|, tail);
    hide Le32, Counts, Zeros, PadZeros;
    var bits := 8 * |msg|;
    Joined(msg, [0x80], Zeros(PadZeros(|msg|)), Le32(bits % TWO32), Le32(bits / TWO32 % TWO32));
  }

  /** Whether the count stays right when `len` more bytes come: pieces that go through the buffer
      are short, so that only aligned data taken in one go can overflow the low word twice. */
  predicate CountStays(low: nat, buflen: nat, len: nat, aligned: bool)
    requires buflen <= 64
  {
    var add := if buflen == 0 then 0 else Fifo.Min(len, 128 - buflen);
    var low1 := if buflen + add > 64 then (low + Whole(buflen + add)) % TWO32 else low;
    aligned ==> low1 + Whole(len - add) < 2 * TWO32
  }

  lemma CountOn(low: nat, high: nat, n: nat, len: nat)
    requires Counts(low, high, n) && len < TWO32
    ensures var r := AddCount(low, high, len); Counts(r.0, r.1, n + len)
  {
    CarryIsExact(low, high, n, len);
  }

  /** `q` is what the `n` blocks in `data` lead to. */
  ghost predicate Folds(q: Quad, data: seq<Byte>, n: nat) {
    |data| == 64 * n && q == Fold(INITIAL, data, n)
  }

  lemma FoldsOn(q: Quad, front: seq<Byte>, m: nat, back: seq<Byte>, n: nat)
    requires Folds(q, front, m) && |back| == 64 * n
    ensures Folds(Fold(q, back, n), front + back, m + n)
  {
    hide Fold;
    FoldJoin(INITIAL, front, back, m, n);
  }

  lemma FoldsWhole(q: Quad, data: seq<Byte>, n: nat)
    requires Folds(q, data, n)
    ensures |data| == 64 * n
  {
  }

  lemma DigestIs(q: Quad, msg: seq<Byte>, n: nat)
    requires Folds(q, Pad(msg), n)
    ensures Output(q) == Digest(msg)
  {
    hide Fold, Pad;
    assert |Pad(msg)| / 64 == n;
  }

  /** The three pieces that the ending writes lie one behind the other. */
  lemma Layers(b: seq<Byte>, bytes: nat, size: nat, fill: seq<Byte>, first: seq<Byte>, second: seq<Byte>)
    requires size <= |b| && |first| == |second| == 4 && bytes + |fill| + 8 == size
    ensures var w := Fifo.Written(Fifo.Written(Fifo.Written(b, size - 8, first), size - 4, second), bytes, fill);
      w[..size] == b[..bytes] + fill + first + second
  {
  }

  lemma EndingParts(bytes: nat, low: nat, high: nat)
    requires bytes <= 64
    ensures Ending(bytes, low, high)
         == [0x80] + Zeros((if bytes < 56 then 64 else 128) - 8 - bytes - 1)
            + Le32(8 * low % TWO32) + Le32(8 * high % TWO32 + low / 0x2000_0000)
  {
  }

  lemma WrittenStart(b: seq<Byte>, src: seq<Byte>)
    requires |src| <= |b|
    ensures Fifo.Written(b, 0, src)[..|src|] == src
  {
  }

  // ---------- the context ----------

  class Md5Ctx {
    var regs: Quad                // A, B, C and D
    var low: nat
    var high: nat
    var buflen: nat
    const buffer: array<Byte>
    ghost var folded: seq<Byte>   // the whole blocks already processed
    ghost var blocks: nat         // and how many there are

    ghost predicate Holds()
      reads this
    {
      && buffer.Length == 128 && buflen <= 128 && low < TWO32 && high < TWO32
      && Folds(regs, folded, blocks)
    }

    /** Whole blocks are folded; a tail of at most 64 bytes waits in the buffer. */
    ghost predicate Valid()
      reads this
    {
      Holds() && buflen <= 64
    }

    /** Everything taken in so far. */
    ghost function Message(): seq<Byte>
      requires Holds()
      reads this, buffer
    {
      folded + buffer[..buflen]
    }

    /** The count is that of the folded bytes. */
    ghost predicate Counted()
      reads this
    {
      Counts(low, high, |folded|)
    }

    constructor ()
      ensures Valid() && Counted() && Message() == [] && fresh(buffer)
    {
      regs := Quad(0x67452301, 0xefcdab89, 0x98badcfe, 0x10325476);
      low, high, buflen := 0, 0, 0;
      buffer := new Byte[128](_ => 0);
      folded, blocks := [], 0;
    }

    method AddToTotal(len: nat)
      modifies this`low, this`high
      ensures (low, high) == AddCount(old(low), old(high), len)
    {
      low := (low + len) % TWO32;
      if low < len {
        high := (high + 1) % TWO32;
      }
    }

    /** The count of the folded bytes stays right exactly when one carry is enough. */
    method ProcessBlock(data: seq<Byte>, n: nat)
      requires Holds() && |data| == 64 * n
      modifies this`regs, this`low, this`high, this`folded, this`blocks
      ensures Holds() && folded == old(folded) + data
      ensures (low, high) == AddCount(old(low), old(high), |data|)
      ensures |data| < TWO32 ==> (Counted() <==> old(Counted()))
      ensures old(Counted()) && |data| < TWO32 * TWO32 ==> (Counted() <==> old(low) + |data| < 2 * TWO32)
    {
      hide Fold, Folds, Counts, AddCount;
      FoldsOn(regs, folded, blocks, data, n);
      if |data| < TWO32 {
        CountBack(low, high, |folded|, |data|);
      }
      if Counted() && |data| < TWO32 * TWO32 {
        CarryIsExact(low, high, |folded|, |data|);
      }
      AddToTotal(|data|);
      regs := Blocks(regs, data, n);
      folded, blocks := folded + data, blocks + n;
    }

    /** `data` goes behind the waiting tail. */
    method Append(data: seq<Byte>)
      requires Holds() && buflen + |data| <= 128
      modifies buffer, this`buflen
      ensures Holds() && buflen == old(buflen) + |data| && Message() == old(Message()) + data
    {
      hide Folds;
      Fifo.Memcpy(buffer, buflen, data);
      buflen := buflen + |data|;
      assert buffer[..buflen] == old(buffer[..buflen]) + data;
    }

    /** The whole blocks of the buffer are folded and the rest moves to its start. */
    method Flush()
      requires Holds() && 64 <= buflen
      modifies buffer, this`buflen, this`regs, this`low, this`high, this`folded, this`blocks
      ensures Valid() && buflen < 64 && Message() == old(Message())
      ensures old(buflen) == 64 || old(buflen) == 128 ==> buflen == 0
      ensures low == (old(low) + Whole(old(buflen))) % TWO32
      ensures Counted() <==> old(Counted())
    {
      hide Fold, Folds, Counts, Whole, Fifo.Written;
      var whole := Whole(buflen);
      var front, rest := buffer[..whole], buffer[whole..buflen];
      assert buffer[..buflen] == front + rest;
      ProcessBlock(front, whole / 64);
      buflen := buflen - whole;
      WrittenStart(buffer[..], rest);
      Fifo.Memcpy(buffer, 0, rest);
      assert buffer[..buflen] == buffer[..][..buflen] == rest;
    }

    /** md5_process_bytes; `aligned` says whether what is left of the data after topping up
        the buffer starts at an address for whole words. */
    method ProcessBytes(data0: seq<Byte>, aligned: bool)
      requires Valid()
      modifies this, buffer
      ensures Valid() && Message() == old(Message()) + data0
      ensures old(Counted()) && |data0| < TWO32 * TWO32 ==>
                (Counted() <==> CountStays(old(low), old(buflen), |data0|, aligned))
    {
      hide Fold, Folds, Counts, AddCount, Whole;
      var data := data0;
      if buflen != 0 {
        var add := if 128 - buflen > |data| then |data| else 128 - buflen;
        Append(data[..add]);
        if buflen > 64 {
          Flush();
        }
        assert data0 == data[..add] + data[add..];
        data := data[add..];
      }
      assert Message() + data == old(Message()) + data0;
      if |data| >= 64 {
        data := WholeBlocks(data, aligned);
      }
      if |data| > 0 {
        Append(data);
        if buflen >= 64 {
          Flush();
        }
      }
    }

    /** Lines 248-268: aligned data is folded in one piece and leaves less than a block;
        unaligned data goes block by block through the buffer and leaves up to one. */
    method WholeBlocks(data0: seq<Byte>, aligned: bool) returns (data: seq<Byte>)
      requires Valid() && buflen == 0
      modifies this`regs, this`low, this`high, this`folded, this`blocks, buffer
      ensures Valid() && |data| <= 64
      ensures Message() + data == old(Message()) + data0
      ensures old(Counted()) && |data0| < TWO32 * TWO32 ==>
                (Counted() <==> (aligned ==> old(low) + Whole(|data0|) < 2 * TWO32))
    {
      hide Fold, Folds, Counts, AddCount, Whole;
      data := data0;
      if !aligned {
        while |data| > 64
          invariant Valid() && buflen == 0
          invariant folded + data == old(folded) + data0 && |data| <= |data0|
          invariant old(Counted()) ==> Counted()
        {
          Fifo.Memcpy(buffer, 0, data[..64]);
          ProcessBlock(data[..64], 1);
          assert data == data[..64] + data[64..];
          data := data[64..];
        }
      } else {
        var whole := Whole(|data|);
        ProcessBlock(data[..whole], whole / 64);
        assert data == data[..whole] + data[whole..];
        data := data[whole..];
      }
      assert folded + buffer[..buflen] == folded;
    }

    /** Lines 118-121: the bit count goes to the end of the buffer, the fill bytes before it. */
    method WriteEnding(bytes: nat, size: nat)
      requires buffer.Length == 128 && bytes <= 64 && size == if bytes < 56 then 64 else 128
      modifies buffer
      ensures buffer[..size] == old(buffer[..bytes]) + Ending(bytes, low, high)
    {
      hide Le32, Zeros, Ending, Fifo.Written;
      var first, second := Le32(8 * low % TWO32), Le32(8 * high % TWO32 + low / 0x2000_0000);
      var fill := [0x80] + Zeros(size - 8 - bytes - 1);
      Fifo.Memcpy(buffer, size - 8, first);
      Fifo.Memcpy(buffer, size - 4, second);
      Fifo.Memcpy(buffer, bytes, fill);
      Layers(old(buffer[..]), bytes, size, fill, first, second);
      EndingParts(bytes, low, high);
      Joined(old(buffer[..])[..bytes], [0x80], Zeros(size - 8 - bytes - 1), first, second);
      assert buffer[..][..size] == buffer[..size] && old(buffer[..])[..bytes] == old(buffer[..bytes]);
    }

    /** md5_finish_ctx: the result is the digest of everything taken in, provided the count
        is right. */
    method Finish() returns (r: seq<Byte>)
      requires Valid()
      modifies this, buffer
      ensures |r| == 16
      ensures old(Counted()) ==> r == Digest(old(Message()))
    {
      hide Fold, Folds, Counts, AddCount, Pad, Digest, Output, Ending;
      var bytes := buflen;
      var size := if bytes < 56 then 64 else 128;
      ghost var message, counted, low0, high0 := Message(), Counted(), low, high;
      AddToTotal(bytes);
      ghost var low1, high1 := low, high;
      if counted {
        assert |message| == |folded| + bytes && |folded| % 64 == 0 by {
          FoldsWhole(regs, folded, blocks);
        }
        CountOn(low0, high0, |folded|, bytes);
        EndingPads(message, bytes, low1, high1);
      }
      WriteEnding(bytes, size);
      assert folded + (old(buffer[..buflen]) + Ending(bytes, low, high)) == message + Ending(bytes, low, high);
      ProcessBlock(buffer[..size], size / 64);
      if counted {
        assert folded == message + Ending(bytes, low1, high1);
        DigestIs(regs, message, blocks);
      }
      r := Output(regs);
    }
  }

  /** `n & ~63` */
  function Whole(n: nat): (w: nat)
    ensures w == 64 * (w / 64) && w <= n < w + 64
    ensures n == 64 || n == 128 ==> w == n
  {
    n - n % 64
  }

  /** The loop at lines 321-449. */
  method Blocks(q0: Quad, data: seq<Byte>, n: nat) returns (q: Quad)
    requires |data| == 64 * n
    ensures q == Fold(q0, data, n)
  {
    hide Compress;
    q := q0;
    for i := 0 to n
      invariant q == Fold(q0, data, i)
    {
      q := OneBlock(q, data[64 * i..64 * i + 64]);
    }
  }

  /** The body of the loop at lines 321-449. */
  method OneBlock(q: Quad, block: seq<Byte>) returns (r: Quad)
    requires |block| == 64
    ensures r == Compress(q, block)
  {
    hide Ops, LittleEndian;
    var rounds := Md5Block.Rounds(q, BlockWords(block));
    r := Add(q, rounds);
  }

  lemma ShortPiecesCount(low: nat, buflen: nat, len: nat, aligned: bool)
    requires low < TWO32 && buflen <= 64 && len < TWO32
    ensures CountStays(low, buflen, len, aligned)
  {
    hide Whole;
  }

  // ---------- whole messages ----------

  function Flatten(pieces: seq<seq<Byte>>): seq<Byte> {
    if pieces == [] then [] else Flatten(pieces[..|pieces| - 1]) + pieces[|pieces| - 1]
  }

  /** md5_init_ctx, md5_process_bytes for each piece and md5_finish_ctx, as play_file and
      decode_loop of src/library/player.cpp call them: for every message, every way of cutting
      it and every alignment the result is the RFC 1321 digest of the whole. */
  method DigestInPieces(pieces: seq<seq<Byte>>, aligned: seq<bool>) returns (r: seq<Byte>)
    requires |aligned| == |pieces|
    ensures |r| == 16
    ensures (forall p | p in pieces :: |p| < TWO32) ==> r == Digest(Flatten(pieces))
  {
    hide Digest;
    var ctx := new Md5Ctx();
    ghost var small := forall p | p in pieces :: |p| < TWO32;
    for i := 0 to |pieces|
      invariant fresh(ctx) && fresh(ctx.buffer) && ctx.Valid()
      invariant ctx.Message() == Flatten(pieces[..i])
      invariant small ==> ctx.Counted()
    {
      assert pieces[..i + 1][..i] == pieces[..i] && pieces[i] in pieces;
      if small {
        ShortPiecesCount(ctx.low, ctx.buflen, |pieces[i]|, aligned[i]);
      }
      ctx.ProcessBytes(pieces[i], aligned[i]);
    }
    assert pieces[..|pieces|] == pieces;
    r := ctx.Finish();
  }

  /** md5_buffer */
  method DigestOfBuffer(data: seq<Byte>, aligned: bool) returns (r: seq<Byte>)
    ensures |r| == 16
    ensures |data| < TWO32 ==> r == Digest(data)
  {
    hide Digest;
    var ctx := new Md5Ctx();
    if |data| < TWO32 {
      ShortPiecesCount(ctx.low, ctx.buflen, |data|, aligned);
    }
    ctx.ProcessBytes(data, aligned);
    assert [] + data == data;
    r := ctx.Finish();
  }
}
