/** The search for ADTS frames in src/audio/decoders/aac/aac.cpp: a sliding buffer over a
    stream, and the frame header of section 6.2 of ISO/IEC 13818-7. */
module Adts {
  import opened Bytes
  import Fifo
  import opened Numbers

  const BUFFER_SIZE: nat := 768 * 6 * 4

  // ---------- the header ----------

  /** parse_frame: the frame's length, or 0 if no header starts here. The shifts and masks are
      written as multiplications, divisions and remainders. */
  function ParseFrame(data: seq<Byte>): (len: nat)
    requires |data| == 6
    ensures len < 8192
  {
    if data[0] != 0xFF then 0
    else if data[1] as nat / 16 != 0xF then 0
    else if (data[1] as nat / 2) % 4 != 0 then 0
    else (data[3] as nat * 2048 + data[4] as nat * 8 + data[5] as nat / 32) % 8192
  }

  function PowerOfTwo(k: nat): (r: nat)
    ensures r > 0
  {
    if k == 0 then 1 else 2 * PowerOfTwo(k - 1)
  }

  /** Bit `i` of a byte string, the most significant bit of each byte first. */
  function Bit(data: seq<Byte>, i: nat): nat
    requires i < 8 * |data|
  {
    (data[i / 8] as nat / PowerOfTwo(7 - i % 8)) % 2
  }

  /** The number that `count` bits from `from` on spell. */
  function Field(data: seq<Byte>, from: nat, count: nat): nat
    requires from + count <= 8 * |data|
  {
    if count == 0 then 0 else 2 * Field(data, from, count - 1) + Bit(data, from + count - 1)
  }

  lemma Halves(x: nat, p: nat)
    requires p > 0
    ensures x % (2 * p) == 2 * ((x / 2) % p) + x % 2
  {
    var h := x / 2;
    var q, r := h / p, h % p;
    Twice(p, q);
    assert h == p * q + r;
    DivMod(x, 2 * p, q, 2 * r + x % 2);
  }

  lemma Twice(p: nat, q: nat)
    ensures (2 * p) * q == 2 * (p * q)
  {
  }

  lemma HalfOfQuotient(x: nat, m: nat)
    requires m > 0
    ensures x / m / 2 == x / (2 * m)
  {
    var q := x / m;
    var r := m * (q % 2) + x % m;
    assert x == m * q + x % m;
    SplitInTwo(m, q);
    Twice(m, q / 2);
    DivMod(x, 2 * m, q / 2, r);
  }

  lemma SplitInTwo(m: nat, q: nat)
    ensures m * q == 2 * (m * (q / 2)) + m * (q % 2) && 0 <= m * (q % 2) <= m
  {
    if q % 2 == 0 {
      assert q == 2 * (q / 2);
    } else {
      assert q == 2 * (q / 2) + 1;
    }
  }

  /** `v` without its `shift` lowest bits, and of those the `k` lowest. */
  function Bits(v: nat, shift: nat, k: nat): nat {
    v / PowerOfTwo(shift) % PowerOfTwo(k)
  }

  lemma NextBit(v: nat, shift: nat, k: nat)
    ensures Bits(v, shift, 0) == 0
    ensures Bits(v, shift, k + 1) == 2 * Bits(v, shift + 1, k) + Bits(v, shift, 1)
  {
    Doubles(shift);
    Doubles(k);
    Doubles(0);
    var m, p := PowerOfTwo(shift), PowerOfTwo(k);
    HalfOfQuotient(v, m);
    Halves(v / m, p);
    assert Bits(v, shift, 1) == v / m % 2;
    assert Bits(v, shift, k + 1) == v / m % (2 * p);
    assert Bits(v, shift + 1, k) == v / (2 * m) % p;
  }

  lemma BitInByte(d: seq<Byte>, i: nat, b: nat)
    requires i < |d| && b < 8
    ensures Bit(d, 8 * i + b) == Bits(d[i] as nat, 7 - b, 1)
  {
    hide PowerOfTwo;
    Doubles(0);
    assert (8 * i + b) / 8 == i && (8 * i + b) % 8 == b;
  }

  lemma FieldStep(d: seq<Byte>, from: nat, k: nat)
    requires from + k + 1 <= 8 * |d|
    ensures Field(d, from, 0) == 0
    ensures Field(d, from, k + 1) == 2 * Field(d, from, k) + Bit(d, from + k)
  {
    hide Bit;
  }

  lemma Doubles(k: nat)
    ensures PowerOfTwo(0) == 1 && PowerOfTwo(k + 1) == 2 * PowerOfTwo(k)
  {
  }

  /** A field inside one byte. */
  lemma {:induction false} FieldInByte(d: seq<Byte>, i: nat, o: nat, k: nat)
    requires i < |d| && o + k <= 8
    ensures Field(d, 8 * i + o, k) == Bits(d[i] as nat, 8 - o - k, k)
  {
    hide Bit, Field, Bits;
    if k == 0 {
      NoField(d, 8 * i + o);
      NextBit(d[i] as nat, 8 - o, 0);
    } else {
      FieldInByte(d, i, o, k - 1);
      FieldStep(d, 8 * i + o, k - 1);
      NextBit(d[i] as nat, 8 - o - k, k - 1);
      BitInByte(d, i, o + k - 1);
    }
  }

  lemma NoField(d: seq<Byte>, from: nat)
    requires from <= 8 * |d|
    ensures Field(d, from, 0) == 0
  {
  }

  lemma {:induction false} FieldJoin(d: seq<Byte>, from: nat, a: nat, b: nat)
    requires from + a + b <= 8 * |d|
    ensures Field(d, from, a + b) == Field(d, from, a) * PowerOfTwo(b) + Field(d, from + a, b)
  {
    hide Bit, Field, PowerOfTwo;
    if b == 0 {
      NoField(d, from + a);
      Doubles(0);
    } else {
      FieldJoin(d, from, a, b - 1);
      FieldStep(d, from, a + b - 1);
      FieldStep(d, from + a, b - 1);
      Doubles(b - 1);
      Twice(PowerOfTwo(b - 1), Field(d, from, a));
    }
  }

  lemma Powers()
    ensures PowerOfTwo(0) == 1 && PowerOfTwo(1) == 2 && PowerOfTwo(2) == 4 && PowerOfTwo(3) == 8
    ensures PowerOfTwo(4) == 16 && PowerOfTwo(5) == 32 && PowerOfTwo(8) == 256 && PowerOfTwo(11) == 2048
  {
  }

  lemma BitsOfByte(v: nat)
    requires v < 256
    ensures Bits(v, 0, 8) == v && Bits(v, 0, 2) == v % 4 && Bits(v, 5, 3) == v / 32
    ensures Bits(v, 4, 4) == v / 16 && Bits(v, 1, 2) == v / 2 % 4
  {
    Powers();
    hide PowerOfTwo;
  }

  lemma SyncField(d: seq<Byte>)
    requires |d| == 6
    ensures Field(d, 0, 12) == 16 * d[0] as nat + d[1] as nat / 16
  {
    hide Field, PowerOfTwo, Bits;
    Powers();
    FieldJoin(d, 0, 8, 4);
    FieldInByte(d, 0, 0, 8);
    FieldInByte(d, 1, 0, 4);
    BitsOfByte(d[0] as nat);
    BitsOfByte(d[1] as nat);
  }

  lemma LayerField(d: seq<Byte>)
    requires |d| == 6
    ensures Field(d, 13, 2) == d[1] as nat / 2 % 4
  {
    hide Field, PowerOfTwo, Bits;
    FieldInByte(d, 1, 5, 2);
    BitsOfByte(d[1] as nat);
  }

  lemma LengthField(d: seq<Byte>)
    requires |d| == 6
    ensures Field(d, 30, 13) == (d[3] as nat % 4) * 2048 + d[4] as nat * 8 + d[5] as nat / 32
  {
    hide Field, PowerOfTwo, Bits;
    Powers();
    FieldJoin(d, 30, 2, 11);
    FieldJoin(d, 32, 8, 3);
    FieldInByte(d, 3, 6, 2);
    FieldInByte(d, 4, 0, 8);
    FieldInByte(d, 5, 0, 3);
    BitsOfByte(d[3] as nat);
    BitsOfByte(d[4] as nat);
    BitsOfByte(d[5] as nat);
  }

  lemma SyncNumber(high: nat, low: nat)
    requires high < 256 && low < 16
    ensures 16 * high + low == 0xFFF <==> high == 0xFF && low == 0xF
  {
  }

  lemma LengthNumber(a: nat, b: nat, c: nat)
    requires b < 256 && c < 8
    ensures (a * 2048 + b * 8 + c) % 8192 == a % 4 * 2048 + b * 8 + c
  {
    DivMod(a * 2048 + b * 8 + c, 8192, a / 4, a % 4 * 2048 + b * 8 + c);
  }

  /** A frame starts where the twelve sync bits are set and the layer is zero; its length is
      the 13-bit field that begins at bit 30. */
  lemma HeaderFields(d: seq<Byte>)
    requires |d| == 6
    ensures ParseFrame(d) == if Field(d, 0, 12) == 0xFFF && Field(d, 13, 2) == 0 then Field(d, 30, 13) else 0
  {
    hide Field;
    SyncField(d);
    LayerField(d);
    LengthField(d);
    var sync, top: nat := d[1] as nat / 16, d[5] as nat / 32;
    SyncNumber(d[0] as nat, sync);
    LengthNumber(d[3] as nat, d[4] as nat, top);
  }

  // ---------- the buffer ----------

  /** The input stream: io_read gives some of what is left and nothing at the end, `left` times,
      and then fails. */
  class Source {
    var rest: seq<Byte>
    var left: nat

    constructor (data: seq<Byte>, left: nat)
      ensures rest == data && this.left == left
    {
      rest, this.left := data, left;
    }

    method Read(size: nat) returns (data: seq<Byte>, failed: bool)
      requires size > 0
      modifies this
      ensures failed <==> old(left) == 0
      ensures failed ==> data == [] && rest == old(rest) && left == 0
      ensures !failed ==> data + rest == old(rest) && |data| <= size && (data == [] ==> rest == [])
      ensures !failed ==> left == old(left) - 1
    {
      if left == 0 {
        return [], true;
      }
      failed, left := false, left - 1;
      if |rest| == 0 {
        return [], false;
      }
      var n: nat :| 0 < n <= |rest| && n <= size;
      data, rest := rest[..n], rest[n..];
    }
  }

  /** Reads that did not fail: each took something, but one that met the end. */
  ghost predicate Spent(was: nat, left: nat, taken: int, atEnd: bool) {
    left <= was <= left + taken + (if atEnd then 1 else 0)
  }

  /** A header stands at offset `k`, with all its six bytes. */
  predicate IsFrame(a: seq<Byte>, k: nat) {
    k + 6 <= |a| && ParseFrame(a[k..k + 6]) != 0
  }

  predicate NoFrameBefore(a: seq<Byte>, n: nat) {
    forall k :: 0 <= k < n ==> !IsFrame(a, k)
  }

  /** How many offsets are tried before giving up. */
  const TRIES: nat := 32768

  lemma Shift(cells: seq<Byte>, pos: nat, len: nat, rest: seq<Byte>)
    requires pos <= len <= |cells|
    ensures Fifo.Written(cells, 0, cells[pos..len])[..len - pos] + rest == cells[pos..len] + rest
  {
  }

  lemma Grow(cells: seq<Byte>, len: nat, data: seq<Byte>, rest: seq<Byte>)
    requires len + |data| <= |cells|
    ensures Fifo.Written(cells, len, data)[..len + |data|] + rest == cells[..len] + (data + rest)
  {
    assert Fifo.Written(cells, len, data)[..len + |data|] == cells[..len] + data;
  }

  lemma Rejected(a: seq<Byte>, k: nat)
    requires NoFrameBefore(a, k) && (k + 6 <= |a| ==> ParseFrame(a[k..k + 6]) == 0)
    ensures NoFrameBefore(a, k + 1)
  {
    hide ParseFrame;
  }

  lemma Window(a: seq<Byte>, skipped: nat, have: seq<Byte>, rest: seq<Byte>, n: nat)
    requires skipped <= |a| && a[skipped..] == have + rest && n + 6 <= |have|
    ensures skipped + n + 6 <= |a| && a[skipped + n..skipped + n + 6] == have[n..n + 6]
  {
    assert a[skipped..][n..n + 6] == (have + rest)[n..n + 6] == have[n..n + 6];
  }

  class Buffer {
    const rbuf: array<Byte>
    const source: Source
    var rbufLen: nat
    var rbufPos: nat

    ghost predicate Valid()
      reads this
    {
      rbuf.Length == BUFFER_SIZE && rbufPos <= rbufLen <= BUFFER_SIZE
    }

    /** The buffered bytes from the current position on. */
    ghost function Have(): seq<Byte>
      requires Valid()
      reads this, rbuf
    {
      rbuf[rbufPos..rbufLen]
    }

    /** The stream from the current position on. */
    ghost function Ahead(): seq<Byte>
      requires Valid()
      reads this, rbuf, source
    {
      Have() + source.rest
    }

    constructor (stream: Source)
      ensures Valid() && source == stream && Ahead() == stream.rest && fresh(rbuf)
    {
      rbuf := new Byte[BUFFER_SIZE];
      source, rbufLen, rbufPos := stream, 0, 0;
    }

    /** buffer_length */
    function Length(): int
      reads this
    {
      rbufLen - rbufPos
    }

    /** buffer_fill */
    method Fill() returns (rc: int, ghost failed: bool)
      requires Valid()
      modifies this, rbuf, source
      ensures Valid() && Ahead() == old(Ahead()) && rbufPos == 0
      ensures rc in {-1, 0, 1} && (rc == -1 <==> failed)
      ensures rc == 1 ==> Length() > old(Length()) || old(Length()) == BUFFER_SIZE
      ensures rc <= 0 ==> Length() == old(Length()) < BUFFER_SIZE
      ensures rc == 0 ==> source.rest == []
      ensures failed ==> source.left == 0
      ensures Spent(old(source.left), source.left, |old(source.rest)| - |source.rest|, rc == 0)
    {
      hide Fifo.Written;
      failed := false;
      if rbufPos > 0 {
        Shift(rbuf[..], rbufPos, rbufLen, source.rest);
        assert rbuf[..][rbufPos..rbufLen] == rbuf[rbufPos..rbufLen];
        var n := Length();
        Fifo.Memcpy(rbuf, 0, rbuf[rbufPos..rbufLen]);
        assert rbuf[..][..n] == rbuf[..n];
        rbufLen := n;
        rbufPos := 0;
      }
      assert Have() == rbuf[..rbufLen] == rbuf[..][..rbufLen];
      if rbufLen == BUFFER_SIZE {
        return 1, false;
      }
      var data, bad := source.Read(BUFFER_SIZE - rbufLen);
      failed := bad;
      if bad {
        return -1, true;
      }
      if |data| == 0 {
        assert [] + source.rest == source.rest;
        return 0, false;
      }
      Grow(rbuf[..], rbufLen, data, source.rest);
      Fifo.Memcpy(rbuf, rbufLen, data);
      rbufLen := rbufLen + |data|;
      assert Have() == rbuf[..rbufLen] == rbuf[..][..rbufLen];
      rc := 1;
    }

    /** buffer_consume */
    method Consume(n: nat)
      requires Valid() && n <= Length()
      modifies this
      ensures Valid() && n <= |old(Ahead())| && Ahead() == old(Ahead())[n..]
      ensures Length() == old(Length()) - n
    {
      rbufPos := rbufPos + n;
    }

    /** buffer_fill_min: nothing moves, and `len` bytes are there unless the stream ends first
        or fails. */
    method FillMin(len: nat) returns (rc: int, ghost failed: bool)
      requires Valid() && len < BUFFER_SIZE
      modifies this, rbuf, source
      ensures Valid() && Ahead() == old(Ahead())
      ensures rc in {-1, 0, 1} && (rc == -1 <==> failed)
      ensures rc == 1 ==> Length() >= len
      ensures rc <= 0 ==> Length() < len
      ensures rc == 0 ==> source.rest == []
      ensures failed ==> source.left == 0
      ensures Spent(old(source.left), source.left, |old(source.rest)| - |source.rest|, rc == 0)
    {
      while Length() < len
        invariant Valid() && Ahead() == old(Ahead())
        invariant Spent(old(source.left), source.left, |old(source.rest)| - |source.rest|, false)
        decreases BUFFER_SIZE - Length()
      {
        rc, failed := Fill();
        if rc <= 0 {
          return;
        }
      }
      return 1, false;
    }

    /** The outer loop of buffer_fill_frame, up to the header. */
    method SkipToFrame() returns (rc: int, len: nat, ghost skipped: nat, ghost failed: bool)
      requires Valid()
      modifies this, rbuf, source
      ensures Valid() && skipped <= |old(Ahead())| && Ahead() == old(Ahead())[skipped..]
      ensures NoFrameBefore(old(Ahead()), skipped) && skipped <= TRIES
      ensures rc in {-1, 0, 1}
      ensures rc == 1 ==> skipped < TRIES && IsFrame(old(Ahead()), skipped) && len < 8192
                          && len == ParseFrame(old(Ahead())[skipped..skipped + 6])
      ensures rc == 0 ==> source.rest == [] && NoFrameBefore(old(Ahead()), |old(Ahead())|)
      ensures rc == 0 ==> |old(Ahead())| < TRIES + 6
      ensures rc == -1 && !failed ==> NoFrameBefore(old(Ahead()), TRIES) && |old(Ahead())| >= TRIES + 6
      ensures failed ==> rc == -1 && source.left == 0 && Length() < 6
      ensures Spent(old(source.left), source.left, |old(source.rest)| - |source.rest|, rc == 0)
    {
      hide ParseFrame, IsFrame, NoFrameBefore;
      ghost var a := Ahead();
      NoneYet(a);
      var max := TRIES;
      skipped, failed, len := 0, false, 0;
      while true
        invariant Valid() && skipped <= |a| && Ahead() == a[skipped..]
        invariant max == TRIES - skipped && NoFrameBefore(a, skipped)
        invariant Spent(old(source.left), source.left, |old(source.rest)| - |source.rest|, false)
        decreases |a| - skipped
      {
        rc, failed := FillMin(6);
        if rc == 0 {
          NoMoreFrames(a, skipped);
          return;
        }
        if rc < 0 {
          return;
        }
        var n, found := Scan(max, a, skipped);
        if found < 0 {
          NoFramesAtAll(a, skipped, n);
          return -1, 0, skipped, false;
        }
        Consume(n);
        max := max - n;
        skipped := skipped + n;
        if found > 0 {
          return 1, found, skipped, false;
        }
      }
    }

    /** buffer_fill_frame. `skipped` bytes were consumed and no others; no header starts in
        them. On 1 the first header stands at the position, its whole frame buffered; on 0 the
        stream ended without a header or inside a frame; without a failed read, -1 means that
        there is no header at the first 32768 offsets. A failed read counts only when the bytes
        buffered do not hold a whole frame. */
    method FillFrame() returns (rc: int, ghost skipped: nat, ghost failed: bool)
      requires Valid()
      modifies this, rbuf, source
      ensures Valid() && skipped <= |old(Ahead())| && Ahead() == old(Ahead())[skipped..]
      ensures NoFrameBefore(old(Ahead()), skipped)
      ensures rc == 1 ==>
                skipped < TRIES && IsFrame(old(Ahead()), skipped)
                && Length() >= ParseFrame(old(Ahead())[skipped..skipped + 6])
      ensures rc == 0 ==>
                source.rest == [] && Length() == |Ahead()|
                && (NoFrameBefore(old(Ahead()), |old(Ahead())|)
                    || (IsFrame(old(Ahead()), skipped) && Length() < ParseFrame(old(Ahead())[skipped..skipped + 6])))
      ensures rc in {-1, 0, 1}
      ensures !failed ==> (rc == -1 <==> NoFrameBefore(old(Ahead()), TRIES) && |old(Ahead())| >= TRIES + 6)
      ensures failed ==> rc == -1 && source.left == 0
      ensures failed ==>
                Length() < 6
                || (IsFrame(old(Ahead()), skipped) && Length() < ParseFrame(old(Ahead())[skipped..skipped + 6]))
      ensures |old(source.rest)| < old(source.left) ==> !failed
    {
      hide ParseFrame, IsFrame, NoFrameBefore;
      ghost var a := Ahead();
      var len;
      rc, len, skipped, failed := SkipToFrame();
      if rc == 1 {
        FirstFrame(a, skipped);
        rc, failed := FillMin(len);
      }
    }

    /** The inner loop: stops at the first header, with its frame length, or after the last
        offset with six bytes, with 0, or when no try is left, with -1. */
    method Scan(tries: nat, ghost a: seq<Byte>, ghost skipped: nat) returns (n: nat, len: int)
      requires Valid() && Length() >= 6 && skipped <= |a| && Ahead() == a[skipped..] && NoFrameBefore(a, skipped)
      ensures n <= Length() - 5 && n <= tries && NoFrameBefore(a, skipped + n)
      ensures -1 <= len < 8192
      ensures len == -1 ==> n == tries && n < Length() - 5
      ensures len == 0 ==> n == Length() - 5
      ensures len > 0 ==> n < tries && IsFrame(a, skipped + n) && len == ParseFrame(a[skipped + n..skipped + n + 6])
    {
      hide ParseFrame, NoFrameBefore;
      n := 0;
      while n < Length() - 5
        invariant n <= Length() - 5 && n <= tries && NoFrameBefore(a, skipped + n)
      {
        if n == tries {
          return n, -1;
        }
        var at := rbufPos + n;
        Window(a, skipped, Have(), source.rest, n);
        assert Have()[n..n + 6] == rbuf[at..at + 6];
        assert rbuf[at..at + 6] == a[skipped + n..skipped + n + 6];
        len := ParseFrame(rbuf[at..at + 6]);
        if len != 0 {
          return;
        }
        Rejected(a, skipped + n);
        n := n + 1;
      }
      len := 0;
    }
  }

  lemma NoMoreFrames(a: seq<Byte>, skipped: nat)
    requires skipped <= |a| && |a| - skipped < 6 && NoFrameBefore(a, skipped)
    ensures NoFrameBefore(a, |a|)
  {
  }

  lemma NoneYet(a: seq<Byte>)
    ensures NoFrameBefore(a, 0)
  {
  }

  lemma NoFramesAtAll(a: seq<Byte>, skipped: nat, n: nat)
    requires NoFrameBefore(a, skipped + n) && skipped + n == TRIES
    ensures NoFrameBefore(a, TRIES)
  {
  }

  lemma FirstFrame(a: seq<Byte>, skipped: nat)
    requires skipped < TRIES && IsFrame(a, skipped)
    ensures !NoFrameBefore(a, TRIES)
  {
  }
}
