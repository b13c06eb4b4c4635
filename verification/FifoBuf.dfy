/** The ring buffer of src/utils/fifo_buf.cpp and the bounded byte queue it implements. */
module Fifo {

  // ---------- the queue, on values ----------

  function Min(a: nat, b: nat): nat {
    if a <= b then a else b
  }

  /** What `put` accepts of `data` when `q` is queued in a buffer of size `capacity`. */
  function Accepted<T>(q: seq<T>, capacity: nat, data: seq<T>): seq<T>
    requires |q| <= capacity
  {
    data[..Min(capacity - |q|, |data|)]
  }

  // ---------- the storage, on values ----------

  /** `cells` with `src` written over it from `at` on. */
  function Written<T>(cells: seq<T>, at: nat, src: seq<T>): (r: seq<T>)
    requires at + |src| <= |cells|
    ensures |r| == |cells|
    ensures forall i :: 0 <= i < |r| ==> r[i] == if at <= i < at + |src| then src[i - at] else cells[i]
  {
    cells[..at] + src + cells[at + |src|..]
  }

  /** The `fill` cells of `cells` that start at `pos` and wrap around at the end. */
  ghost function Ring<T>(cells: seq<T>, pos: nat, fill: nat): (q: seq<T>)
    requires pos < |cells| && fill <= |cells|
    ensures |q| == fill
  {
    seq(fill, i requires 0 <= i < fill => cells[Wrap(pos + i, |cells|)])
  }

  function Wrap(at: nat, size: nat): nat {
    if at < size then at else at - size
  }

  lemma WrapCases(at: nat, size: nat)
    ensures Wrap(at, size) == if at < size then at else at - size
  {
  }

  /** One more piece of `data` behind those already appended to `q`. */
  lemma AppendPiece<T>(q: seq<T>, data: seq<T>, done: nat, n: nat)
    requires done + n <= |data|
    ensures q + data[..done] + data[done..done + n] == q + data[..done + n]
  {
  }

  /** One more piece of `q` behind those already moved into the user's buffer. */
  lemma MovePiece<T>(q: seq<T>, rest: seq<T>, user: seq<T>, was: seq<T>, done: nat, n: nat)
    requires done + n <= |q| && done + n <= |user|
    requires was == q[..done] + user[done..] && rest == q[done..]
    ensures Written(was, done, rest[..n]) == q[..done + n] + user[done + n..]
    ensures rest[n..] == q[done + n..]
  {
  }

  /** A chunk written behind the queued cells, up to the end of the storage or of the free
      cells, is queued behind them. */
  lemma RingWrite<T>(before: seq<T>, after: seq<T>, pos: nat, fill: nat, chunk: seq<T>)
    requires pos < |before| == |after| && fill + |chunk| <= |before|
    requires var at := Wrap(pos + fill, |before|);
             at + |chunk| <= |before| && after == Written(before, at, chunk)
    ensures Ring(after, pos, fill + |chunk|) == Ring(before, pos, fill) + chunk
  {
    var at := Wrap(pos + fill, |before|);
    var q := Ring(after, pos, fill + |chunk|);
    forall i | 0 <= i < |q| ensures q[i] == (Ring(before, pos, fill) + chunk)[i] {
      assert q[i] == after[Wrap(pos + i, |after|)];
    }
  }

  /** The first cells of the queue lie in one piece up to the end of the storage, and what
      is left when they are dropped is queued from the cell after them. */
  lemma RingRead<T>(cells: seq<T>, pos: nat, fill: nat, n: nat)
    requires pos < |cells| && n <= fill <= |cells| && pos + n <= |cells|
    ensures Ring(cells, pos, fill)[..n] == cells[pos..pos + n]
    ensures Ring(cells, pos, fill)[n..]
         == Ring(cells, if pos + n == |cells| then 0 else pos + n, fill - n)
  {
    var next := if pos + n == |cells| then 0 else pos + n;
    forall i | 0 <= i < n ensures Ring(cells, pos, fill)[i] == cells[pos..pos + n][i] {
      assert Wrap(pos + i, |cells|) == pos + i;
    }
    forall i | 0 <= i < fill - n
      ensures Ring(cells, pos, fill)[n..][i] == Ring(cells, next, fill - n)[i]
    {
      assert Wrap(next + i, |cells|) == Wrap(pos + (n + i), |cells|);
    }
  }

  /** `memcpy(dst + at, src, |src|)`. */
  method Memcpy<T>(dst: array<T>, at: nat, src: seq<T>)
    requires at + |src| <= dst.Length
    modifies dst
    ensures dst[..] == Written(old(dst[..]), at, src)
  {
    forall i | 0 <= i < |src| {
      dst[at + i] := src[i];
    }
  }

  // ---------- the ring buffer ----------

  class FifoBuf<T(0)> {
    const size: nat
    const buf: array<T>
    var pos: nat
    var fill: nat

    ghost predicate Valid()
      reads this
    {
      0 < size == buf.Length && pos < size && fill <= size
    }

    /** What is in the buffer, oldest first. */
    ghost function Contents(): (q: seq<T>)
      requires Valid()
      reads this, buf
      ensures |q| == fill
    {
      Ring(buf[..], pos, fill)
    }

    constructor (capacity: nat)
      requires 0 < capacity
      ensures Valid() && fresh(buf)
      ensures size == capacity && Contents() == []
    {
      size := capacity;
      buf := new T[capacity];
      pos, fill := 0, 0;
    }

    method Put(data: seq<T>) returns (written: nat)
      requires Valid()
      modifies this, buf
      ensures Valid()
      ensures written == |Accepted(old(Contents()), size, data)|
      ensures Contents() == old(Contents()) + Accepted(old(Contents()), size, data)
    {
      hide Written, Ring, Wrap;
      written := 0;
      while fill < size && written < |data|
        invariant Valid() && written <= |data| && fill == old(fill) + written
        invariant Contents() == old(Contents()) + data[..written]
        decreases |data| - written
      {
        var writeFrom: nat, toWrite: nat;
        if pos + fill < size {
          writeFrom := pos + fill;
          toWrite := size - (pos + fill);
        } else {
          writeFrom := fill - size + pos;
          toWrite := size - fill;
        }
        if toWrite > |data| - written {
          toWrite := |data| - written;
        }
        ghost var before := buf[..];
        assert writeFrom == Wrap(pos + fill, |before|) by {
          WrapCases(pos + fill, size);
        }
        var chunk := data[written..written + toWrite];
        Memcpy(buf, writeFrom, chunk);
        RingWrite(before, buf[..], pos, fill, chunk);
        AppendPiece(old(Contents()), data, written, toWrite);
        fill := fill + toWrite;
        written := written + toWrite;
      }
    }

    /** Moves one contiguous piece of the storage behind those already in the user's buffer:
        the body of both loops below. */
    method CopyOut(user: array<T>, ghost user0: seq<T>, ghost q: seq<T>, done: nat,
                   at: nat, left: nat, userSize: nat) returns (toCopy: nat)
      requires Valid() && user != buf && |user0| == user.Length && userSize <= user.Length
      requires done < userSize && at < size && 0 < left <= size && |q| == done + left
      requires Ring(buf[..], at, left) == q[done..]
      requires user[..] == q[..done] + user0[done..]
      modifies user
      ensures 0 < toCopy <= Min(left, userSize - done) && at + toCopy <= size
      ensures Ring(buf[..], if at + toCopy == size then 0 else at + toCopy, left - toCopy) == q[done + toCopy..]
      ensures user[..] == q[..done + toCopy] + user0[done + toCopy..]
    {
      hide Written, Ring;
      toCopy := if at + left <= size then left else size - at;
      if toCopy > userSize - done {
        toCopy := userSize - done;
      }
      RingRead(buf[..], at, left, toCopy);
      MovePiece(q, Ring(buf[..], at, left), user0, user[..], done, toCopy);
      assert buf[at..at + toCopy] == buf[..][at..at + toCopy];
      Memcpy(user, done, buf[at..at + toCopy]);
    }

    /** Copies the oldest elements to `user[..written]`, without taking them. */
    method Peek(user: array<T>, userSize: nat) returns (written: nat)
      requires Valid() && userSize <= user.Length && user != buf
      modifies user
      ensures written == Min(fill, userSize)
      ensures user[..] == Contents()[..written] + old(user[..])[written..]
    {
      written := 0;
      var left: nat, at: nat := fill, pos;
      while left != 0 && written < userSize
        invariant written <= userSize && left == fill - written && at < size
        invariant Ring(buf[..], at, left) == Contents()[written..]
        invariant user[..] == Contents()[..written] + old(user[..])[written..]
        decreases left
      {
        var toCopy := CopyOut(user, old(user[..]), Contents(), written, at, left, userSize);
        written := written + toCopy;
        left := left - toCopy;
        at := at + toCopy;
        if at == size {
          at := 0;
        }
      }
    }

    /** Takes the oldest elements and copies them to `user[..written]`. */
    method Get(user: array<T>, userSize: nat) returns (written: nat)
      requires Valid() && userSize <= user.Length && user != buf
      modifies this, user
      ensures Valid()
      ensures written == Min(old(fill), userSize)
      ensures user[..] == old(Contents())[..written] + old(user[..])[written..]
      ensures Contents() == old(Contents())[written..]
    {
      written := 0;
      ghost var all, mine := Contents(), user[..];
      while fill != 0 && written < userSize
        invariant Valid() && written <= userSize && fill == old(fill) - written
        invariant Ring(buf[..], pos, fill) == all[written..]
        invariant user[..] == all[..written] + mine[written..]
        decreases fill
      {
        var toCopy := CopyOut(user, mine, all, written, pos, fill, userSize);
        written := written + toCopy;
        fill := fill - toCopy;
        pos := pos + toCopy;
        if pos == size {
          pos := 0;
        }
      }
    }

    method Space() returns (n: nat)
      requires Valid()
      ensures n == size - |Contents()|
    {
      n := size - fill;
    }

    method Clear()
      requires Valid()
      modifies this
      ensures Valid() && Contents() == []
    {
      fill := 0;
    }
  }

  // ---------- every sequence of operations ----------

  datatype Op<T> = Put(data: seq<T>) | Get(count: nat) | Peek(count: nat) | Clear

  /** The queue and the two ledgers that a history of operations leaves behind. */
  datatype History<T> = History(queue: seq<T>, accepted: seq<T>, taken: seq<T>)

  /** One operation, with the results that the contracts of `FifoBuf` give it. The ledgers
      start again at every clear. */
  function Apply<T>(h: History<T>, capacity: nat, op: Op<T>): History<T>
    requires |h.queue| <= capacity
  {
    match op
    case Put(data) =>
      var a := Accepted(h.queue, capacity, data);
      History(h.queue + a, h.accepted + a, h.taken)
    case Get(n) =>
      var k := Min(|h.queue|, n);
      History(h.queue[k..], h.accepted, h.taken + h.queue[..k])
    case Peek(_) => h
    case Clear => History([], [], [])
  }

  function Replay<T>(capacity: nat, ops: seq<Op<T>>): (h: History<T>)
    ensures |h.queue| <= capacity
  {
    if ops == [] then History([], [], [])
    else Apply(Replay(capacity, ops[..|ops| - 1]), capacity, ops[|ops| - 1])
  }

  /** First in, first out: since the last clear, what was taken followed by what is queued
      is exactly what was accepted, whatever the operations were. */
  lemma {:induction false} FirstInFirstOut<T>(capacity: nat, ops: seq<Op<T>>)
    ensures var h := Replay(capacity, ops); h.accepted == h.taken + h.queue
  {
    if ops != [] {
      FirstInFirstOut(capacity, ops[..|ops| - 1]);
      var h := Replay(capacity, ops[..|ops| - 1]);
      match ops[|ops| - 1] {
        case Put(data) =>
          var a := Accepted(h.queue, capacity, data);
          assert h.taken + (h.queue + a) == (h.taken + h.queue) + a;
        case Get(n) =>
          var k := Min(|h.queue|, n);
          assert (h.taken + h.queue[..k]) + h.queue[k..] == h.taken + h.queue;
        case Peek(_) =>
        case Clear =>
      }
    }
  }

  lemma TakenOn<T>(h: History<T>, capacity: nat, count: nat, user: seq<T>, written: nat)
    requires |h.queue| <= capacity && written == Min(|h.queue|, count) && written <= |user|
    requires user[..written] == h.queue[..written]
    ensures Apply(h, capacity, Get(count)) == History(h.queue[written..], h.accepted, h.taken + user[..written])
  {
  }

  /** A buffer object under any sequence of operations: what it gave out since the last clear,
      and what it holds, are those of the specification; so, together, they are what it
      accepted. */
  method Perform<T(0)>(capacity: nat, ops: seq<Op<T>>) returns (fifo: FifoBuf<T>, taken: seq<T>)
    requires capacity > 0
    ensures fifo.Valid() && fifo.size == capacity
    ensures var h := Replay(capacity, ops);
      fifo.Contents() == h.queue && taken == h.taken && h.accepted == taken + fifo.Contents()
  {
    hide Replay, Accepted, Ring;
    fifo := new FifoBuf<T>(capacity);
    taken := [];
    ReplayNone<T>(capacity);
    assert ops[..0] == [];
    for i := 0 to |ops|
      invariant fifo.Valid() && fresh(fifo) && fresh(fifo.buf) && fifo.size == capacity
      invariant fifo.Contents() == Replay(capacity, ops[..i]).queue && taken == Replay(capacity, ops[..i]).taken
    {
      ReplayStep(capacity, ops, i);
      ghost var h := Replay(capacity, ops[..i]);
      match ops[i] {
        case Put(data) =>
          var written := fifo.Put(data);
        case Get(count) =>
          var user := new T[count];
          var written := fifo.Get(user, count);
          assert user[..][..written] == user[..written];
          TakenOn(h, capacity, count, user[..], written);
          taken := taken + user[..written];
        case Peek(count) =>
          var user := new T[count];
          var written := fifo.Peek(user, count);
        case Clear =>
          fifo.Clear();
          taken := [];
      }
    }
    assert ops[..|ops|] == ops;
    FirstInFirstOut(capacity, ops);
  }

  lemma ReplayNone<T>(capacity: nat)
    ensures Replay<T>(capacity, []) == History([], [], [])
  {
  }

  lemma ReplayStep<T>(capacity: nat, ops: seq<Op<T>>, i: nat)
    requires i < |ops|
    ensures Replay(capacity, ops[..i + 1]) == Apply(Replay(capacity, ops[..i]), capacity, ops[i])
  {
    assert ops[..i + 1][..i] == ops[..i];
  }
}
