/** What every interleaving of the buffered stream's threads keeps, and what follows for
    the bytes io_read delivers, for waiting and for aborting. */
module IoStreamProofs {
  import opened Bytes
  import opened IoStream
  import Fifo

  // ---------- the invariant ----------

  /** Who holds the mutexes is a matter of where the threads are. */
  ghost predicate Locks(s: State) {
    && (s.bufMtx.Reader? <==> s.reader.Checking? || s.reader.Filling? || s.reader.AfterPut?)
    && (s.bufMtx.Consumer? <==> s.consumer.ReadLoop? || s.consumer.PeekLoop?)
    && !s.bufMtx.Seeker?
    && (s.ioMtx.Reader? <==> s.reader.HoldIo? || s.reader.Reading?)
    && (s.ioMtx.Seeker? <==> s.seeker.SeekHoldIo? || s.seeker.SeekMoved? || s.seeker.SeekCleared?)
    && !s.ioMtx.Consumer?
  }

  /** What the reader has read but not yet put into the buffer, unless a seek has made it
      stale. */
  ghost function Pending(s: State): seq<Byte> {
    if s.afterSeek then []
    else match s.reader
      case WantBuf(Got(data)) => data
      case Checking(Got(data)) => data
      case Filling(rest) => rest
      case InCallback(put, rest) => if put <= |rest| then rest[put..] else []
      case AfterPut(put, rest) => if put <= |rest| then rest[put..] else []
      case FullSleep(rest) => rest
      case FullWoken(rest) => rest
      case _ => []
  }

  /** The reader has seen the request to stop and dropped what it still had. */
  ghost predicate GaveUp(s: State) {
    s.stop && (s.reader.Top? || s.reader.Exited?)
  }

  /** The data invariant: taken, queued and pending bytes are what was read. It holds in the
      window where lseek is done but the buffer is not yet cleared because it speaks of
      `readTo`, not of the position of the file. */
  ghost predicate Stream(c: Config, s: State) {
    && s.base <= s.readTo <= |c.file| && s.filePos <= |c.file|
    && |s.fifo| <= c.capacity && 0 < c.capacity
    && (!s.seeker.SeekMoved? && !GaveUp(s) ==> s.filePos == s.readTo)
    && (s.seeker.SeekMoved? && s.seeker.ok ==> s.filePos == s.seeker.target)
    && s.delivered + s.fifo + Pending(s) <= c.file[s.base..s.readTo]
    && (!GaveUp(s) ==> s.delivered + s.fifo + Pending(s) == c.file[s.base..s.readTo])
    && (s.reader.InCallback? || s.reader.AfterPut? ==> 0 < s.reader.put <= |s.reader.rest|)
    && (s.reader.Reading? ==> !s.afterSeek)
    && (s.seeker.SeekMoved? && !s.seeker.ok && !GaveUp(s) ==> s.filePos == s.readTo)
    && (s.seeker.SeekCleared? && s.seeker.ok ==> s.base == s.seeker.target)
  }

  ghost predicate ReadNothing(r: ReaderPc) {
    (r.WantBuf? || r.Checking?) && r.res == Got([])
  }

  /** The end-of-file mark is only up when everything has been read and put, and it is
      never stale: a seek takes it down in the same step that makes the data stale. */
  ghost predicate EndMark(c: Config, s: State) {
    && (ReadNothing(s.reader) && !s.afterSeek ==> s.readTo == |c.file|)
    && (s.eof ==> !s.afterSeek && s.readTo == |c.file| && Pending(s) == [])
    && (s.reader.EofSleep? ==> s.eof)
  }

  /** Why a sleeping thread may sleep. The consumer may also be asleep while the reader has
      put something and is about to notify it. */
  ghost predicate Sleepers(c: Config, s: State) {
    && (s.reader.FullSleep? ==> !s.stop && !s.afterSeek && |s.fifo| == c.capacity && s.reader.rest != [])
    && (s.reader.EofSleep? ==> !s.stop)
    && (s.reader.Exited? ==> s.stop || s.readError)
    && (s.consumer.ReadSleep? || s.consumer.PeekSleep? ==> !s.stop && !s.eof && !s.readError)
    && (s.consumer.ReadSleep? ==> s.fifo == [] || s.reader.InCallback? || s.reader.AfterPut?)
    && (s.consumer.PeekSleep? ==>
          || (s.consumer.count > |s.fifo| && |s.fifo| < c.capacity)
          || s.reader.InCallback? || s.reader.AfterPut?)
  }

  /** A read that no seek has interrupted has exactly the bytes from where it started. */
  ghost predicate CallTracks(s: State, call: Call) {
    && call.epoch <= s.epoch && |call.got| <= call.count
    && (call.epoch == s.epoch ==>
          call.start <= |s.delivered| && call.got == s.delivered[call.start..])
  }

  ghost predicate CallEnded(c: Config, s: State, call: Call, result: int) {
    && (|call.got| < call.count ==>
          s.stop || s.readError || call.epoch < s.epoch || s.base + |s.delivered| == |c.file|)
    && (result == |call.got| || (result == -1 && call.got == [] && s.readError))
  }

  ghost predicate Calls(c: Config, s: State) {
    && (s.consumer.InRead() || s.consumer.ReadLoop? ==> CallTracks(s, s.consumer.call))
    && (s.consumer.ReadDone? ==>
          CallTracks(s, s.consumer.call) && CallEnded(c, s, s.consumer.call, s.consumer.result))
  }

  /** What io_tell returns, as long as seeks and reads have taken turns. */
  ghost predicate Tell(s: State) {
    s.orderly ==>
      && (s.consumer.InRead() ==>
            s.seeker.NoSeek? && s.pos + |s.consumer.call.got| == s.base + |s.delivered|)
      && (!s.consumer.InRead() && !s.seeker.SeekCleared? ==> s.pos == s.base + |s.delivered|)
      && (s.seeker.SeekCleared? ==> s.seeker.ok && s.seeker.target == s.base && s.delivered == [])
      && (s.seeker.SeekMoved? ==> s.seeker.ok)
  }

  ghost predicate Inv(c: Config, s: State) {
    Locks(s) && Stream(c, s) && EndMark(c, s) && Sleepers(c, s) && Calls(c, s) && Tell(s)
  }

  lemma InitInv(c: Config)
    requires 0 < c.capacity
    ensures Inv(c, Init())
  {
  }

  // ---------- every step keeps it ----------

  /** The stream equation when bytes move from one part of it to the next. */
  lemma Shift(front: seq<Byte>, middle: seq<Byte>, back: seq<Byte>, n: nat)
    requires n <= |back|
    ensures front + (middle + back[..n]) + back[n..] == front + middle + back
  {
    assert back[..n] + back[n..] == back;
  }

  lemma TestStopKeeps(c: Config, s: State)
    requires Inv(c, s) && ReaderEnabled(c, s, TestStop)
    ensures Inv(c, ReaderStep(c, s, TestStop))
  {
  }

  lemma LockIoKeeps(c: Config, s: State)
    requires Inv(c, s) && ReaderEnabled(c, s, LockIo)
    ensures Inv(c, ReaderStep(c, s, LockIo))
  {
  }

  lemma ClearAfterSeekKeeps(c: Config, s: State)
    requires Inv(c, s) && ReaderEnabled(c, s, ClearAfterSeek)
    ensures Inv(c, ReaderStep(c, s, ClearAfterSeek))
  {
  }

  lemma ReadOn(file: seq<Byte>, base: nat, to: nat, size: nat, taken: seq<Byte>)
    requires base <= to && to + size <= |file|
    requires taken + [] == file[base..to]
    ensures taken + file[to..to + size] == file[base..to + size]
  {
    assert taken + [] == taken;
    assert file[base..to] + file[to..to + size] == file[base..to + size];
  }

  lemma FileReadStream(c: Config, s: State, ok: bool, size: nat)
    requires Stream(c, s) && ReaderEnabled(c, s, FileRead(ok, size)) && !s.seeker.SeekMoved?
    ensures Stream(c, ReaderStep(c, s, FileRead(ok, size)))
  {
    if ok {
      assert s.readTo == s.filePos;
      ReadOn(c.file, s.base, s.readTo, size, s.delivered + s.fifo);
    }
  }

  lemma FileReadKeeps(c: Config, s: State, ok: bool, size: nat)
    requires Inv(c, s) && ReaderEnabled(c, s, FileRead(ok, size))
    ensures Inv(c, ReaderStep(c, s, FileRead(ok, size)))
  {
    hide Stream;
    FileReadStream(c, s, ok, size);
    ReadingAt(c, s);
  }

  lemma ReadingAt(c: Config, s: State)
    requires Stream(c, s) && s.reader.Reading? && !s.seeker.SeekMoved?
    ensures s.filePos == s.readTo && !s.afterSeek
  {
  }

  lemma LockBufKeeps(c: Config, s: State)
    requires Inv(c, s) && ReaderEnabled(c, s, LockBuf)
    ensures Inv(c, ReaderStep(c, s, LockBuf))
  {
  }

  lemma CheckKeeps(c: Config, s: State)
    requires Inv(c, s) && ReaderEnabled(c, s, Check)
    ensures Inv(c, ReaderStep(c, s, Check))
  {
  }

  lemma FillOnceStream(c: Config, s: State, callback: bool)
    requires Stream(c, s) && s.reader.Filling?
    ensures Stream(c, FillStep(c, s, callback))
  {
    var rest := s.reader.rest;
    var t := FillStep(c, s, callback);
    if rest == [] || s.afterSeek {
      assert t.fifo == s.fifo && Pending(t) == [];
    } else {
      var n := |Fifo.Accepted(s.fifo, c.capacity, rest)|;
      Shift(s.delivered, s.fifo, rest, n);
      assert t.delivered + t.fifo + rest[n..] == s.delivered + s.fifo + rest;
      if s.stop {
        assert t.delivered + t.fifo + [] == t.delivered + t.fifo;
      } else if n == 0 {
        assert rest[0..] == rest;
      }
    }
  }

  lemma FillOnceKeeps(c: Config, s: State, callback: bool)
    requires Inv(c, s) && ReaderEnabled(c, s, FillOnce(callback))
    ensures Inv(c, ReaderStep(c, s, FillOnce(callback)))
  {
    FillOnceStream(c, s, callback);
  }

  lemma EndCallbackKeeps(c: Config, s: State)
    requires Inv(c, s) && ReaderEnabled(c, s, EndCallback)
    ensures Inv(c, ReaderStep(c, s, EndCallback))
  {
  }

  lemma NotePutKeeps(c: Config, s: State)
    requires Inv(c, s) && ReaderEnabled(c, s, NotePut)
    ensures Inv(c, ReaderStep(c, s, NotePut))
  {
  }

  lemma WakeSpuriouslyKeeps(c: Config, s: State)
    requires Inv(c, s) && ReaderEnabled(c, s, WakeSpuriously)
    ensures Inv(c, ReaderStep(c, s, WakeSpuriously))
  {
  }

  lemma ResumeKeeps(c: Config, s: State)
    requires Inv(c, s) && ReaderEnabled(c, s, Resume)
    ensures Inv(c, ReaderStep(c, s, Resume))
  {
  }

  lemma StartReadKeeps(c: Config, s: State, count: nat)
    requires Inv(c, s) && ConsumerEnabled(s, StartRead(count))
    ensures Inv(c, ConsumerStep(c, s, StartRead(count)))
  {
  }

  lemma StartPeekKeeps(c: Config, s: State, count: nat)
    requires Inv(c, s) && ConsumerEnabled(s, StartPeek(count))
    ensures Inv(c, ConsumerStep(c, s, StartPeek(count)))
  {
  }

  lemma TakeBufKeeps(c: Config, s: State)
    requires Inv(c, s) && ConsumerEnabled(s, TakeBuf)
    ensures Inv(c, ConsumerStep(c, s, TakeBuf))
  {
  }

  lemma ReadOnceStream(c: Config, s: State)
    requires Stream(c, s) && EndMark(c, s) && s.consumer.ReadLoop? && Calls(c, s)
    ensures Stream(c, ReadStep(s)) && EndMark(c, ReadStep(s))
  {
    var t := ReadStep(s);
    var n := |s.fifo| - |t.fifo|;
    assert t.fifo == s.fifo[n..] && t.delivered == s.delivered + s.fifo[..n];
    assert t.delivered + t.fifo == s.delivered + s.fifo;
    assert Pending(t) == Pending(s);
  }

  lemma ReadOnceCalls(c: Config, s: State)
    requires Inv(c, s) && s.consumer.ReadLoop?
    ensures Calls(c, ReadStep(s)) && Tell(ReadStep(s))
  {
  }

  lemma ReadOnceKeeps(c: Config, s: State)
    requires Inv(c, s) && ConsumerEnabled(s, ReadOnce)
    ensures Inv(c, ConsumerStep(c, s, ReadOnce))
  {
    ReadOnceStream(c, s);
    ReadOnceCalls(c, s);
  }

  lemma PeekOnceKeeps(c: Config, s: State)
    requires Inv(c, s) && ConsumerEnabled(s, PeekOnce)
    ensures Inv(c, ConsumerStep(c, s, PeekOnce))
  {
  }

  lemma AnswerPeekKeeps(c: Config, s: State)
    requires Inv(c, s) && ConsumerEnabled(s, AnswerPeek)
    ensures Inv(c, ConsumerStep(c, s, AnswerPeek))
  {
  }

  lemma StirSpuriouslyKeeps(c: Config, s: State)
    requires Inv(c, s) && ConsumerEnabled(s, StirSpuriously)
    ensures Inv(c, ConsumerStep(c, s, StirSpuriously))
  {
  }

  lemma ReturnKeeps(c: Config, s: State)
    requires Inv(c, s) && ConsumerEnabled(s, Return)
    ensures Inv(c, ConsumerStep(c, s, Return))
  {
  }

  lemma StartSeekKeeps(c: Config, s: State, offset: int, whence: Whence)
    requires Inv(c, s) && SeekerEnabled(s, StartSeek(offset, whence))
    ensures Inv(c, SeekerStep(c, s, StartSeek(offset, whence)))
  {
  }

  lemma TakeIoKeeps(c: Config, s: State)
    requires Inv(c, s) && SeekerEnabled(s, TakeIo)
    ensures Inv(c, SeekerStep(c, s, TakeIo))
  {
  }

  lemma LseekKeeps(c: Config, s: State, moved: bool)
    requires Inv(c, s) && SeekerEnabled(s, Lseek(moved))
    ensures Inv(c, SeekerStep(c, s, Lseek(moved)))
  {
  }

  lemma ClearBufferKeeps(c: Config, s: State)
    requires Inv(c, s) && SeekerEnabled(s, ClearBuffer)
    ensures Inv(c, SeekerStep(c, s, ClearBuffer))
  {
  }

  lemma FinishSeekKeeps(c: Config, s: State)
    requires Inv(c, s) && SeekerEnabled(s, FinishSeek)
    ensures Inv(c, SeekerStep(c, s, FinishSeek))
  {
  }

  lemma ReaderKeeps(c: Config, s: State, a: ReaderAction)
    requires Inv(c, s) && ReaderEnabled(c, s, a)
    ensures Inv(c, ReaderStep(c, s, a))
  {
    match a {
      case TestStop => TestStopKeeps(c, s);
      case LockIo => LockIoKeeps(c, s);
      case ClearAfterSeek => ClearAfterSeekKeeps(c, s);
      case FileRead(ok, size) => FileReadKeeps(c, s, ok, size);
      case LockBuf => LockBufKeeps(c, s);
      case Check => CheckKeeps(c, s);
      case FillOnce(callback) => FillOnceKeeps(c, s, callback);
      case EndCallback => EndCallbackKeeps(c, s);
      case NotePut => NotePutKeeps(c, s);
      case WakeSpuriously => WakeSpuriouslyKeeps(c, s);
      case Resume => ResumeKeeps(c, s);
    }
  }

  lemma ConsumerKeeps(c: Config, s: State, a: ConsumerAction)
    requires Inv(c, s) && ConsumerEnabled(s, a)
    ensures Inv(c, ConsumerStep(c, s, a))
  {
    match a {
      case StartRead(count) => StartReadKeeps(c, s, count);
      case StartPeek(count) => StartPeekKeeps(c, s, count);
      case TakeBuf => TakeBufKeeps(c, s);
      case ReadOnce => ReadOnceKeeps(c, s);
      case PeekOnce => PeekOnceKeeps(c, s);
      case AnswerPeek => AnswerPeekKeeps(c, s);
      case StirSpuriously => StirSpuriouslyKeeps(c, s);
      case Return => ReturnKeeps(c, s);
    }
  }

  lemma SeekerKeeps(c: Config, s: State, a: SeekerAction)
    requires Inv(c, s) && SeekerEnabled(s, a)
    ensures Inv(c, SeekerStep(c, s, a))
  {
    match a {
      case StartSeek(offset, whence) => StartSeekKeeps(c, s, offset, whence);
      case TakeIo => TakeIoKeeps(c, s);
      case Lseek(moved) => LseekKeeps(c, s, moved);
      case ClearBuffer => ClearBufferKeeps(c, s);
      case FinishSeek => FinishSeekKeeps(c, s);
    }
  }

  lemma AbortKeeps(c: Config, s: State)
    requires Inv(c, s) && s.bufMtx.Free?
    ensures Inv(c, AbortStep(s))
  {
  }

  lemma StepKeeps(c: Config, s: State, a: Action)
    requires Inv(c, s) && Enabled(c, s, a)
    ensures Inv(c, Step(c, s, a))
  {
    match a {
      case ByReader(r) => ReaderKeeps(c, s, r);
      case ByConsumer(k) => ConsumerKeeps(c, s, k);
      case BySeeker(k) => SeekerKeeps(c, s, k);
      case Abort => AbortKeeps(c, s);
    }
  }

  lemma {:induction false} RunKeeps(c: Config, r: Run, s: State)
    requires 0 < c.capacity && IsRun(c, r, s)
    ensures Inv(c, s)
  {
    match r {
      case Opened => InitInv(c);
      case Then(before, a) =>
        var t :| IsRun(c, before, t) && Enabled(c, t, a) && s == Step(c, t, a);
        RunKeeps(c, before, t);
        StepKeeps(c, t, a);
    }
  }

  // ---------- what io_read delivers ----------

  lemma Parts(file: seq<Byte>, base: nat, to: nat, d: seq<Byte>, f: seq<Byte>, p: seq<Byte>)
    requires base <= to <= |file| && d + f + p <= file[base..to]
    ensures base + |d| + |f| <= to
    ensures d == file[base..base + |d|]
    ensures f == file[base + |d|..base + |d| + |f|]
  {
    var all := d + f + p;
    var from := file[base..to];
    assert all == from[..|all|];
    assert forall i :: 0 <= i < |d| ==> d[i] == all[i] == from[i] == file[base + i];
    assert forall i :: 0 <= i < |f| ==> f[i] == all[|d| + i] == from[|d| + i] == file[base + (|d| + i)];
  }

  /** In every reachable state, whatever the threads did: the bytes taken from the buffer
      since the last seek are the bytes of the file from the seek target on, and the buffer
      continues them. */
  lemma DeliversTheFile(c: Config, s: State)
    requires 0 < c.capacity && Reachable(c, s)
    ensures s.base + |s.delivered| + |s.fifo| <= |c.file|
    ensures s.delivered == c.file[s.base..s.base + |s.delivered|]
    ensures s.fifo == c.file[s.base + |s.delivered|..s.base + |s.delivered| + |s.fifo|]
    ensures s.seeker.SeekCleared? && s.seeker.ok ==> s.base == s.seeker.target
  {
    var r :| IsRun(c, r, s);
    RunKeeps(c, r, s);
    Parts(c.file, s.base, s.readTo, s.delivered, s.fifo, Pending(s));
  }

  /** One io_read call that no seek interrupts returns consecutive bytes of the file from
      the position it started at; it returns fewer than asked for only at the end of the
      file, after an error or after an abort, and -1 only after an error. */
  lemma ReadReturnsTheFile(c: Config, s: State)
    requires 0 < c.capacity && Reachable(c, s)
    requires s.consumer.ReadDone? && s.consumer.call.epoch == s.epoch
    ensures var call := s.consumer.call; var from := s.base + call.start;
      && from + |call.got| <= |c.file|
      && call.got == c.file[from..from + |call.got|]
      && |call.got| <= call.count
      && (|call.got| < call.count ==> s.stop || s.readError || from + |call.got| == |c.file|)
      && (s.consumer.result == |call.got| || (s.consumer.result == -1 && call.got == [] && s.readError))
  {
    hide Locks, Stream, EndMark, Sleepers, Calls, Tell, IsRun;
    var r :| IsRun(c, r, s);
    RunKeeps(c, r, s);
    DeliversTheFile(c, s);
    ReadFacts(c, s);
    FromThere(c.file, s.base, s.delivered, s.consumer.call.start);
  }

  lemma ReadFacts(c: Config, s: State)
    requires Calls(c, s) && s.consumer.ReadDone? && s.consumer.call.epoch == s.epoch
    ensures var call := s.consumer.call;
      && |call.got| <= call.count && call.start <= |s.delivered| && call.got == s.delivered[call.start..]
      && (|call.got| < call.count ==> s.stop || s.readError || s.base + |s.delivered| == |c.file|)
      && (s.consumer.result == |call.got| || (s.consumer.result == -1 && call.got == [] && s.readError))
  {
  }

  lemma FromThere(file: seq<Byte>, base: nat, d: seq<Byte>, start: nat)
    requires base + |d| <= |file| && d == file[base..base + |d|] && start <= |d|
    ensures d[start..] == file[base + start..base + |d|]
  {
  }

  /** At the moment io_read gives up early, with or without seeks during the call, the
      stream stands at the end of the file: a stale end-of-file mark is never acted on. */
  lemma ShortReadIsTheEnd(c: Config, s: State)
    requires 0 < c.capacity && Reachable(c, s)
    requires s.consumer.ReadLoop? && !KeepsReading(s) && |s.consumer.call.got| < s.consumer.call.count
    ensures s.stop || s.readError || s.base + |s.delivered| == |c.file|
  {
    var r :| IsRun(c, r, s);
    RunKeeps(c, r, s);
  }

  /** io_peek shows what the next io_read returns, and less than was asked for only when the
      buffer is full, at the end of the file, after an error or after an abort. */
  lemma PeekShowsTheFile(c: Config, s: State, peek: Peek)
    requires 0 < c.capacity && Reachable(c, s)
    requires s.consumer.PeekLoop? && |s.fifo| <= c.capacity
    requires PeekStep(c, s).consumer == PeekDone(peek)
    ensures peek.epoch == s.epoch && Saw(c, s, peek)
  {
    hide Inv, IsRun;
    var r :| IsRun(c, r, s);
    RunKeeps(c, r, s);
    DeliversTheFile(c, s);
    PeekEnd(c, s);
  }

  lemma PeekEnd(c: Config, s: State)
    requires Inv(c, s) && s.consumer.PeekLoop?
    ensures s.eof ==> s.stop || s.readError || s.base + |s.delivered| + |s.fifo| == |c.file|
  {
  }

  /** What a peek saw under the present seek is in the file where it looked. */
  ghost predicate Saw(c: Config, s: State, peek: Peek) {
    var from := s.base + peek.start;
    && from + |peek.data| <= |c.file| && peek.data == c.file[from..from + |peek.data|]
    && (|peek.data| < peek.count ==>
          s.stop || s.readError || from + |peek.data| == |c.file| || |peek.data| == c.capacity)
  }

  ghost predicate PeekTracks(c: Config, s: State) {
    && (s.consumer.PeekDone? || s.consumer.PeekBack? ==>
          s.consumer.peek.epoch <= s.epoch && (s.consumer.peek.epoch == s.epoch ==> Saw(c, s, s.consumer.peek)))
    && (s.consumer.PeekBack? && s.consumer.result != |s.consumer.peek.data| ==> s.consumer.result == -1 && s.readError)
  }

  /** What a step leaves of all that `PeekTracks` speaks of: `t` is a later state, and a peek
      in progress is the same. */
  ghost predicate Later(s: State, t: State) {
    && (s.stop ==> t.stop) && (s.readError ==> t.readError)
    && (t.epoch == s.epoch + 1 || (t.epoch == s.epoch && t.base == s.base))
  }

  ghost predicate SamePeek(s: State, t: State) {
    t.consumer.PeekDone? || t.consumer.PeekBack? ==> t.consumer == s.consumer
  }

  lemma CheckMoves(s: State)
    requires s.reader.Checking?
    ensures Later(s, CheckResult(s)) && SamePeek(s, CheckResult(s))
  {
  }

  lemma FillMoves(c: Config, s: State, callback: bool)
    requires s.reader.Filling? && |s.fifo| <= c.capacity
    ensures Later(s, FillStep(c, s, callback)) && SamePeek(s, FillStep(c, s, callback))
  {
  }

  lemma ReaderMoves(c: Config, s: State, a: ReaderAction)
    requires ReaderEnabled(c, s, a) && |s.fifo| <= c.capacity
    ensures Later(s, ReaderStep(c, s, a)) && SamePeek(s, ReaderStep(c, s, a))
  {
    hide CheckResult, FillStep;
    match a {
      case Check => CheckMoves(s);
      case FillOnce(callback) => FillMoves(c, s, callback);
      case _ =>
    }
  }

  lemma SeekerMoves(c: Config, s: State, a: SeekerAction)
    requires SeekerEnabled(s, a)
    ensures Later(s, SeekerStep(c, s, a)) && SamePeek(s, SeekerStep(c, s, a))
  {
    hide SeekTarget;
  }

  lemma ReadMoves(s: State)
    requires s.consumer.ReadLoop?
    ensures Later(s, ReadStep(s)) && SamePeek(s, ReadStep(s))
  {
  }

  lemma ConsumerMoves(c: Config, s: State, a: ConsumerAction)
    requires ConsumerEnabled(s, a) && |s.fifo| <= c.capacity
    ensures Later(s, ConsumerStep(c, s, a))
    ensures a != PeekOnce && a != AnswerPeek ==> SamePeek(s, ConsumerStep(c, s, a))
  {
    hide ReadStep;
    if a == ReadOnce {
      ReadMoves(s);
    }
  }

  lemma AbortMoves(s: State)
    ensures Later(s, AbortStep(s)) && SamePeek(s, AbortStep(s))
  {
  }

  lemma StepMoves(c: Config, s: State, a: Action)
    requires Enabled(c, s, a)
    ensures Later(s, Step(c, s, a))
    ensures a != ByConsumer(PeekOnce) && a != ByConsumer(AnswerPeek) ==> SamePeek(s, Step(c, s, a))
  {
    hide Later, SamePeek, ReaderStep, ConsumerStep, SeekerStep, AbortStep;
    match a {
      case ByReader(r) => ReaderMoves(c, s, r);
      case ByConsumer(k) => ConsumerMoves(c, s, k);
      case BySeeker(k) => SeekerMoves(c, s, k);
      case Abort => AbortMoves(s);
    }
  }

  lemma TracksLater(c: Config, s: State, t: State)
    requires PeekTracks(c, s) && Later(s, t) && SamePeek(s, t)
    ensures PeekTracks(c, t)
  {
  }

  lemma TracksAnswer(c: Config, s: State)
    requires PeekTracks(c, s) && ConsumerEnabled(s, AnswerPeek) && |s.fifo| <= c.capacity
    ensures PeekTracks(c, ConsumerStep(c, s, AnswerPeek))
  {
  }

  lemma TracksPeek(c: Config, r: Run, s: State)
    requires 0 < c.capacity && IsRun(c, r, s) && s.consumer.PeekLoop? && |s.fifo| <= c.capacity
    ensures PeekTracks(c, PeekStep(c, s))
  {
    hide IsRun;
    var t := PeekStep(c, s);
    if t.consumer.PeekDone? {
      PeekShowsTheFile(c, s, t.consumer.peek);
    }
  }

  lemma {:induction false} PeekTracksRun(c: Config, r: Run, s: State)
    requires 0 < c.capacity && IsRun(c, r, s)
    ensures PeekTracks(c, s)
  {
    hide Later, SamePeek, PeekStep;
    match r {
      case Opened =>
      case Then(before, a) =>
        var t :| IsRun(c, before, t) && Enabled(c, t, a) && s == Step(c, t, a);
        PeekTracksRun(c, before, t);
        TracksStep(c, before, t, a);
    }
  }

  lemma TracksStep(c: Config, r: Run, s: State, a: Action)
    requires 0 < c.capacity && IsRun(c, r, s) && PeekTracks(c, s) && Enabled(c, s, a)
    ensures PeekTracks(c, Step(c, s, a))
  {
    hide Later, SamePeek, PeekStep, PeekTracks, ReaderStep, SeekerStep, AbortStep, IsRun;
    if a == ByConsumer(PeekOnce) {
      TracksPeek(c, r, s);
    } else if a == ByConsumer(AnswerPeek) {
      TracksAnswer(c, s);
    } else {
      StepMoves(c, s, a);
      TracksLater(c, s, Step(c, s, a));
    }
  }

  /** One io_peek call that no seek interrupts returns the number of bytes it saw, which are
      those of the file from where it looked; or -1, and then only after an error. */
  lemma PeekReturnsTheFile(c: Config, s: State)
    requires 0 < c.capacity && Reachable(c, s)
    requires s.consumer.PeekBack? && s.consumer.peek.epoch == s.epoch
    ensures Saw(c, s, s.consumer.peek)
    ensures s.consumer.result == |s.consumer.peek.data| || (s.consumer.result == -1 && s.readError)
  {
    hide IsRun, Saw;
    var r :| IsRun(c, r, s);
    PeekTracksRun(c, r, s);
  }

  /** What io_eof answers. */
  predicate AtEof(s: State) {
    (s.eof && s.fifo == []) || s.stop
  }

  lemma EofIsTheEnd(c: Config, s: State)
    requires 0 < c.capacity && Reachable(c, s) && AtEof(s)
    ensures s.stop || s.base + |s.delivered| == |c.file|
  {
    var r :| IsRun(c, r, s);
    RunKeeps(c, r, s);
  }

  /** io_tell is exact between calls when seeks and reads take turns and no seek fails. */
  lemma TellIsExact(c: Config, s: State)
    requires 0 < c.capacity && Reachable(c, s)
    requires s.orderly && s.seeker.NoSeek? && !s.consumer.InRead()
    ensures s.pos == s.base + |s.delivered|
  {
    var r :| IsRun(c, r, s);
    RunKeeps(c, r, s);
  }

  /** A seek whose lseek fails still empties the buffer. The stream then goes on where the
      reader had got to, so nothing is skipped exactly when nothing was queued or pending;
      io_tell keeps its old answer either way. */
  lemma FailedSeekSkips(c: Config, s: State)
    requires 0 < c.capacity && Reachable(c, s) && !GaveUp(s)
    requires s.seeker.SeekMoved? && !s.seeker.ok && s.bufMtx.Free?
    ensures var t := SeekerStep(c, s, ClearBuffer);
      && t.base == s.base + |s.delivered| + |s.fifo| + |Pending(s)|
      && t.pos == s.pos
  {
    var r :| IsRun(c, r, s);
    RunKeeps(c, r, s);
    assert |s.delivered + s.fifo + Pending(s)| == s.readTo - s.base;
  }

  lemma LongerRun(c: Config, r: Run, s: State, a: Action) returns (k: Run)
    requires IsRun(c, r, s) && Enabled(c, s, a)
    ensures k == Then(r, a) && IsRun(c, k, Step(c, s, a))
  {
    k := Then(r, a);
  }

  lemma JustOpened(c: Config)
    ensures IsRun(c, Opened, Init())
  {
  }

  lemma RunReaches(c: Config, r: Run, s: State)
    requires IsRun(c, r, s)
    ensures Reachable(c, s)
  {
  }

  /** After one turn of the reader that has queued one byte. */
  function OneQueued(b: Byte): State {
    Init().(reader := Filling([]), bufMtx := Reader, filePos := 1, fifo := [b], readTo := 1)
  }

  lemma OneIsQueued(c: Config) returns (r: Run)
    requires 0 < c.capacity && c.file != []
    ensures IsRun(c, r, OneQueued(c.file[0]))
  {
    hide IsRun;
    var b := c.file[..1];
    var s0 := Init();
    JustOpened(c);
    r := LongerRun(c, Opened, s0, ByReader(TestStop));
    var s1 := s0.(reader := WantIo);
    r := LongerRun(c, r, s1, ByReader(LockIo));
    var s2 := s0.(reader := HoldIo, ioMtx := Reader);
    r := LongerRun(c, r, s2, ByReader(ClearAfterSeek));
    var s3 := s2.(reader := Reading);
    r := LongerRun(c, r, s3, ByReader(FileRead(true, 1)));
    assert c.file[0..1] == b;
    var s4 := s0.(reader := WantBuf(Got(b)), filePos := 1, readTo := 1);
    r := LongerRun(c, r, s4, ByReader(LockBuf));
    var s5 := s4.(reader := Checking(Got(b)), bufMtx := Reader);
    r := LongerRun(c, r, s5, ByReader(Check));
    var s6 := s5.(reader := Filling(b));
    r := LongerRun(c, r, s6, ByReader(FillOnce(false)));
    assert [] + b == b && b[1..] == [] && b == [c.file[0]];
    var s7 := s6.(reader := AfterPut(1, b), fifo := b);
    r := LongerRun(c, r, s7, ByReader(NotePut));
  }

  /** This happens with every file that is not empty: a failed lseek can lose its first byte, while
      io_tell stays at 0. */
  lemma FailedSeekLosesByte(c: Config)
    requires 0 < c.capacity && c.file != []
    ensures exists s ::
              && Reachable(c, s) && !GaveUp(s) && s.seeker.SeekMoved? && !s.seeker.ok && s.bufMtx.Free?
              && s.base == 0 && s.delivered == []
              && var t := SeekerStep(c, s, ClearBuffer); t.base == 1 && t.fifo == [] && t.pos == 0
  {
    hide IsRun;
    var q := OneQueued(c.file[0]);
    var r := OneIsQueued(c);
    r := LongerRun(c, r, q, ByReader(FillOnce(false)));
    assert [c.file[0]] + [] == [c.file[0]];
    var s1 := q.(reader := Top, bufMtx := Free);
    r := LongerRun(c, r, s1, BySeeker(StartSeek(0, Set)));
    var s2 := s1.(seeker := SeekWantIo(0, Set));
    r := LongerRun(c, r, s2, BySeeker(TakeIo));
    var s3 := s2.(seeker := SeekHoldIo(0, Set), ioMtx := Seeker);
    r := LongerRun(c, r, s3, BySeeker(Lseek(false)));
    var s4 := s3.(seeker := SeekMoved(false, 0), orderly := false);
    RunReaches(c, r, s4);
  }

  // ---------- nobody sleeps for ever ----------

  ghost predicate ReaderAsleep(s: State) { s.reader.FullSleep? || s.reader.EofSleep? }

  ghost predicate ConsumerAsleep(s: State) { s.consumer.ReadSleep? || s.consumer.PeekSleep? }

  /** No lost wake-up: the reader and the consumer never both wait with no notification on
      its way. */
  lemma NeverBothAsleep(c: Config, s: State)
    requires 0 < c.capacity && Reachable(c, s)
    ensures !(ReaderAsleep(s) && ConsumerAsleep(s))
  {
    var r :| IsRun(c, r, s);
    RunKeeps(c, r, s);
  }

  /** The step the reader, or a seeker holding the mutex the reader needs, takes next. */
  ghost function NextOfReaderOrSeeker(s: State): Action {
    match s.reader
    case Top => ByReader(TestStop)
    case WantIo =>
      if s.ioMtx.Free? then ByReader(LockIo)
      else if s.seeker.SeekHoldIo? then BySeeker(Lseek(true))
      else if s.seeker.SeekMoved? then BySeeker(ClearBuffer)
      else BySeeker(FinishSeek)
    case HoldIo => ByReader(ClearAfterSeek)
    case Reading => ByReader(FileRead(false, 0))
    case WantBuf(_) => ByReader(LockBuf)
    case Checking(_) => ByReader(Check)
    case Filling(_) => ByReader(FillOnce(false))
    case InCallback(_, _) => ByReader(EndCallback)
    case AfterPut(_, _) => ByReader(NotePut)
    case _ => ByReader(Resume)
  }

  /** While the consumer waits for data there is always a step that the reader, or the
      seeker in its way, can take: the wait cannot become a deadlock. */
  lemma SleepingConsumerIsServed(c: Config, s: State)
    requires 0 < c.capacity && Reachable(c, s) && ConsumerAsleep(s)
    ensures Enabled(c, s, NextOfReaderOrSeeker(s))
  {
    var r :| IsRun(c, r, s);
    RunKeeps(c, r, s);
  }

  /** How many steps of the reader it takes at most until it notifies the consumer. */
  ghost function WakeIn(s: State): nat {
    match s.reader
    case AfterPut(_, _) => 1
    case InCallback(_, _) => 2
    case Filling(rest) => if s.afterSeek || rest == [] then 10 else 3
    case FullWoken(rest) => if s.afterSeek || rest == [] then 11 else 4
    case Checking(_) => if s.afterSeek then 11 else 4
    case WantBuf(_) => if s.afterSeek then 12 else 5
    case Reading => 6
    case HoldIo => 7
    case WantIo => 8
    case Top => 9
    case EofWoken => 10
    case _ => 0
  }

  lemma ReaderStepServes(c: Config, s: State, a: ReaderAction)
    requires Inv(c, s) && ReaderEnabled(c, s, a) && ConsumerAsleep(s) && ConsumerAsleep(ReaderStep(c, s, a))
    ensures WakeIn(ReaderStep(c, s, a)) < WakeIn(s)
  {
    hide Calls, Tell, Locks;
    match a {
      case TestStop =>
      case LockIo =>
      case ClearAfterSeek =>
      case FileRead(ok, size) =>
      case LockBuf =>
      case Check =>
      case FillOnce(callback) =>
      case EndCallback =>
      case NotePut =>
      case WakeSpuriously =>
      case Resume =>
    }
  }

  lemma OtherStepServes(c: Config, s: State, a: Action)
    requires Inv(c, s) && Enabled(c, s, a) && ConsumerAsleep(s) && ConsumerAsleep(Step(c, s, a)) && !a.ByReader?
    ensures a != BySeeker(ClearBuffer) ==> WakeIn(Step(c, s, a)) == WakeIn(s)
  {
    hide Stream, EndMark, Calls, Tell, Locks;
  }

  lemma WakeSoon(c: Config, s: State)
    requires Inv(c, s) && ConsumerAsleep(s)
    ensures 1 <= WakeIn(s) <= 12
  {
    hide Calls, Tell, Locks;
  }

  /** The consumer sleeps all through the steps in `acts`. */
  ghost predicate SleepsThrough(c: Config, s: State, acts: seq<Action>)
    decreases |acts|
  {
    ConsumerAsleep(s)
    && (acts == [] || (Enabled(c, s, acts[0]) && SleepsThrough(c, Step(c, s, acts[0]), acts[1..])))
  }

  /** How many times a seek clears the buffer. */
  function Clears(acts: seq<Action>): nat {
    if acts == [] then 0 else (if acts[0] == BySeeker(ClearBuffer) then 1 else 0) + Clears(acts[1..])
  }

  lemma {:induction false} ServedFrom(c: Config, s: State, acts: seq<Action>)
    requires Inv(c, s) && SleepsThrough(c, s, acts)
    ensures ReaderSteps(acts) + 1 <= WakeIn(s) + 11 * Clears(acts)
    decreases |acts|
  {
    hide Inv, WakeIn, ConsumerAsleep;
    WakeSoon(c, s);
    if acts != [] {
      var a, t := acts[0], Step(c, s, acts[0]);
      StepKeeps(c, s, a);
      assert ConsumerAsleep(t);
      WakeSoon(c, t);
      match a {
        case ByReader(r) => ReaderStepServes(c, s, r);
        case _ => OtherStepServes(c, s, a);
      }
      ServedFrom(c, t, acts[1..]);
    }
  }

  /** And the wait is short: while the consumer sleeps, the reader takes at most eleven steps, and
      eleven more for each seek that empties the buffer meanwhile, however the threads run; its
      next step wakes the consumer. */
  lemma SleepingConsumerIsWoken(c: Config, s: State, acts: seq<Action>)
    requires 0 < c.capacity && Reachable(c, s) && SleepsThrough(c, s, acts)
    ensures ReaderSteps(acts) <= 11 * (1 + Clears(acts))
  {
    hide Inv, WakeIn, SleepsThrough;
    var r :| IsRun(c, r, s);
    RunKeeps(c, r, s);
    SleeperSleeps(c, s, acts);
    WakeSoon(c, s);
    ServedFrom(c, s, acts);
  }

  lemma SleeperSleeps(c: Config, s: State, acts: seq<Action>)
    requires SleepsThrough(c, s, acts)
    ensures ConsumerAsleep(s)
  {
  }

  // ---------- after io_abort ----------

  /** How many steps the reader still takes once it is told to stop. */
  ghost function StepsLeft(r: ReaderPc): nat {
    match r
    case Exited => 0
    case Top => 1
    case Filling(_) => 2
    case EofWoken => 2
    case AfterPut(_, _) => 3
    case FullWoken(_) => 3
    case Checking(_) => 3
    case InCallback(_, _) => 4
    case WantBuf(_) => 4
    case Reading => 5
    case HoldIo => 6
    case WantIo => 7
    case _ => 0
  }

  lemma AbortedReaderStep(c: Config, s: State, a: ReaderAction)
    requires Sleepers(c, s) && ReaderEnabled(c, s, a) && |s.fifo| <= c.capacity && s.stop
    ensures ReaderStep(c, s, a).stop
    ensures StepsLeft(ReaderStep(c, s, a).reader) < StepsLeft(s.reader)
  {
    match a {
      case TestStop =>
      case LockIo =>
      case ClearAfterSeek =>
      case FileRead(ok, size) =>
      case LockBuf =>
      case Check =>
      case FillOnce(callback) =>
      case EndCallback =>
      case NotePut =>
      case WakeSpuriously =>
      case Resume =>
    }
  }

  lemma AbortedOtherStep(c: Config, s: State, a: Action)
    requires Sleepers(c, s) && Enabled(c, s, a) && s.stop && !a.ByReader?
    ensures Step(c, s, a).stop && Step(c, s, a).reader == s.reader
  {
    assert NotifyFree(s.reader) == s.reader;
  }

  function ReaderSteps(acts: seq<Action>): nat {
    if acts == [] then 0 else (if acts[0].ByReader? then 1 else 0) + ReaderSteps(acts[1..])
  }

  /** `t` is reached from `s` by the steps in `acts`. */
  ghost predicate Leads(c: Config, s: State, acts: seq<Action>, t: State)
    decreases |acts|
  {
    if acts == [] then s == t
    else Enabled(c, s, acts[0]) && Leads(c, Step(c, s, acts[0]), acts[1..], t)
  }

  lemma {:induction false} AbortEndsTheReaderFrom(c: Config, s: State, acts: seq<Action>, t: State)
    requires Inv(c, s) && s.stop && Leads(c, s, acts, t)
    ensures ReaderSteps(acts) + StepsLeft(t.reader) <= StepsLeft(s.reader)
    ensures t.stop && Inv(c, t)
    decreases |acts|
  {
    if acts != [] {
      StepKeeps(c, s, acts[0]);
      match acts[0] {
        case ByReader(r) => AbortedReaderStep(c, s, r);
        case _ => AbortedOtherStep(c, s, acts[0]);
      }
      AbortEndsTheReaderFrom(c, Step(c, s, acts[0]), acts[1..], t);
    }
  }

  /** After io_abort the reader takes at most seven more steps, however the other threads
      run in between, and never goes to sleep again. */
  lemma AbortEndsTheReader(c: Config, s: State, acts: seq<Action>, t: State)
    requires 0 < c.capacity && Reachable(c, s) && s.stop && Leads(c, s, acts, t)
    ensures ReaderSteps(acts) <= 7 && !ReaderAsleep(t)
    ensures ReaderSteps(acts) == 7 ==> t.reader.Exited?
  {
    var r :| IsRun(c, r, s);
    RunKeeps(c, r, s);
    AbortEndsTheReaderFrom(c, s, acts, t);
  }

  /** And it is not stuck before its exit: it, or the thread holding the mutex it needs, can
      take a step. */
  lemma AbortedReaderMoves(c: Config, s: State)
    requires 0 < c.capacity && Reachable(c, s) && s.stop && !s.reader.Exited?
    ensures
      || Enabled(c, s, NextOfReaderOrSeeker(s))
      || Enabled(c, s, ByConsumer(ReadOnce))
      || Enabled(c, s, ByConsumer(PeekOnce))
  {
    hide IsRun, Stream, EndMark, Calls, Tell, Pending, Sleepers, Locks;
    var r :| IsRun(c, r, s);
    RunKeeps(c, r, s);
    AbortedMoves(c, s);
  }

  lemma AbortedMoves(c: Config, s: State)
    requires Locks(s) && Stream(c, s) && Sleepers(c, s) && s.stop && !s.reader.Exited?
    ensures
      || Enabled(c, s, NextOfReaderOrSeeker(s))
      || Enabled(c, s, ByConsumer(ReadOnce))
      || Enabled(c, s, ByConsumer(PeekOnce))
  {
    hide Pending;
  }
}
