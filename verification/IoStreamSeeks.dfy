/** Where seeks of the buffered stream lead, and that files are read: the other half of what
    io_seek, io_read and io_peek promise. */
module IoStreamSeeks {
  import opened Bytes
  import opened IoStream
  import opened IoStreamProofs
  import Fifo

  // ---------- seeking ----------

  /** The place that was asked for, which may be outside the file. */
  function Asked(c: Config, s: State, offset: int, whence: Whence): int {
    match whence
    case Set => offset
    case Cur => s.pos + offset
    case End => |c.file| + offset
  }

  /** `p` is that place, or the end of the file that is nearest to it. */
  predicate Nearest(c: Config, at: int, p: nat) {
    && (0 <= at <= |c.file| ==> p == at)
    && (at < 0 ==> p == 0)
    && (at > |c.file| ==> p == |c.file|)
  }

  /** io_seek is refused only after a read error; otherwise it goes for the place asked for. */
  lemma SeekStarts(c: Config, s: State, offset: int, whence: Whence)
    requires Enabled(c, s, BySeeker(StartSeek(offset, whence)))
    ensures var t := Step(c, s, BySeeker(StartSeek(offset, whence)));
      && (s.readError ==> t == s)
      && (!s.readError ==> t.seeker == SeekWantIo(offset, whence))
      && t.reader == s.reader && t.consumer == s.consumer && t.fifo == s.fifo && t.pos == s.pos
  {
  }

  /** While it waits for the mutex, what it asks for stays. */
  lemma SeekerWaits(c: Config, s: State, a: Action)
    requires Enabled(c, s, a) && (s.seeker.SeekWantIo? || s.seeker.SeekHoldIo?)
    requires a.BySeeker? ==> a.seeker.TakeIo?
    ensures var t := Step(c, s, a);
      && (t.seeker.SeekWantIo? || t.seeker.SeekHoldIo?)
      && t.seeker.offset == s.seeker.offset && t.seeker.whence == s.seeker.whence
      && (a.BySeeker? ==> t.seeker.SeekHoldIo? && t.ioMtx == Owner.Seeker)
  {
    hide ReaderStep, ConsumerStep, NotifyFree, NotifyFill;
    match a {
      case ByReader(r) => ReaderLeavesSeeker(c, s, r);
      case ByConsumer(k) => ConsumerLeavesSeeker(c, s, k);
      case BySeeker(_) =>
      case Abort =>
    }
  }

  lemma ReaderLeavesSeeker(c: Config, s: State, a: ReaderAction)
    requires ReaderEnabled(c, s, a) && |s.fifo| <= c.capacity
    ensures ReaderStep(c, s, a).seeker == s.seeker
  {
    hide Judge, NotifyFill, NotifyFree;
  }

  lemma ConsumerLeavesSeeker(c: Config, s: State, a: ConsumerAction)
    requires ConsumerEnabled(s, a) && |s.fifo| <= c.capacity
    ensures ConsumerStep(c, s, a).seeker == s.seeker
  {
    hide NotifyFree, NotifyFill, KeepsReading;
  }

  /** The position of the file is the place asked for, as seen from io_tell at that moment. */
  lemma LseekGoesThere(c: Config, s: State)
    requires Enabled(c, s, BySeeker(Lseek(true)))
    ensures var t := Step(c, s, BySeeker(Lseek(true)));
      && t.seeker.SeekMoved? && t.seeker.ok && t.seeker.target == t.filePos && t.filePos <= |c.file|
      && Nearest(c, Asked(c, s, s.seeker.offset, s.seeker.whence), t.filePos)
  {
  }

  /** A seek that fails moves nothing. */
  lemma FailedLseek(c: Config, s: State)
    requires Enabled(c, s, BySeeker(Lseek(false)))
    ensures var t := Step(c, s, BySeeker(Lseek(false)));
      t.seeker.SeekMoved? && !t.seeker.ok && t.filePos == s.filePos && t.pos == s.pos
  {
  }

  /** When io_seek returns, io_tell is where it went; after one that failed, where it was. */
  lemma SeekReturns(c: Config, s: State)
    requires Enabled(c, s, BySeeker(FinishSeek))
    ensures var t := Step(c, s, BySeeker(FinishSeek));
      && t.pos == (if s.seeker.ok then s.seeker.target else s.pos) && t.seeker.NoSeek? && t.ioMtx.Free?
      && SameBuffer(s, t) && t.filePos == s.filePos && t.reader == s.reader && t.consumer == s.consumer
  {
  }

  /** From lseek on to the end of the seek, at `p`: the file stays there until the buffer is empty,
      and then the stream goes on from there. */
  ghost predicate Arriving(t: State, p: nat) {
    || (t.seeker == SeekMoved(true, p) && t.filePos == p)
    || (t.seeker == SeekCleared(true, p) && t.base == p)
  }

  lemma ReaderArriving(c: Config, t: State, a: ReaderAction, p: nat)
    requires Locks(t) && |t.fifo| <= c.capacity && Arriving(t, p) && ReaderEnabled(c, t, a)
    ensures Arriving(ReaderStep(c, t, a), p)
  {
    assert !t.reader.Reading?;
    hide Judge, Locks;
  }

  lemma ConsumerArriving(c: Config, t: State, a: ConsumerAction, p: nat)
    requires |t.fifo| <= c.capacity && Arriving(t, p) && ConsumerEnabled(t, a)
    ensures Arriving(ConsumerStep(c, t, a), p)
  {
    hide NotifyFree, NotifyFill, KeepsReading;
  }

  lemma SeekerArriving(c: Config, t: State, a: SeekerAction, p: nat)
    requires Arriving(t, p) && SeekerEnabled(t, a) && a != FinishSeek
    ensures Arriving(SeekerStep(c, t, a), p)
    ensures a == ClearBuffer && var u := SeekerStep(c, t, a);
              u.fifo == [] && u.delivered == [] && u.base == p && u.afterSeek && !u.eof
  {
  }

  lemma ArrivingStep(c: Config, t: State, a: Action, p: nat)
    requires Inv(c, t) && Arriving(t, p) && Enabled(c, t, a) && a != BySeeker(FinishSeek)
    ensures Arriving(Step(c, t, a), p)
  {
    hide Stream, EndMark, Calls, Tell, Sleepers, Locks, ReaderStep, ConsumerStep, SeekerStep;
    match a {
      case ByReader(r) => ReaderArriving(c, t, r, p);
      case ByConsumer(k) => ConsumerArriving(c, t, k, p);
      case BySeeker(k) => SeekerArriving(c, t, k, p);
      case Abort =>
    }
  }

  lemma {:induction false} ArrivingRun(c: Config, t: State, p: nat, acts: seq<Action>, u: State)
    requires Inv(c, t) && Arriving(t, p) && Leads(c, t, acts, u) && BySeeker(FinishSeek) !in acts
    ensures Arriving(u, p) && Inv(c, u)
    decreases |acts|
  {
    hide Inv, Arriving, Step, Enabled;
    if acts != [] {
      assert acts[0] in acts;
      ArrivingStep(c, t, acts[0], p);
      StepKeeps(c, t, acts[0]);
      ArrivingRun(c, Step(c, t, acts[0]), p, acts[1..], u);
    }
  }

  /** For every interleaving: once lseek has succeeded, and until io_seek returns, the stream is on
      its way to the place asked for; when io_seek returns, io_tell is there, and what is
      delivered since the buffer was emptied are the bytes of the file from there on. */
  lemma SeekArrives(c: Config, s: State, acts: seq<Action>, t: State)
    requires 0 < c.capacity && Reachable(c, s) && Enabled(c, s, BySeeker(Lseek(true)))
    requires Leads(c, Step(c, s, BySeeker(Lseek(true))), acts, t) && BySeeker(FinishSeek) !in acts
    requires Enabled(c, t, BySeeker(FinishSeek))
    ensures var u := Step(c, t, BySeeker(FinishSeek)); var p := u.base;
      && Nearest(c, Asked(c, s, s.seeker.offset, s.seeker.whence), p)
      && u.pos == p && u.seeker.NoSeek? && u.ioMtx.Free?
      && p + |u.delivered| + |u.fifo| <= |c.file|
      && u.delivered + u.fifo == c.file[p..p + |u.delivered| + |u.fifo|]
  {
    hide Inv, IsRun, Arriving, Leads;
    var m := Step(c, s, BySeeker(Lseek(true)));
    var r :| IsRun(c, r, s);
    RunKeeps(c, r, s);
    StepKeeps(c, s, BySeeker(Lseek(true)));
    LseekGoesThere(c, s);
    Moved(m);
    ArrivingRun(c, m, m.filePos, acts, t);
    Arrived(t, m.filePos);
    Delivered(c, t);
  }

  lemma Moved(m: State)
    requires m.seeker == SeekMoved(true, m.filePos)
    ensures Arriving(m, m.filePos)
  {
  }

  lemma Arrived(t: State, p: nat)
    requires Arriving(t, p) && t.seeker.SeekCleared?
    ensures t.base == p && t.seeker == SeekCleared(true, p)
  {
  }

  lemma Delivered(c: Config, s: State)
    requires Inv(c, s)
    ensures s.base + |s.delivered| + |s.fifo| <= |c.file|
    ensures s.delivered + s.fifo == c.file[s.base..s.base + |s.delivered| + |s.fifo|]
  {
    Parts(c.file, s.base, s.readTo, s.delivered, s.fifo, Pending(s));
    assert c.file[s.base..s.base + |s.delivered|] + c.file[s.base + |s.delivered|..s.base + |s.delivered| + |s.fifo|]
           == c.file[s.base..s.base + |s.delivered| + |s.fifo|];
  }

  /** A read of the file gives any part of at most 8096 bytes of what is left, and nothing exactly at
      the end; the stream goes on behind it. */
  lemma ReaderReads(c: Config, s: State, size: nat)
    requires s.reader.Reading?
    ensures ReaderEnabled(c, s, FileRead(true, size)) <==>
            s.filePos + size <= |c.file| && size <= 8096 && (size > 0 || s.filePos == |c.file|)
    ensures ReaderEnabled(c, s, FileRead(true, size)) && |s.fifo| <= c.capacity ==>
              var t := ReaderStep(c, s, FileRead(true, size));
              && t.reader == WantBuf(Got(c.file[s.filePos..s.filePos + size])) && t.ioMtx.Free?
              && t.filePos == s.filePos + size && t.fifo == s.fifo
  {
  }

  // ---------- mutexes ----------

  /** What buf_mtx guards. */
  ghost predicate SameBuffer(s: State, t: State) {
    && t.fifo == s.fifo && t.afterSeek == s.afterSeek && t.eof == s.eof && t.readError == s.readError
    && t.stop == s.stop && t.delivered == s.delivered && t.epoch == s.epoch
  }

  ghost predicate ActsAs(a: Action, who: Owner) {
    (a.ByReader? && who.Reader?) || (a.ByConsumer? && who.Consumer?) || (a.BySeeker? && who.Seeker?)
  }

  /** While a thread holds buf_mtx no other touches what it guards, nor takes it; likewise io_mtx and
      the position of the file. */
  lemma MutexesProtect(c: Config, s: State, a: Action)
    requires Inv(c, s) && Enabled(c, s, a)
    ensures !s.bufMtx.Free? && !ActsAs(a, s.bufMtx) ==>
              SameBuffer(s, Step(c, s, a)) && Step(c, s, a).bufMtx == s.bufMtx
    ensures !s.ioMtx.Free? && !ActsAs(a, s.ioMtx) ==>
              Step(c, s, a).filePos == s.filePos && Step(c, s, a).ioMtx == s.ioMtx
  {
    hide Stream, EndMark, Calls, Tell, Sleepers, ReaderStep, ConsumerStep, SeekerStep;
    match a {
      case ByReader(r) => ReaderProtects(c, s, r);
      case ByConsumer(k) => ConsumerProtects(c, s, k);
      case BySeeker(k) => SeekerProtects(c, s, k);
      case Abort =>
    }
  }

  lemma ReaderProtects(c: Config, s: State, a: ReaderAction)
    requires Locks(s) && |s.fifo| <= c.capacity && ReaderEnabled(c, s, a)
    ensures !s.bufMtx.Free? && !s.bufMtx.Reader? ==>
              SameBuffer(s, ReaderStep(c, s, a)) && ReaderStep(c, s, a).bufMtx == s.bufMtx
    ensures !s.ioMtx.Free? && !s.ioMtx.Reader? ==>
              ReaderStep(c, s, a).filePos == s.filePos && ReaderStep(c, s, a).ioMtx == s.ioMtx
  {
    hide Judge, NotifyFill, NotifyFree, CheckResult, FillStep;
    ChecksNotTheFile(c, s);
  }

  lemma ChecksNotTheFile(c: Config, s: State)
    requires |s.fifo| <= c.capacity
    ensures s.reader.Checking? ==> CheckResult(s).ioMtx == s.ioMtx && CheckResult(s).filePos == s.filePos
    ensures s.reader.Filling? ==>
              forall callback :: var t := FillStep(c, s, callback); t.ioMtx == s.ioMtx && t.filePos == s.filePos
  {
    hide Judge, NotifyFill;
  }

  lemma ConsumerProtects(c: Config, s: State, a: ConsumerAction)
    requires Locks(s) && |s.fifo| <= c.capacity && ConsumerEnabled(s, a)
    ensures !s.bufMtx.Free? && !s.bufMtx.Consumer? ==>
              SameBuffer(s, ConsumerStep(c, s, a)) && ConsumerStep(c, s, a).bufMtx == s.bufMtx
    ensures ConsumerStep(c, s, a).filePos == s.filePos && ConsumerStep(c, s, a).ioMtx == s.ioMtx
  {
    hide NotifyFill, NotifyFree, KeepsReading;
  }

  lemma SeekerProtects(c: Config, s: State, a: SeekerAction)
    requires Locks(s) && SeekerEnabled(s, a)
    ensures !s.bufMtx.Free? ==> SameBuffer(s, SeekerStep(c, s, a)) && SeekerStep(c, s, a).bufMtx == s.bufMtx
    ensures !s.ioMtx.Free? && !s.ioMtx.Seeker? ==>
              SeekerStep(c, s, a).filePos == s.filePos && SeekerStep(c, s, a).ioMtx == s.ioMtx
  {
    hide NotifyFree;
  }

  /** A thread asleep can wake without a reason. */
  lemma SpuriousWakes(c: Config, s: State)
    requires |s.fifo| <= c.capacity
    ensures ReaderAsleep(s) ==>
              Enabled(c, s, ByReader(WakeSpuriously)) && !ReaderAsleep(Step(c, s, ByReader(WakeSpuriously)))
    ensures ConsumerAsleep(s) ==>
              Enabled(c, s, ByConsumer(StirSpuriously)) && !ConsumerAsleep(Step(c, s, ByConsumer(StirSpuriously)))
  {
  }

  // ---------- what a seek has overtaken ----------

  /** A failure or an end that the reader met before a seek moved the file is not believed: the
      reader tries again. */
  lemma OvertakenIsRetried(c: Config, s: State)
    requires Enabled(c, s, ByReader(Check)) && s.afterSeek && !s.stop
    ensures var t := Step(c, s, ByReader(Check));
      && t.readError == s.readError
      && (s.reader.res.Failed? || s.reader.res.data == [] ==> t.reader.Top? && t.bufMtx.Free? && t.eof == s.eof)
  {
  }

  /** One that no seek has overtaken is: an error ends the reader, an end is marked. */
  lemma FreshIsReported(c: Config, s: State)
    requires Enabled(c, s, ByReader(Check)) && !s.afterSeek && !s.stop
    ensures var t := Step(c, s, ByReader(Check));
      && (s.reader.res.Failed? ==> t.readError && t.reader.Exited? && !ConsumerAsleep(t))
      && (s.reader.res == Got([]) ==> t.eof && t.reader.EofSleep? && !ConsumerAsleep(t))
  {
  }

  /** Bytes unmark the end and go to the buffer, one after the other; a failure leaves the mark as it
      is, and so does a reader that was told to stop, which exits. */
  lemma BytesUnmarkTheEnd(c: Config, s: State)
    requires Enabled(c, s, ByReader(Check))
    ensures var t, res := Step(c, s, ByReader(Check)), s.reader.res;
      && t.fifo == s.fifo && t.stop == s.stop && t.afterSeek == s.afterSeek
      && (s.stop ==> t.reader.Exited? && t.bufMtx.Free? && t.eof == s.eof && t.readError == s.readError)
      && (res.Failed? ==> t.eof == s.eof && t.bufMtx.Free?)
      && (!s.stop && res.Got? && res.data != [] ==>
            t.reader == Filling(res.data) && t.bufMtx == Owner.Reader && !t.eof && t.readError == s.readError)
  {
  }

  /** And bytes that a seek has overtaken never reach the buffer. */
  lemma OvertakenIsDropped(c: Config, s: State, callback: bool)
    requires Enabled(c, s, ByReader(FillOnce(callback))) && s.afterSeek
    ensures var t := Step(c, s, ByReader(FillOnce(callback))); t.fifo == s.fifo && t.reader.Top? && t.bufMtx.Free?
  {
    assert s.fifo + [] == s.fifo;
  }

  /** Of what it has read the reader puts as much as there is space for, and sleeps exactly when
      there is none. */
  lemma FillTakesMost(c: Config, s: State, callback: bool)
    requires Enabled(c, s, ByReader(FillOnce(callback))) && !s.afterSeek && !s.stop && s.reader.rest != []
    ensures var t, rest := Step(c, s, ByReader(FillOnce(callback))), s.reader.rest;
      && s.fifo <= t.fifo && |t.fifo| <= c.capacity && t.fifo[|s.fifo|..] <= rest
      && (|t.fifo| == c.capacity || t.fifo == s.fifo + rest)
      && (t.reader.FullSleep? <==> |s.fifo| == c.capacity) && (t.reader.FullSleep? ==> t.bufMtx.Free?)
      && (!t.reader.FullSleep? ==> if callback then t.reader.InCallback? && t.bufMtx.Free? else t.reader.AfterPut?)
  {
  }

  // ---------- calls ----------

  /** What a call asks for is what it is about, until it returns. */
  lemma CallBegins(c: Config, s: State, count: nat)
    requires |s.fifo| <= c.capacity && s.consumer.Idle?
    ensures Enabled(c, s, ByConsumer(StartRead(count))) && Enabled(c, s, ByConsumer(StartPeek(count)))
    ensures var t := Step(c, s, ByConsumer(StartRead(count)));
      t.consumer == ReadWant(Call(count, [], s.epoch, |s.delivered|)) && t.fifo == s.fifo && t.pos == s.pos
    ensures Step(c, s, ByConsumer(StartPeek(count))) == s.(consumer := PeekWant(count))
  {
  }

  /** The same io_read or io_peek call, perhaps with more bytes or at its end. */
  ghost predicate SameCall(k: ConsumerPc, m: ConsumerPc) {
    && (k.InRead() || k.ReadDone? ==>
          && (m.InRead() || m.ReadDone?) && m.call.count == k.call.count
          && m.call.epoch == k.call.epoch && m.call.start == k.call.start && k.call.got <= m.call.got)
    && (k.PeekWant? || k.PeekLoop? || k.PeekSleep? || k.PeekWoken? ==>
          if m.PeekDone? then m.peek.count == k.count
          else (m.PeekWant? || m.PeekLoop? || m.PeekSleep? || m.PeekWoken?) && m.count == k.count)
  }

  lemma ReaderLeavesCall(c: Config, s: State, a: ReaderAction)
    requires ReaderEnabled(c, s, a) && |s.fifo| <= c.capacity
    ensures var t := ReaderStep(c, s, a); t.consumer == s.consumer || t.consumer == NotifyFill(s.consumer)
  {
    hide Judge, NotifyFill, NotifyFree;
  }

  lemma ConsumerKeepsCall(c: Config, s: State, a: ConsumerAction)
    requires ConsumerEnabled(s, a) && |s.fifo| <= c.capacity && a != Return
    ensures SameCall(s.consumer, ConsumerStep(c, s, a).consumer)
  {
    hide NotifyFree, KeepsReading;
  }

  lemma NotifyKeepsCall(k: ConsumerPc)
    ensures SameCall(k, k) && SameCall(k, NotifyFill(k))
  {
  }

  lemma SeekerLeavesConsumer(c: Config, s: State, a: SeekerAction)
    requires SeekerEnabled(s, a)
    ensures SeekerStep(c, s, a).consumer == s.consumer
  {
    hide NotifyFree, SeekTarget;
  }

  lemma CallStays(c: Config, s: State, a: Action)
    requires Enabled(c, s, a) && a != ByConsumer(Return)
    ensures SameCall(s.consumer, Step(c, s, a).consumer)
  {
    hide NotifyFree, NotifyFill, ReaderStep, ConsumerStep, SeekerStep, SameCall;
    NotifyKeepsCall(s.consumer);
    match a {
      case ByReader(r) => ReaderLeavesCall(c, s, r);
      case ByConsumer(k) => ConsumerKeepsCall(c, s, k);
      case BySeeker(k) => SeekerLeavesConsumer(c, s, k);
      case Abort =>
    }
  }

  /** io_peek returns how many bytes it saw, or -1 after a read error; a call that has its result returns. */
  lemma CallEnds(c: Config, s: State)
    requires |s.fifo| <= c.capacity
    ensures s.consumer.PeekDone? && s.bufMtx.Free? ==>
              Enabled(c, s, ByConsumer(AnswerPeek)) &&
              Step(c, s, ByConsumer(AnswerPeek)).consumer
              == PeekBack(s.consumer.peek, if s.readError then -1 else |s.consumer.peek.data|)
    ensures s.consumer.ReadDone? || s.consumer.PeekBack? ==>
              Enabled(c, s, ByConsumer(Return)) && Step(c, s, ByConsumer(Return)) == s.(consumer := Idle)
  {
  }

  /** A turn of io_read's loop takes as much of the buffer as is still wanted. */
  lemma ReadTakesMost(c: Config, s: State)
    requires Enabled(c, s, ByConsumer(ReadOnce)) && KeepsReading(s) && |s.consumer.call.got| <= s.consumer.call.count
    ensures var t, n := Step(c, s, ByConsumer(ReadOnce)), s.consumer.call.count - |s.consumer.call.got|;
      && (s.fifo == [] <==> t.consumer.ReadSleep?) && (t.consumer.ReadSleep? || t.consumer.ReadLoop?)
      && t.fifo == (if n < |s.fifo| then s.fifo[n..] else [])
      && t.consumer.call.got + t.fifo == s.consumer.call.got + s.fifo && t.pos == s.pos
  {
  }

  /** When the loop ends, io_read returns how many bytes it got; nothing after an error is -1, and
      otherwise 0. */
  lemma ReadGivesUp(c: Config, s: State)
    requires Enabled(c, s, ByConsumer(ReadOnce)) && !KeepsReading(s)
    ensures var t, call := Step(c, s, ByConsumer(ReadOnce)), s.consumer.call;
      && t.consumer.ReadDone? && t.consumer.call == call && t.bufMtx.Free?
      && (call.got != [] ==> t.consumer.result == |call.got|)
      && (call.got == [] ==> t.consumer.result == (if s.readError then -1 else 0))
      && t.pos == s.pos + |call.got| && t.fifo == s.fifo && t.delivered == s.delivered && t.reader == s.reader
  {
    assert s.fifo[0..] == s.fifo && s.fifo[..0] == [] && s.delivered + [] == s.delivered;
  }

  /** A peek takes nothing out and moves nothing. */
  lemma PeekTakesNothing(c: Config, s: State, a: ConsumerAction)
    requires Enabled(c, s, ByConsumer(a)) && (a.PeekOnce? || a.AnswerPeek? || a.StartPeek?)
    ensures var t := Step(c, s, ByConsumer(a));
      t.fifo == s.fifo && t.pos == s.pos && t.delivered == s.delivered && t.reader == s.reader
  {
  }

  /** io_abort stops the stream, and nobody sleeps on it; once it is stopped nothing more is done. */
  lemma AbortStops(c: Config, s: State)
    requires 0 < c.capacity && Reachable(c, s) && Enabled(c, s, Abort)
    ensures var t := Step(c, s, Abort);
      && t.stop && !ReaderAsleep(t) && !ConsumerAsleep(t) && t.fifo == s.fifo && t.pos == s.pos && AtEof(t)
      && (s.stop ==> t == s)
  {
    hide IsRun, Stream, EndMark, Calls, Tell, Locks;
    var r :| IsRun(c, r, s);
    RunKeeps(c, r, s);
  }

  /** Once the end is marked, and nothing was aborted, io_eof tells exactly whether everything up to
      the end of the file was delivered. */
  lemma EofIff(c: Config, s: State)
    requires 0 < c.capacity && Reachable(c, s) && s.eof && !s.stop
    ensures AtEof(s) <==> s.base + |s.delivered| == |c.file|
  {
    hide IsRun;
    var r :| IsRun(c, r, s);
    RunKeeps(c, r, s);
    assert |s.delivered + s.fifo + Pending(s)| == s.readTo - s.base;
  }

  // ---------- reading a file ----------

  /** A state after io_seek to `k` in a newly opened stream. */
  function Sought(k: nat): State {
    Init().(filePos := k, afterSeek := true, pos := k, base := k, readTo := k, epoch := 1)
  }

  lemma SeeksTo(c: Config, k: nat) returns (r: Run)
    requires 0 < c.capacity && k <= |c.file|
    ensures IsRun(c, r, Sought(k))
  {
    hide IsRun;
    JustOpened(c);
    var s0 := Init();
    r := LongerRun(c, Opened, s0, BySeeker(StartSeek(k, Set)));
    var s1 := s0.(seeker := SeekWantIo(k, Set));
    r := LongerRun(c, r, s1, BySeeker(TakeIo));
    var s2 := s1.(seeker := SeekHoldIo(k, Set), ioMtx := Owner.Seeker);
    r := LongerRun(c, r, s2, BySeeker(Lseek(true)));
    var s3 := s2.(seeker := SeekMoved(true, k), filePos := k);
    r := LongerRun(c, r, s3, BySeeker(ClearBuffer));
    var s4 := s3.(seeker := SeekCleared(true, k), afterSeek := true, base := k, readTo := k, epoch := 1);
    r := LongerRun(c, r, s4, BySeeker(FinishSeek));
  }

  /** The consumer asleep in a read of one byte. */
  function Awaiting(k: nat): State {
    Sought(k).(consumer := ReadSleep(Call(1, [], 1, 0)))
  }

  lemma AwaitsByte(c: Config, k: nat) returns (r: Run)
    requires 0 < c.capacity && k <= |c.file|
    ensures IsRun(c, r, Awaiting(k))
  {
    hide IsRun;
    var s0, call := Sought(k), Call(1, [], 1, 0);
    r := SeeksTo(c, k);
    r := LongerRun(c, r, s0, ByConsumer(StartRead(1)));
    var s1 := s0.(consumer := ReadWant(call));
    r := LongerRun(c, r, s1, ByConsumer(TakeBuf));
    var s2 := s1.(consumer := ReadLoop(call), bufMtx := Owner.Consumer);
    r := LongerRun(c, r, s2, ByConsumer(ReadOnce));
    assert s0.fifo[0..] == [] && s0.delivered + [] == [];
  }

  /** The reader has read `b` and is about to look what it is. */
  function HasRead(k: nat, b: seq<Byte>): State {
    Awaiting(k).(reader := Checking(Got(b)), bufMtx := Owner.Reader, filePos := k + |b|, readTo := k + |b|,
                 afterSeek := false)
  }

  lemma ReadsSome(c: Config, k: nat, n: nat) returns (r: Run)
    requires 0 < c.capacity && k + n <= |c.file| && n <= 1 && (n == 0 <==> k == |c.file|)
    ensures IsRun(c, r, HasRead(k, c.file[k..k + n]))
  {
    hide IsRun;
    var s0, b := Awaiting(k), c.file[k..k + n];
    r := AwaitsByte(c, k);
    r := LongerRun(c, r, s0, ByReader(TestStop));
    var s1 := s0.(reader := WantIo);
    r := LongerRun(c, r, s1, ByReader(LockIo));
    var s2 := s1.(reader := HoldIo, ioMtx := Owner.Reader);
    r := LongerRun(c, r, s2, ByReader(ClearAfterSeek));
    var s3 := s2.(reader := Reading, afterSeek := false);
    r := LongerRun(c, r, s3, ByReader(FileRead(true, n)));
    var s4 := s3.(reader := WantBuf(Got(b)), ioMtx := Free, filePos := k + n, readTo := k + n);
    r := LongerRun(c, r, s4, ByReader(LockBuf));
  }

  /** Every byte of every file can be sought and read, by a consumer that sleeps until it comes. */
  lemma ReadsByteAt(c: Config, k: nat)
    requires 0 < c.capacity && k < |c.file|
    ensures exists s ::
              && Reachable(c, s) && s.consumer.ReadDone? && s.consumer.call.count == 1
              && s.consumer.call.got == [c.file[k]] && s.consumer.result == 1 && s.pos == k + 1 && s.orderly
  {
    hide IsRun;
    var b, call := [c.file[k]], Call(1, [], 1, 0);
    assert c.file[k..k + 1] == b && b[1..] == [] && [] + b == b && b[..1] == b && [] + b[..1] == b;
    var r := ReadsSome(c, k, 1);
    var s0 := HasRead(k, b);
    r := LongerRun(c, r, s0, ByReader(Check));
    var s1 := s0.(reader := Filling(b));
    r := LongerRun(c, r, s1, ByReader(FillOnce(false)));
    var s2 := s1.(reader := AfterPut(1, b), fifo := b);
    r := LongerRun(c, r, s2, ByReader(NotePut));
    var s3 := s2.(reader := Filling([]), consumer := ReadWoken(call));
    r := LongerRun(c, r, s3, ByReader(FillOnce(false)));
    assert b + [] == b;
    var s4 := s3.(reader := Top, bufMtx := Free);
    r := LongerRun(c, r, s4, ByConsumer(TakeBuf));
    var s5 := s4.(consumer := ReadLoop(call), bufMtx := Owner.Consumer);
    r := LongerRun(c, r, s5, ByConsumer(ReadOnce));
    var s6 := s5.(consumer := ReadLoop(call.(got := b)), fifo := [], delivered := b);
    r := LongerRun(c, r, s6, ByConsumer(ReadOnce));
    assert s6.fifo[0..] == [] && b + [] == b;
    var s7 := s6.(consumer := ReadDone(call.(got := b), 1), bufMtx := Free, pos := k + 1);
    RunReaches(c, r, s7);
  }

  /** And a read at the end of every file can return with nothing. */
  lemma ReadsNothingAtEnd(c: Config)
    requires 0 < c.capacity
    ensures exists s ::
              && Reachable(c, s) && s.consumer.ReadDone? && s.consumer.call.count == 1
              && s.consumer.call.got == [] && s.consumer.result == 0 && s.pos == |c.file| && AtEof(s)
  {
    hide IsRun;
    var k, call := |c.file|, Call(1, [], 1, 0);
    assert c.file[k..k + 0] == [];
    var r := ReadsSome(c, k, 0);
    var s0 := HasRead(k, []);
    r := LongerRun(c, r, s0, ByReader(Check));
    var s1 := s0.(reader := EofSleep, bufMtx := Free, eof := true, consumer := ReadWoken(call));
    r := LongerRun(c, r, s1, ByConsumer(TakeBuf));
    var s2 := s1.(consumer := ReadLoop(call), bufMtx := Owner.Consumer);
    r := LongerRun(c, r, s2, ByConsumer(ReadOnce));
    assert s2.fifo[0..] == [] && s2.delivered + [] == [];
    var s3 := s2.(consumer := ReadDone(call, 0), bufMtx := Free);
    RunReaches(c, r, s3);
  }
}
