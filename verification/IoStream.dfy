/** The buffered input stream of src/io/io.cpp: a reader thread, a consumer (io_read and
    io_peek), a seeker (io_seek) and an aborter (io_abort) as a step system.

    Every step is what one thread does between two points where another thread can act on
    the same data. Both mutexes are explicit. A section that takes a mutex, does one thing
    and releases it is one step that needs the mutex to be free. A thread waiting on a
    condition variable is in a `...Sleep` state; a notification (or a spurious wake-up) moves
    it to the matching `...Woken` state, where it still has to take the mutex back. */
module IoStream {
  import opened Bytes
  import Fifo

  /** The size of the reader's local buffer. */
  const READ_SIZE: nat := 8096

  /** The file does not change while the stream is open, and `s->size` is its length. */
  datatype Config = Config(file: seq<Byte>, capacity: nat)

  datatype Owner = Free | Reader | Consumer | Seeker

  datatype Whence = Set | Cur | End

  /** What io_internal_read returned. */
  datatype ReadResult = Failed | Got(data: seq<Byte>)

  /** `rest` is read_buf from read_buf_pos on; `put` is what the last put accepted of it. */
  datatype ReaderPc =
    | Top
    | WantIo
    | HoldIo
    | Reading
    | WantBuf(res: ReadResult)
    | Checking(res: ReadResult)
    | Filling(rest: seq<Byte>)
    | InCallback(put: nat, rest: seq<Byte>)
    | AfterPut(put: nat, rest: seq<Byte>)
    | FullSleep(rest: seq<Byte>)
    | FullWoken(rest: seq<Byte>)
    | EofSleep
    | EofWoken
    | Exited

  /** One io_read call: how much was asked for, what it has so far, and, for the
      specification, the seek it started under and the stream offset it started at. */
  datatype Call = Call(count: nat, got: seq<Byte>, ghost epoch: nat, ghost start: nat)

  /** One io_peek call that has looked into the buffer: what it was asked for and what it saw,
      and, for the specification, under which seek and at which stream offset. */
  datatype Peek = Peek(count: nat, data: seq<Byte>, ghost epoch: nat, ghost start: nat)

  datatype ConsumerPc =
    | Idle
    | ReadWant(call: Call)
    | ReadLoop(call: Call)
    | ReadSleep(call: Call)
    | ReadWoken(call: Call)
    | ReadDone(call: Call, result: int)
    | PeekWant(count: nat)
    | PeekLoop(count: nat)
    | PeekSleep(count: nat)
    | PeekWoken(count: nat)
    | PeekDone(peek: Peek)                // buffer released, io_ok not yet asked
    | PeekBack(peek: Peek, result: int)
  {
    predicate InRead() {
      ReadWant? || ReadLoop? || ReadSleep? || ReadWoken?
    }
  }

  datatype SeekerPc =
    | NoSeek
    | SeekWantIo(offset: int, whence: Whence)
    | SeekHoldIo(offset: int, whence: Whence)
    | SeekMoved(ok: bool, target: nat)   // lseek done, buffer not yet cleared
    | SeekCleared(ok: bool, target: nat)

  datatype State = State(
    reader: ReaderPc,
    consumer: ConsumerPc,
    seeker: SeekerPc,
    ioMtx: Owner,
    bufMtx: Owner,
    filePos: nat,
    fifo: seq<Byte>,
    afterSeek: bool,
    eof: bool,
    readError: bool,
    stop: bool,
    pos: int,
    // Only for the specification:
    ghost base: nat,              // where the last seek (or the opening) left the stream
    ghost readTo: nat,            // how far the reader has read since then
    ghost delivered: seq<Byte>,   // what io_read took from the buffer since then
    ghost epoch: nat,             // how many times the buffer was cleared
    ghost orderly: bool           // no seek has overlapped an io_read, none has failed
  )

  function Init(): State {
    State(Top, Idle, NoSeek, Free, Free, 0, [], false, false, false, false, 0, 0, 0, [], 0, true)
  }

  datatype ReaderAction =
    | TestStop
    | LockIo
    | ClearAfterSeek
    | FileRead(ok: bool, size: nat)
    | LockBuf
    | Check
    | FillOnce(callback: bool)
    | EndCallback
    | NotePut
    | WakeSpuriously
    | Resume

  datatype ConsumerAction =
    | StartRead(count: nat)
    | StartPeek(count: nat)
    | TakeBuf
    | ReadOnce
    | PeekOnce
    | AnswerPeek
    | StirSpuriously
    | Return

  datatype SeekerAction =
    | StartSeek(offset: int, whence: Whence)
    | TakeIo
    | Lseek(moved: bool)
    | ClearBuffer
    | FinishSeek

  datatype Action =
    | ByReader(reader: ReaderAction)
    | ByConsumer(consumer: ConsumerAction)
    | BySeeker(seeker: SeekerAction)
    | Abort

  // ---------- condition variables ----------

  function NotifyFill(c: ConsumerPc): ConsumerPc {
    match c
    case ReadSleep(call) => ReadWoken(call)
    case PeekSleep(n) => PeekWoken(n)
    case _ => c
  }

  function NotifyFree(r: ReaderPc): ReaderPc {
    match r
    case FullSleep(rest) => FullWoken(rest)
    case EofSleep => EofWoken
    case _ => r
  }

  // ---------- the steps ----------

  /** io_internal_read: any non-empty part of what is left, nothing exactly at the end. */
  predicate ReadAllowed(c: Config, at: nat, size: nat) {
    && at + size <= |c.file| && size <= READ_SIZE
    && (size == 0 <==> at == |c.file|)
  }

  function Clamp(x: int, hi: nat): nat {
    if x < 0 then 0 else if x > hi then hi else x
  }

  function SeekTarget(c: Config, pos: int, offset: int, whence: Whence): nat {
    Clamp(match whence
          case Set => offset
          case Cur => pos + offset
          case End => |c.file| + offset, |c.file|)
  }

  predicate ReaderEnabled(c: Config, s: State, a: ReaderAction) {
    match a
    case TestStop => s.reader.Top?
    case LockIo => s.reader.WantIo? && s.ioMtx.Free?
    case ClearAfterSeek => s.reader.HoldIo? && s.bufMtx.Free?
    case FileRead(ok, size) => s.reader.Reading? && (ok ==> ReadAllowed(c, s.filePos, size))
    case LockBuf => s.reader.WantBuf? && s.bufMtx.Free?
    case Check => s.reader.Checking?
    case FillOnce(_) => s.reader.Filling?
    case EndCallback => s.reader.InCallback? && s.bufMtx.Free?
    case NotePut => s.reader.AfterPut? && s.reader.put <= |s.reader.rest|
    case WakeSpuriously => s.reader.FullSleep? || s.reader.EofSleep?
    case Resume => (s.reader.FullWoken? || s.reader.EofWoken?) && s.bufMtx.Free?
  }

  predicate ConsumerEnabled(s: State, a: ConsumerAction) {
    match a
    case StartRead(_) => s.consumer.Idle?
    case StartPeek(_) => s.consumer.Idle?
    case TakeBuf =>
      && (s.consumer.ReadWant? || s.consumer.ReadWoken? || s.consumer.PeekWant? || s.consumer.PeekWoken?)
      && s.bufMtx.Free?
    case ReadOnce => s.consumer.ReadLoop?
    case PeekOnce => s.consumer.PeekLoop?
    case StirSpuriously => s.consumer.ReadSleep? || s.consumer.PeekSleep?
    case AnswerPeek => s.consumer.PeekDone? && s.bufMtx.Free?
    case Return => s.consumer.ReadDone? || s.consumer.PeekBack?
  }

  predicate SeekerEnabled(s: State, a: SeekerAction) {
    match a
    case StartSeek(_, _) => s.seeker.NoSeek? && s.bufMtx.Free?
    case TakeIo => s.seeker.SeekWantIo? && s.ioMtx.Free?
    case Lseek(_) => s.seeker.SeekHoldIo?
    case ClearBuffer => s.seeker.SeekMoved? && s.bufMtx.Free?
    case FinishSeek => s.seeker.SeekCleared?
  }

  /** Whether the step can be taken; that the buffer never holds more than its capacity is
      part of the invariant proved below. */
  predicate Enabled(c: Config, s: State, a: Action) {
    && |s.fifo| <= c.capacity
    && match a
       case ByReader(r) => ReaderEnabled(c, s, r)
       case ByConsumer(k) => ConsumerEnabled(s, k)
       case BySeeker(k) => SeekerEnabled(s, k)
       case Abort => s.bufMtx.Free?
  }

  /** io_read_thread */
  function ReaderStep(c: Config, s: State, a: ReaderAction): State
    requires ReaderEnabled(c, s, a) && |s.fifo| <= c.capacity
  {
    match a
    case TestStop => s.(reader := if s.stop then Exited else WantIo)
    case LockIo => s.(reader := HoldIo, ioMtx := Reader)
    case ClearAfterSeek => s.(reader := Reading, afterSeek := false)
    case FileRead(ok, size) =>
      if ok then
        s.(reader := WantBuf(Got(c.file[s.filePos..s.filePos + size])), ioMtx := Free,
           filePos := s.filePos + size, readTo := s.filePos + size)
      else
        s.(reader := WantBuf(Failed), ioMtx := Free)
    case LockBuf => s.(reader := Checking(s.reader.res), bufMtx := Reader)
    case Check => CheckResult(s)
    case FillOnce(callback) => FillStep(c, s, callback)
    case EndCallback => s.(reader := AfterPut(s.reader.put, s.reader.rest), bufMtx := Reader)
    case NotePut => s.(reader := Filling(s.reader.rest[s.reader.put..]), consumer := NotifyFill(s.consumer))
    case WakeSpuriously => s.(reader := NotifyFree(s.reader))
    case Resume =>
      s.(reader := if s.reader.FullWoken? then Filling(s.reader.rest) else Top,
         bufMtx := if s.reader.FullWoken? then Reader else Free)
  }

  /** io_read_buffered and io_peek_internal */
  function ConsumerStep(c: Config, s: State, a: ConsumerAction): State
    requires ConsumerEnabled(s, a) && |s.fifo| <= c.capacity
  {
    match a
    case StartRead(count) =>
      s.(consumer := ReadWant(Call(count, [], s.epoch, |s.delivered|)),
         orderly := s.orderly && s.seeker.NoSeek?)
    case StartPeek(count) => s.(consumer := PeekWant(count))
    case TakeBuf =>
      s.(consumer := if s.consumer.ReadWant? || s.consumer.ReadWoken? then ReadLoop(s.consumer.call)
                     else PeekLoop(s.consumer.count),
         bufMtx := Consumer)
    case ReadOnce => ReadStep(s)
    case PeekOnce => PeekStep(c, s)
    case AnswerPeek =>
      s.(consumer := PeekBack(s.consumer.peek, if s.readError then -1 else |s.consumer.peek.data|))
    case StirSpuriously => s.(consumer := NotifyFill(s.consumer))
    case Return => s.(consumer := Idle)
  }

  /** io_seek and io_seek_buffered */
  function SeekerStep(c: Config, s: State, a: SeekerAction): State
    requires SeekerEnabled(s, a)
  {
    match a
    case StartSeek(offset, whence) =>
      if s.readError then s
      else s.(seeker := SeekWantIo(offset, whence), orderly := s.orderly && !s.consumer.InRead())
    case TakeIo => s.(seeker := SeekHoldIo(s.seeker.offset, s.seeker.whence), ioMtx := Seeker)
    case Lseek(moved) =>
      var target := SeekTarget(c, s.pos, s.seeker.offset, s.seeker.whence);
      s.(seeker := SeekMoved(moved, target), filePos := if moved then target else s.filePos,
         orderly := s.orderly && moved)
    case ClearBuffer =>
      s.(seeker := SeekCleared(s.seeker.ok, s.seeker.target), reader := NotifyFree(s.reader),
         fifo := [], afterSeek := true, eof := false,
         base := s.filePos, readTo := s.filePos, delivered := [], epoch := s.epoch + 1)
    case FinishSeek =>
      s.(seeker := NoSeek, ioMtx := Free, pos := if s.seeker.ok then s.seeker.target else s.pos)
  }

  /** io_abort */
  function AbortStep(s: State): State {
    if s.stop then s
    else s.(stop := true, consumer := NotifyFill(s.consumer), reader := NotifyFree(s.reader))
  }

  function Step(c: Config, s: State, a: Action): State
    requires Enabled(c, s, a)
  {
    match a
    case ByReader(r) => ReaderStep(c, s, r)
    case ByConsumer(k) => ConsumerStep(c, s, k)
    case BySeeker(k) => SeekerStep(c, s, k)
    case Abort => AbortStep(s)
  }

  datatype Verdict = Quit | Retry | ReportError | ReportEnd | Fill

  /** Which branch of lines 389-427 is taken, under buf_mtx. */
  function Judge(s: State): Verdict
    requires s.reader.Checking?
  {
    if s.stop then Quit
    else if s.reader.res.Failed? then (if s.afterSeek then Retry else ReportError)
    else if s.reader.res.data == [] then (if s.afterSeek then Retry else ReportEnd)
    else Fill
  }

  function CheckResult(s: State): State
    requires s.reader.Checking?
  {
    var v := Judge(s);
    s.(reader := match v
                 case Quit => Exited
                 case Retry => Top
                 case ReportError => Exited
                 case ReportEnd => EofSleep
                 case Fill => Filling(s.reader.res.data),
       bufMtx := if v.Fill? then Reader else Free,
       readError := s.readError || v.ReportError?,
       eof := (s.eof && !v.Fill?) || v.ReportEnd?,
       consumer := if v.ReportError? || v.ReportEnd? then NotifyFill(s.consumer) else s.consumer)
  }

  /** One turn of the loop at lines 429-462; `callback` says whether one is installed. */
  function FillStep(c: Config, s: State, callback: bool): State
    requires s.reader.Filling? && |s.fifo| <= c.capacity
  {
    var rest := s.reader.rest;
    var over := rest == [] || s.afterSeek;
    var accepted := if over then [] else Fifo.Accepted(s.fifo, c.capacity, rest);
    var next :=
      if over || s.stop then Top
      else if accepted == [] then FullSleep(rest)
      else if callback then InCallback(|accepted|, rest)
      else AfterPut(|accepted|, rest);
    s.(reader := next, bufMtx := if next.AfterPut? then Reader else Free, fifo := s.fifo + accepted)
  }

  predicate KeepsReading(s: State)
    requires s.consumer.ReadLoop?
  {
    |s.consumer.call.got| < s.consumer.call.count && !s.stop && ((!s.eof && !s.readError) || s.fifo != [])
  }

  /** One turn of the loop at lines 605-619, or its exit and lines 622-624. */
  function ReadStep(s: State): State
    requires s.consumer.ReadLoop?
  {
    var call := s.consumer.call;
    var keep := KeepsReading(s);
    var n := if keep then Fifo.Min(|s.fifo|, call.count - |call.got|) else 0;
    var next :=
      if !keep then ReadDone(call, if |call.got| > 0 then |call.got| else if s.readError then -1 else 0)
      else if n == 0 then ReadSleep(call)
      else ReadLoop(call.(got := call.got + s.fifo[..n]));
    s.(consumer := next, bufMtx := if next.ReadLoop? then Consumer else Free,
       fifo := s.fifo[n..], delivered := s.delivered + s.fifo[..n],
       reader := if n == 0 then s.reader else NotifyFree(s.reader),
       pos := if keep then s.pos else s.pos + |call.got|)
  }

  /** The loop at lines 583-589, or its exit and the peek at line 591. */
  function PeekStep(c: Config, s: State): State
    requires s.consumer.PeekLoop? && |s.fifo| <= c.capacity
  {
    var count := s.consumer.count;
    var wait := !s.readError && !s.stop && count > |s.fifo| && |s.fifo| < c.capacity && !s.eof;
    s.(consumer := if wait then PeekSleep(count)
                   else PeekDone(Peek(count, s.fifo[..Fifo.Min(|s.fifo|, count)], s.epoch, |s.delivered|)),
       bufMtx := Free)
  }

  // ---------- runs ----------

  /** A finite interleaving, newest step last. */
  datatype Run = Opened | Then(before: Run, last: Action)

  ghost predicate IsRun(c: Config, r: Run, s: State) {
    match r
    case Opened => s == Init()
    case Then(before, a) =>
      exists t :: IsRun(c, before, t) && Enabled(c, t, a) && s == Step(c, t, a)
  }

  ghost predicate Reachable(c: Config, s: State) {
    exists r :: IsRun(c, r, s)
  }
}
