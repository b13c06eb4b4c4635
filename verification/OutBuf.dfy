/** The output buffer of src/audio/outputs/out_buf.cpp as a step system: the device thread
    read_thread, one thread that puts, one that stops, resets and waits, and any number that
    pause and unpause.

    Each step is one section under the mutex. `Asleep` states wait on a condition variable; a
    notification or a spurious wake-up moves a thread to the matching state that takes the
    mutex again. The elements of the buffer are of any type. */
module OutBuf {

  /** `rest` is what play_buf holds from play_buf_pos on. */
  datatype ReaderPc<T> =
    | Top
    | Called            // free_callback runs, or would run
    | Asleep            // in play_cond.wait
    | Woken
    | Sending(rest: seq<T>)
    | Gone

  datatype PutterPc<T> =
    | PutIdle
    | Putting(data: seq<T>)
    | PutAsleep(data: seq<T>)
    | PutWoken(data: seq<T>)

  datatype ControlPc = NoControl | StopAsleep | Waiting | WaitAsleep

  /** For the specification: what put accepted, and how many bytes each clear discarded. */
  datatype Record<T> = Took(data: seq<T>) | Cleared(count: nat)

  datatype State<T> = State(
    fifo: seq<T>,
    paused: bool,
    stopped: bool,
    exit: bool,
    resetDev: bool,
    readWaiting: bool,
    devClosed: bool,
    hwPaused: bool,
    reader: ReaderPc<T>,
    putter: PutterPc<T>,
    control: ControlPc,
    sent: seq<T>,
    log: seq<Record<T>>,
    given: seq<T>)   // for the specification: what put was called with, less what it refused
  {
    /** Taken from the buffer but not yet accepted by the device. */
    function Rest(): seq<T> {
      if reader.Sending? then reader.rest else []
    }

    /** What the running put has not yet written. */
    function Pending(): seq<T> {
      if putter.PutIdle? then [] else putter.data
    }
  }

  datatype Action<T> =
    | LoopTop                              // lines 94-111
    | AfterCallback(canHwPause: bool, n: nat, reopened: bool)   // lines 115-200
    | WakeReader                           // a spurious wake-up
    | Resume(n: nat, reopened: bool)         // lines 142-200, after play_cond.wait
    | Send(k: nat)                         // one turn of the loop at lines 204-214
    | BeginPut(data: seq<T>)
    | PutOnce                              // one turn of the loop at lines 289-315
    | WakePutter
    | PutAgain                             // lines 301-314, after ready_cond.wait
    | Pause
    | Unpause
    | Stop
    | Reset
    | BeginWait
    | WaitOnce                             // one turn of the loop at lines 419-423
    | WakeControl
    | Exit

  function Init<T>(): State<T> {
    State([], false, false, false, false, false, false, false, Top, PutIdle, NoControl, [], [], [])
  }

  /** ready_cond.notify_all */
  function NotifyReady<T>(s: State<T>): State<T> {
    s.(putter := if s.putter.PutAsleep? then PutWoken(s.putter.data) else s.putter,
       control := if s.control.StopAsleep? then NoControl else if s.control.WaitAsleep? then Waiting else s.control)
  }

  /** play_cond.notify_one */
  function NotifyPlay<T>(r: ReaderPc<T>): ReaderPc<T> {
    if r.Asleep? then Woken else r
  }

  /** Lines 94-103. */
  function TopStep<T>(s: State<T>): State<T> {
    s.(reader := Called, resetDev := s.resetDev && s.devClosed,
       fifo := if s.stopped then [] else s.fifo,
       log := if s.stopped then s.log + [Cleared(|s.fifo|)] else s.log)
  }

  predicate MustSleep<T>(s: State<T>) {
    (|s.fifo| == 0 || s.paused || s.stopped) && !s.exit
  }

  /** Lines 119-138: a paused stream is corked, or its device closed. */
  function FallAsleep<T>(s: State<T>, canHwPause: bool): State<T> {
    var now := s.paused && !s.devClosed && !s.hwPaused;
    s.(reader := Asleep, readWaiting := true,
       hwPaused := s.hwPaused || (now && canHwPause), devClosed := s.devClosed || (now && !canHwPause))
  }

  /** Lines 142-200, up to the sending: what to do with the next `n` bytes at most. */
  function GoOn<T>(s: State<T>, n: nat, reopened: bool): State<T> {
    var closed := s.devClosed && !(!s.hwPaused && !s.paused && reopened);
    var take := |s.fifo| != 0 && !s.paused && !s.stopped && !closed;
    var k := if !take then 0 else if n < |s.fifo| then n else |s.fifo|;
    s.(readWaiting := false, devClosed := closed, hwPaused := s.hwPaused && s.paused,
       reader := if |s.fifo| == 0 && s.exit then Gone else if take then Sending(s.fifo[..k]) else Top,
       fifo := s.fifo[k..])
  }

  function PutMore<T>(s: State<T>, data: seq<T>, capacity: nat): State<T>
    requires |s.fifo| <= capacity
  {
    var k := if |data| < capacity - |s.fifo| then |data| else capacity - |s.fifo|;
    if s.stopped then s.(putter := PutIdle, given := if |data| <= |s.given| then s.given[..|s.given| - |data|] else [])
    else
      s.(fifo := s.fifo + data[..k], log := s.log + [Took(data[..k])],
         putter := if k == |data| then PutIdle else Putting(data[k..]),
         reader := if k == 0 then s.reader else NotifyPlay(s.reader))
  }

  predicate Enabled<T>(s: State<T>, a: Action<T>) {
    match a
    case LoopTop => s.reader.Top?
    case AfterCallback(_, _, _) => s.reader.Called?
    case WakeReader => s.reader.Asleep?
    case Resume(_, _) => s.reader.Woken?
    case Send(k) => s.reader.Sending? && k <= |s.reader.rest|
    case BeginPut(data) => s.putter.PutIdle? && !s.exit
    case PutOnce => s.putter.Putting?
    case WakePutter => s.putter.PutAsleep?
    case PutAgain => s.putter.PutWoken?
    case Pause => !s.exit
    case Unpause => !s.exit
    case Stop => s.control.NoControl? && !s.exit
    case Reset => s.control.NoControl? && s.putter.PutIdle? && !s.exit
    case BeginWait => s.control.NoControl? && !s.exit
    case WaitOnce => s.control.Waiting?
    case WakeControl => s.control.StopAsleep? || s.control.WaitAsleep?
    case Exit => s.control.NoControl? && s.putter.PutIdle?   // only when nothing is played
  }

  function Step<T>(capacity: nat, s: State<T>, a: Action<T>): State<T>
    requires |s.fifo| <= capacity && Enabled(s, a)
  {
    match a
    case LoopTop => TopStep(s)
    case AfterCallback(canHwPause, n, reopened) =>
      if MustSleep(s) then FallAsleep(NotifyReady(s), canHwPause) else GoOn(NotifyReady(s), n, reopened)
    case WakeReader => s.(reader := Woken)
    case Resume(n, reopened) => GoOn(s, n, reopened)
    case Send(k) =>
      s.(sent := s.sent + s.reader.rest[..k],
         reader := if k == |s.reader.rest| then Top else Sending(s.reader.rest[k..]))
    case BeginPut(data) => s.(putter := if |data| == 0 then PutIdle else Putting(data), given := s.given + data)
    case PutOnce =>
      if |s.fifo| == capacity && !s.stopped then s.(putter := PutAsleep(s.putter.data))
      else PutMore(s, s.putter.data, capacity)
    case WakePutter => s.(putter := PutWoken(s.putter.data))
    case PutAgain => PutMore(s, s.putter.data, capacity)
    case Pause => s.(paused := true)
    case Unpause => s.(paused := false, reader := NotifyPlay(s.reader))
    case Stop =>
      s.(stopped := true, paused := false, resetDev := true, reader := NotifyPlay(s.reader), control := StopAsleep)
    case Reset =>
      s.(fifo := [], log := s.log + [Cleared(|s.fifo|)], stopped := false, paused := false, resetDev := false)
    case BeginWait => s.(control := Waiting)
    case WaitOnce => s.(control := if s.readWaiting then NoControl else WaitAsleep)
    case WakeControl => s.(control := if s.control.StopAsleep? then NoControl else Waiting)
    case Exit => s.(exit := true, reader := NotifyPlay(s.reader))
  }

  // ---------- runs ----------

  datatype Run<T> = Opened | Then(before: Run<T>, last: Action<T>)

  ghost predicate IsRun<T(!new)>(capacity: nat, r: Run<T>, s: State<T>) {
    match r
    case Opened => s == Init()
    case Then(before, a) =>
      exists t :: IsRun(capacity, before, t) && |t.fifo| <= capacity && Enabled(t, a) && s == Step(capacity, t, a)
  }

  ghost predicate Reachable<T(!new)>(capacity: nat, s: State<T>) {
    exists r :: IsRun(capacity, r, s)
  }

  // ---------- no byte lost ----------

  /** The accepted bytes without those that clears discarded, which are the latest ones. */
  function Kept<T>(log: seq<Record<T>>): seq<T> {
    if log == [] then []
    else
      var before := Kept(log[..|log| - 1]);
      match log[|log| - 1]
      case Took(data) => before + data
      case Cleared(n) => if n <= |before| then before[..|before| - n] else []
  }

  lemma KeptTook<T>(log: seq<Record<T>>, data: seq<T>)
    ensures Kept(log + [Took(data)]) == Kept(log) + data
  {
    assert (log + [Took(data)])[..|log|] == log;
  }

  lemma KeptCleared<T>(log: seq<Record<T>>, a: seq<T>, b: seq<T>)
    requires Kept(log) == a + b
    ensures Kept(log + [Cleared(|b|)]) == a
  {
    assert (log + [Cleared(|b|)])[..|log|] == log;
    assert (a + b)[..|a + b| - |b|] == a;
  }

  ghost predicate Conserved<T>(s: State<T>) {
    s.sent + s.Rest() + s.fifo == Kept(s.log)
  }

  /** Everything that put accepted. */
  function Taken<T>(log: seq<Record<T>>): seq<T> {
    if log == [] then []
    else Taken(log[..|log| - 1]) + if log[|log| - 1].Took? then log[|log| - 1].data else []
  }

  lemma TakenAppend<T>(log: seq<Record<T>>, r: Record<T>)
    ensures Taken(log + [r]) == Taken(log) + if r.Took? then r.data else []
  {
    assert (log + [r])[..|log|] == log;
  }

  ghost predicate Inv<T>(capacity: nat, s: State<T>) {
    && |s.fifo| <= capacity
    && Conserved(s)
    && s.given == Taken(s.log) + s.Pending()
    && (s.readWaiting <==> s.reader.Asleep? || s.reader.Woken?)
    && (s.reader.Asleep? ==> (|s.fifo| == 0 || s.paused || s.stopped) && !s.exit)
    && (s.reader.Asleep? ==> !s.control.StopAsleep? && !s.control.WaitAsleep?)
    && (s.reader.Asleep? && s.putter.PutAsleep? ==> s.paused && !s.stopped && |s.fifo| == capacity)
    && (s.exit ==> s.control.NoControl? && s.putter.PutIdle?)
    && (s.reader.Gone? ==> s.exit && |s.fifo| == 0)
    && !(s.hwPaused && s.devClosed)
  }

  lemma InitKeeps<T>(capacity: nat)
    ensures Inv<T>(capacity, Init())
  {
  }

  lemma TopKeeps<T(!new)>(capacity: nat, s: State<T>)
    requires Inv(capacity, s) && s.reader.Top?
    ensures Inv(capacity, TopStep(s))
  {
    hide Kept, Taken;
    if s.stopped {
      KeptCleared(s.log, s.sent + s.Rest(), s.fifo);
      TakenAppend(s.log, Cleared(|s.fifo|));
    }
  }

  lemma GoOnKeeps<T(!new)>(capacity: nat, s: State<T>, n: nat, reopened: bool)
    requires Inv(capacity, s) && |s.Rest()| == 0
    ensures Inv(capacity, GoOn(s, n, reopened))
  {
    hide Kept, Taken;
    var t := GoOn(s, n, reopened);
    assert t.Rest() + t.fifo == s.fifo;
    assert s.sent + s.Rest() == s.sent;
    assert t.sent + t.Rest() + t.fifo == t.sent + (t.Rest() + t.fifo);
  }

  lemma NotifyReadyKeeps<T(!new)>(capacity: nat, s: State<T>)
    requires Inv(capacity, s)
    ensures Inv(capacity, NotifyReady(s))
    ensures var t := NotifyReady(s);
      !t.putter.PutAsleep? && !t.control.StopAsleep? && !t.control.WaitAsleep?
  {
    hide Kept, Taken;
  }

  lemma FallAsleepKeeps<T(!new)>(capacity: nat, s: State<T>, canHwPause: bool)
    requires Inv(capacity, s) && s.reader.Called? && MustSleep(s)
    requires !s.putter.PutAsleep? && !s.control.StopAsleep? && !s.control.WaitAsleep?
    ensures Inv(capacity, FallAsleep(s, canHwPause))
  {
    hide Kept, Taken;
  }

  lemma PutMoreKeeps<T(!new)>(capacity: nat, s: State<T>)
    requires Inv(capacity, s) && (s.putter.Putting? || s.putter.PutWoken?)
    ensures Inv(capacity, PutMore(s, s.putter.data, capacity))
  {
    hide Kept, Taken, Conserved;
    if s.stopped {
      DropEnd(Taken(s.log), s.putter.data);
      SameBytes(s, PutMore(s, s.putter.data, capacity));
    } else {
      PutTakes(s, capacity);
      PutConserves(s, capacity);
    }
  }

  lemma SameBytes<T>(s: State<T>, t: State<T>)
    requires Conserved(s) && t.sent == s.sent && t.reader == s.reader && t.fifo == s.fifo && t.log == s.log
    ensures Conserved(t)
  {
    hide Kept;
  }

  lemma PutTakes<T>(s: State<T>, capacity: nat)
    requires |s.fifo| <= capacity && !s.putter.PutIdle? && !s.stopped && s.given == Taken(s.log) + s.Pending()
    ensures var t := PutMore(s, s.putter.data, capacity); t.given == Taken(t.log) + t.Pending()
  {
    hide Kept, Taken;
    var data := s.putter.data;
    var k := if |data| < capacity - |s.fifo| then |data| else capacity - |s.fifo|;
    TakenAppend(s.log, Took(data[..k]));
    MoveOver(Taken(s.log), data, k);
    assert data[|data|..] == [];
  }

  lemma PutConserves<T>(s: State<T>, capacity: nat)
    requires |s.fifo| <= capacity && !s.putter.PutIdle? && !s.stopped && Conserved(s)
    ensures Conserved(PutMore(s, s.putter.data, capacity))
  {
    hide Kept, Taken;
    var data := s.putter.data;
    var k := if |data| < capacity - |s.fifo| then |data| else capacity - |s.fifo|;
    KeptTook(s.log, data[..k]);
    Regroup(s.sent + s.Rest(), s.fifo, data[..k]);
  }

  lemma Regroup<T>(a: seq<T>, b: seq<T>, c: seq<T>)
    ensures a + (b + c) == a + b + c
  {
  }

  lemma DropEnd<T>(a: seq<T>, b: seq<T>)
    ensures (a + b)[..|a + b| - |b|] == a
  {
  }

  lemma MoveOver<T>(a: seq<T>, b: seq<T>, k: nat)
    requires k <= |b|
    ensures a + b == (a + b[..k]) + b[k..]
  {
  }

  lemma SendKeeps<T(!new)>(capacity: nat, s: State<T>, k: nat)
    requires Inv(capacity, s) && s.reader.Sending? && k <= |s.reader.rest|
    ensures Inv(capacity, Step(capacity, s, Send(k)))
  {
    hide Kept, Taken;
    assert s.sent + s.reader.rest == (s.sent + s.reader.rest[..k]) + s.reader.rest[k..];
  }

  lemma ResetKeeps<T(!new)>(capacity: nat, s: State<T>)
    requires Inv(capacity, s) && Enabled(s, Reset)
    ensures Inv(capacity, Step(capacity, s, Reset))
  {
    hide Kept, Taken;
    KeptCleared(s.log, s.sent + s.Rest(), s.fifo);
    TakenAppend(s.log, Cleared(|s.fifo|));
  }

  lemma BeginPutKeeps<T(!new)>(capacity: nat, s: State<T>, data: seq<T>)
    requires Inv(capacity, s) && Enabled(s, BeginPut(data))
    ensures Inv(capacity, Step(capacity, s, BeginPut(data)))
  {
    hide Kept, Taken;
  }

  lemma OtherKeeps<T(!new)>(capacity: nat, s: State<T>, a: Action<T>)
    requires Inv(capacity, s) && Enabled(s, a) && capacity > 0
    requires a.WakeReader? || a.WakePutter? || a.Pause? || a.Unpause? || a.Stop? || a.BeginWait? || a.WaitOnce?
             || a.WakeControl? || a.Exit?
    ensures Inv(capacity, Step(capacity, s, a))
  {
    hide Kept, Taken;
  }

  lemma StepKeeps<T(!new)>(capacity: nat, s: State<T>, a: Action<T>)
    requires Inv(capacity, s) && Enabled(s, a) && capacity > 0
    ensures Inv(capacity, Step(capacity, s, a))
  {
    hide Kept, Taken, Conserved, TopStep, GoOn, PutMore, NotifyReady, FallAsleep;
    match a
    case LoopTop => TopKeeps(capacity, s);
    case AfterCallback(canHwPause, n, reopened) => CallbackKeeps(capacity, s, canHwPause, n, reopened);
    case Resume(n, reopened) => GoOnKeeps(capacity, s, n, reopened);
    case Send(k) => SendKeeps(capacity, s, k);
    case BeginPut(data) => BeginPutKeeps(capacity, s, data);
    case PutOnce =>
      if |s.fifo| == capacity && !s.stopped {
        PutSleepKeeps(capacity, s);
      } else {
        PutMoreKeeps(capacity, s);
      }
    case PutAgain => PutMoreKeeps(capacity, s);
    case Reset => ResetKeeps(capacity, s);
    case _ => OtherKeeps(capacity, s, a);
  }

  lemma CallbackKeeps<T(!new)>(capacity: nat, s: State<T>, canHwPause: bool, n: nat, reopened: bool)
    requires Inv(capacity, s) && s.reader.Called?
    ensures Inv(capacity, Step(capacity, s, AfterCallback(canHwPause, n, reopened)))
  {
    hide Kept, Taken, Conserved, GoOn, FallAsleep;
    NotifyReadyKeeps(capacity, s);
    if MustSleep(s) {
      FallAsleepKeeps(capacity, NotifyReady(s), canHwPause);
    } else {
      GoOnKeeps(capacity, NotifyReady(s), n, reopened);
    }
  }

  lemma PutSleepKeeps<T(!new)>(capacity: nat, s: State<T>)
    requires Inv(capacity, s) && s.putter.Putting? && |s.fifo| == capacity > 0 && !s.stopped
    ensures Inv(capacity, s.(putter := PutAsleep(s.putter.data)))
  {
    hide Kept, Taken;
  }

  lemma {:induction false} RunKeeps<T(!new)>(capacity: nat, r: Run<T>, s: State<T>)
    requires IsRun(capacity, r, s) && capacity > 0
    ensures Inv(capacity, s)
  {
    hide Inv, Enabled, Step;
    match r
    case Opened => InitKeeps<T>(capacity);
    case Then(before, a) =>
      var t :| IsRun(capacity, before, t) && |t.fifo| <= capacity && Enabled(t, a) && s == Step(capacity, t, a);
      RunKeeps(capacity, before, t);
      StepKeeps(capacity, t, a);
  }

  // ---------- what it means ----------

  /** The bytes sent to the device, the unsent rest of play_buf and the buffer's contents, in
      that order, are what put accepted less what stop and reset discarded; and put accepted
      all it was given, apart from what it refused or has not yet written. */
  lemma ConservesBytes<T(!new)>(capacity: nat, s: State<T>)
    requires Reachable(capacity, s) && capacity > 0
    ensures s.sent + s.Rest() + s.fifo == Kept(s.log)
    ensures s.given == Taken(s.log) + s.Pending()
    ensures |s.fifo| <= capacity
  {
    var r :| IsRun(capacity, r, s);
    RunKeeps(capacity, r, s);
  }

  /** While paused or stopped no byte leaves the buffer for the device: it is only added to,
      or discarded. */
  lemma NothingLeavesWhilePaused<T(!new)>(capacity: nat, s: State<T>, a: Action<T>)
    requires |s.fifo| <= capacity && Enabled(s, a) && (s.paused || s.stopped)
    ensures var t := Step(capacity, s, a);
      && t.sent + t.Rest() == s.sent + s.Rest()
      && (s.fifo <= t.fifo || (|t.fifo| == 0 && t.log == s.log + [Cleared(|s.fifo|)]))
  {
    hide TopStep, GoOn, PutMore, FallAsleep, NotifyReady;
    match a
    case LoopTop => TopHolds(s);
    case AfterCallback(canHwPause, n, reopened) =>
      NotifyHolds(s);
      FallHolds(NotifyReady(s), canHwPause);
      GoOnHolds(NotifyReady(s), n, reopened);
    case Resume(n, reopened) => GoOnHolds(s, n, reopened);
    case Send(k) => MoveOver(s.sent, s.reader.rest, k);
    case PutOnce => PutHolds(s, capacity);
    case PutAgain => PutHolds(s, capacity);
    case _ =>
  }

  lemma TopHolds<T>(s: State<T>)
    requires s.reader.Top?
    ensures TopStep(s).sent == s.sent && TopStep(s).Rest() == s.Rest()
    ensures TopStep(s).fifo == s.fifo || (|TopStep(s).fifo| == 0 && TopStep(s).log == s.log + [Cleared(|s.fifo|)])
  {
  }

  lemma NotifyHolds<T>(s: State<T>)
    ensures var t := NotifyReady(s);
      && t.sent == s.sent && t.reader == s.reader && t.fifo == s.fifo
      && t.paused == s.paused && t.stopped == s.stopped && t.log == s.log
  {
  }

  lemma FallHolds<T>(s: State<T>, canHwPause: bool)
    requires s.reader.Called?
    ensures var t := FallAsleep(s, canHwPause); t.sent == s.sent && t.Rest() == s.Rest() && t.fifo == s.fifo
  {
  }

  lemma GoOnHolds<T>(s: State<T>, n: nat, reopened: bool)
    requires (s.paused || s.stopped) && !s.reader.Sending?
    ensures var t := GoOn(s, n, reopened); t.sent == s.sent && t.Rest() == s.Rest() && t.fifo == s.fifo
  {
  }

  lemma PutHolds<T>(s: State<T>, capacity: nat)
    requires |s.fifo| <= capacity && !s.putter.PutIdle?
    ensures var t := PutMore(s, s.putter.data, capacity); t.sent == s.sent && t.Rest() == s.Rest() && s.fifo <= t.fifo
  {
  }

  /** Nobody sleeps for good: bytes that may be played are not left to a sleeping device
      thread; a sleeping stop or wait has it awake; and put and it sleep together only on a
      pause. */
  lemma NoLostWakeUp<T(!new)>(capacity: nat, s: State<T>)
    requires Reachable(capacity, s) && capacity > 0
    ensures s.reader.Asleep? ==> |s.fifo| == 0 || s.paused || s.stopped
    ensures s.control.StopAsleep? || s.control.WaitAsleep? ==> !s.reader.Asleep? && !s.reader.Gone?
    ensures s.putter.PutAsleep? && s.reader.Asleep? ==> s.paused
  {
    var r :| IsRun(capacity, r, s);
    RunKeeps(capacity, r, s);
  }

  /** When wait returns, the device thread holds no bytes. */
  lemma WaitLeavesDeviceFree<T(!new)>(capacity: nat, s: State<T>)
    requires Reachable(capacity, s) && capacity > 0
    requires s.control.Waiting? && s.readWaiting
    ensures |s.Rest()| == 0 && s.sent + s.fifo == Kept(s.log)
  {
    hide Inv, Kept;
    var r :| IsRun(capacity, r, s);
    RunKeeps(capacity, r, s);
    NoRest(capacity, s);
  }

  lemma NoRest<T(!new)>(capacity: nat, s: State<T>)
    requires Inv(capacity, s) && s.readWaiting
    ensures |s.Rest()| == 0 && s.sent + s.fifo == Kept(s.log)
  {
    hide Kept, Taken;
    assert s.sent + s.Rest() == s.sent;
  }
}
