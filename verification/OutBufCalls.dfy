/** What the calls of the output buffer bring about (src/audio/outputs/out_buf.cpp): pausing pauses,
    stopping refuses, and bytes that may be played are played. */
module OutBufCalls {
  import opened OutBuf

  /** `t` is reached from `s` by the steps in `acts`. */
  ghost predicate Leads<T(!new)>(capacity: nat, s: State<T>, acts: seq<Action<T>>, t: State<T>)
    decreases |acts|
  {
    if acts == [] then s == t
    else |s.fifo| <= capacity && Enabled(s, acts[0]) && Leads(capacity, Step(capacity, s, acts[0]), acts[1..], t)
  }

  // ---------- pausing ----------

  lemma PausePauses<T(!new)>(capacity: nat, s: State<T>)
    requires |s.fifo| <= capacity && Enabled(s, Pause)
    ensures var t := Step(capacity, s, Pause);
      && t.paused && t.stopped == s.stopped && t.exit == s.exit
      && t.fifo == s.fifo && t.reader == s.reader && t.sent == s.sent && t.log == s.log
      && t.putter == s.putter && t.control == s.control
  {
  }

  lemma PausedStep<T(!new)>(capacity: nat, s: State<T>, a: Action<T>)
    requires |s.fifo| <= capacity && Enabled(s, a) && s.paused && !s.stopped && !a.Unpause? && !a.Stop? && !a.Reset?
    ensures var t := Step(capacity, s, a);
      && t.paused && !t.stopped && |t.fifo| <= capacity
      && t.sent + t.Rest() == s.sent + s.Rest() && s.fifo <= t.fifo
  {
    NothingLeavesWhilePaused(capacity, s, a);
    PausedStays(capacity, s, a);
  }

  lemma PausedStays<T(!new)>(capacity: nat, s: State<T>, a: Action<T>)
    requires |s.fifo| <= capacity && Enabled(s, a) && s.paused && !s.stopped && !a.Unpause? && !a.Stop? && !a.Reset?
    ensures Held(capacity, s, Step(capacity, s, a))
  {
    hide PutMore, GoOn, FallAsleep, NotifyReady, NotifyPlay, Held;
    HeldAsIs(capacity, s, Step(capacity, s, a));
    match a {
      case AfterCallback(canHwPause, n, reopened) =>
        Notified(s);
        FellAsleep(NotifyReady(s), canHwPause);
        WentOn(NotifyReady(s), n, reopened);
      case Resume(n, reopened) => WentOn(s, n, reopened);
      case PutOnce => PutAdds(s, s.Pending(), capacity);
      case PutAgain => PutAdds(s, s.Pending(), capacity);
      case _ =>
    }
  }

  /** Still paused, and nothing taken from the buffer. */
  ghost predicate Held<T(!new)>(capacity: nat, s: State<T>, t: State<T>) {
    t.paused && !t.stopped && |t.fifo| <= capacity && s.fifo <= t.fifo
  }

  lemma HeldAsIs<T(!new)>(capacity: nat, s: State<T>, t: State<T>)
    requires |s.fifo| <= capacity && s.paused && !s.stopped
    ensures t.paused && !t.stopped && t.fifo == s.fifo ==> Held(capacity, s, t)
  {
  }

  lemma Notified<T(!new)>(s: State<T>)
    ensures var t := NotifyReady(s);
      && t == s.(putter := t.putter, control := t.control) && t.Pending() == s.Pending()
      && !t.putter.PutAsleep? && !t.control.StopAsleep? && !t.control.WaitAsleep?
      && (s.control.StopAsleep? ==> t.control.NoControl?) && (s.control.WaitAsleep? ==> t.control.Waiting?)
  {
  }

  lemma FellAsleep<T(!new)>(s: State<T>, canHwPause: bool)
    ensures var t := FallAsleep(s, canHwPause);
      && t.paused == s.paused && t.stopped == s.stopped && t.fifo == s.fifo
      && t.putter == s.putter && t.control == s.control
  {
  }

  lemma WentOn<T(!new)>(s: State<T>, n: nat, reopened: bool)
    ensures var t := GoOn(s, n, reopened);
      && t.paused == s.paused && t.stopped == s.stopped && t.putter == s.putter && t.control == s.control
      && |t.fifo| <= |s.fifo| && (s.paused ==> t.fifo == s.fifo)
  {
  }

  lemma PutAdds<T(!new)>(s: State<T>, data: seq<T>, capacity: nat)
    requires |s.fifo| <= capacity
    ensures s.paused && !s.stopped ==> Held(capacity, s, PutMore(s, data, capacity))
  {
    hide NotifyPlay;
  }

  lemma {:induction false} PausedRun<T(!new)>(capacity: nat, s: State<T>, acts: seq<Action<T>>, t: State<T>)
    requires |s.fifo| <= capacity && s.paused && !s.stopped && Leads(capacity, s, acts, t)
    requires forall i :: 0 <= i < |acts| ==> !acts[i].Unpause? && !acts[i].Stop? && !acts[i].Reset?
    ensures t.paused && !t.stopped && t.sent + t.Rest() == s.sent + s.Rest() && s.fifo <= t.fifo
    decreases |acts|
  {
    hide Step, Enabled;
    if acts != [] {
      PausedStep(capacity, s, acts[0]);
      PausedRun(capacity, Step(capacity, s, acts[0]), acts[1..], t);
    }
  }

  /** From a pause on, whatever the threads do, until someone unpauses, stops or resets: no byte
      leaves the buffer for the device, and the buffer is only added to. */
  lemma PauseHolds<T(!new)>(capacity: nat, s: State<T>, acts: seq<Action<T>>, t: State<T>)
    requires |s.fifo| <= capacity && Enabled(s, Pause) && !s.stopped
    requires Leads(capacity, Step(capacity, s, Pause), acts, t)
    requires forall i :: 0 <= i < |acts| ==> !acts[i].Unpause? && !acts[i].Stop? && !acts[i].Reset?
    ensures t.paused && t.sent + t.Rest() == s.sent + s.Rest() && s.fifo <= t.fifo
  {
    hide Step, Leads;
    PausePauses(capacity, s);
    PausedRun(capacity, Step(capacity, s, Pause), acts, t);
  }

  /** The device thread then corks the stream, or closes the device if it cannot, and sleeps. */
  lemma PausedDeviceRests<T(!new)>(capacity: nat, s: State<T>, canHwPause: bool, n: nat, reopened: bool)
    requires |s.fifo| <= capacity && s.reader.Called? && s.paused && !s.exit
    ensures var t := Step(capacity, s, AfterCallback(canHwPause, n, reopened));
      && t.reader.Asleep? && t.readWaiting && (t.hwPaused || t.devClosed) && t.fifo == s.fifo
      && (s.hwPaused || s.devClosed ==> t.hwPaused == s.hwPaused && t.devClosed == s.devClosed)
      && (!s.hwPaused && !s.devClosed ==> (t.hwPaused <==> canHwPause) && (t.devClosed <==> !canHwPause))
  {
  }

  /** A thread that sleeps for another reason leaves the device as it is. */
  lemma UnpausedDeviceStays<T(!new)>(capacity: nat, s: State<T>, canHwPause: bool, n: nat, reopened: bool)
    requires |s.fifo| <= capacity && s.reader.Called? && !s.paused && !s.exit && (|s.fifo| == 0 || s.stopped)
    ensures var t := Step(capacity, s, AfterCallback(canHwPause, n, reopened));
      t.reader.Asleep? && t.readWaiting && t.hwPaused == s.hwPaused && t.devClosed == s.devClosed && t.fifo == s.fifo
  {
  }

  lemma UnpauseWakes<T(!new)>(capacity: nat, s: State<T>)
    requires |s.fifo| <= capacity && Enabled(s, Unpause)
    ensures var t := Step(capacity, s, Unpause);
      && !t.paused && !t.reader.Asleep? && (!s.reader.Asleep? ==> t.reader == s.reader) && t.stopped == s.stopped
      && t.fifo == s.fifo && t.Rest() == s.Rest() && t.sent == s.sent && t.log == s.log
  {
  }

  // ---------- playing ----------

  /** The device thread past its callback or its sleep: neither paused nor stopped, with bytes in
      the buffer and a device that is open, corked or can be opened again, it takes as many bytes
      as it may, from the front, and the device is open and not corked. */
  lemma TakesBytes<T(!new)>(capacity: nat, s: State<T>, a: Action<T>, n: nat, reopened: bool)
    requires |s.fifo| <= capacity && Enabled(s, a) && (a == Resume(n, reopened) || a.AfterCallback?)
    requires a.AfterCallback? ==> a.n == n && a.reopened == reopened
    requires !s.paused && !s.stopped && |s.fifo| > 0 && (s.devClosed ==> reopened) && !(s.hwPaused && s.devClosed)
    ensures var t := Step(capacity, s, a); var k := if n < |s.fifo| then n else |s.fifo|;
      && t.reader == Sending(s.fifo[..k]) && t.fifo == s.fifo[k..] && t.sent == s.sent
      && !t.devClosed && !t.hwPaused && !t.readWaiting
  {
  }

  /** Woken while there is nothing to play or nothing may be played, it goes round without a byte. */
  lemma TakesNone<T(!new)>(capacity: nat, s: State<T>, n: nat, reopened: bool)
    requires |s.fifo| <= capacity && s.reader.Woken? && (|s.fifo| == 0 || s.paused || s.stopped)
    ensures var t := Step(capacity, s, Resume(n, reopened));
      && t.reader == (if |s.fifo| == 0 && s.exit then Gone else Top) && t.fifo == s.fifo && t.sent == s.sent
      && !t.readWaiting && (t.hwPaused <==> s.hwPaused && s.paused)
      && (t.devClosed <==> s.devClosed && (s.hwPaused || s.paused || !reopened))
  {
  }

  /** While the device cannot be opened again it gets nothing. */
  lemma ClosedTakesNothing<T(!new)>(capacity: nat, s: State<T>, a: Action<T>, n: nat)
    requires |s.fifo| <= capacity && Enabled(s, a) && (a == Resume(n, false) || a.AfterCallback?)
    requires a.AfterCallback? ==> !a.reopened
    requires s.devClosed
    ensures var t := Step(capacity, s, a);
      t.devClosed && t.fifo == s.fifo && !t.reader.Sending? && t.Rest() == [] && t.sent == s.sent
  {
  }

  /** Bytes are taken from the buffer only for a device that is open and not corked, neither paused
      nor stopped. */
  lemma OnlyOpenDevicesPlay<T(!new)>(capacity: nat, s: State<T>, a: Action<T>)
    requires Inv(capacity, s) && Enabled(s, a)
    requires var t := Step(capacity, s, a); |t.sent + t.Rest()| > |s.sent + s.Rest()|
    ensures var t := Step(capacity, s, a);
      !t.devClosed && !t.hwPaused && !s.paused && !s.stopped && (a.Resume? || a.AfterCallback?)
  {
    hide Kept, Taken, PutMore;
    if a.PutOnce? || a.PutAgain? {
      PutHolds(s, capacity);
    } else if a.Send? {
      MoveOver(s.sent, s.reader.rest, a.k);
    }
  }

  /** What it has taken it sends, in order, and then goes round. */
  lemma SendsInOrder<T(!new)>(capacity: nat, s: State<T>, k: nat)
    requires |s.fifo| <= capacity && Enabled(s, Send(k))
    ensures var t := Step(capacity, s, Send(k));
      && t.sent == s.sent + s.reader.rest[..k] && t.Rest() == s.reader.rest[k..] && t.fifo == s.fifo
      && (t.reader.Top? <==> k == |s.reader.rest|) && (t.reader.Top? || t.reader.Sending?)
  {
  }

  /** The head of the loop: a stopped buffer is emptied, and a device to be reset is, if open. */
  lemma TopEmptiesStopped<T(!new)>(capacity: nat, s: State<T>)
    requires |s.fifo| <= capacity && Enabled(s, LoopTop)
    ensures var t := Step(capacity, s, LoopTop);
      && t.reader.Called? && t.fifo == (if s.stopped then [] else s.fifo) && t.sent == s.sent
      && (t.resetDev <==> s.resetDev && s.devClosed) && t.paused == s.paused && t.stopped == s.stopped
  {
  }

  /** Past the callback everyone who waits for the buffer has been woken. */
  lemma CallbackWakes<T(!new)>(capacity: nat, s: State<T>, canHwPause: bool, n: nat, reopened: bool)
    requires |s.fifo| <= capacity && s.reader.Called?
    ensures var t := Step(capacity, s, AfterCallback(canHwPause, n, reopened));
      && !t.putter.PutAsleep? && !t.control.StopAsleep? && !t.control.WaitAsleep? && t.Pending() == s.Pending()
      && (s.control.StopAsleep? ==> t.control.NoControl?) && (s.control.WaitAsleep? ==> t.control.Waiting?)
  {
    hide NotifyReady, FallAsleep, GoOn;
    Notified(s);
    FellAsleep(NotifyReady(s), canHwPause);
    WentOn(NotifyReady(s), n, reopened);
  }

  /** Between its steps the device thread never stands still but in its sleep and after its exit. */
  lemma DeviceThreadMoves<T(!new)>(s: State<T>)
    requires !s.reader.Asleep? && !s.reader.Gone?
    ensures || Enabled(s, LoopTop) || Enabled(s, AfterCallback(false, 0, false)) || Enabled(s, Resume(0, false))
            || (s.reader.Sending? && Enabled(s, Send(|s.reader.rest|)))
  {
  }

  // ---------- putting ----------

  /** A put that is not refused takes as much as there is space for, is over when all is taken, and
      wakes the device thread if it took anything. */
  lemma PutTakesMost<T(!new)>(capacity: nat, s: State<T>, a: Action<T>)
    requires |s.fifo| <= capacity && Enabled(s, a) && (a.PutOnce? || a.PutAgain?) && !s.stopped
    requires a.PutOnce? ==> |s.fifo| < capacity
    ensures var t, data := Step(capacity, s, a), s.putter.data;
      && s.fifo <= t.fifo && t.fifo[|s.fifo|..] + t.Pending() == data && t.given == s.given
      && (t.Pending() == [] || |t.fifo| == capacity)
      && (t.putter.PutIdle? <==> |t.fifo| == |s.fifo| + |data|) && !t.putter.PutAsleep?
      && (t.fifo != s.fifo ==> !t.reader.Asleep?) && t.Rest() == s.Rest() && t.sent == s.sent
  {
  }

  /** A full buffer makes it wait. */
  lemma PutWaits<T(!new)>(capacity: nat, s: State<T>)
    requires |s.fifo| == capacity && Enabled(s, PutOnce) && !s.stopped
    ensures Step(capacity, s, PutOnce) == s.(putter := PutAsleep(s.putter.data))
  {
  }

  /** Whoever waits can wake without a reason: a put tries again, a stop is over. */
  lemma WaitersWake<T(!new)>(capacity: nat, s: State<T>)
    requires |s.fifo| <= capacity
    ensures s.putter.PutAsleep? ==>
              Enabled(s, WakePutter) && Step(capacity, s, WakePutter) == s.(putter := PutWoken(s.Pending()))
    ensures s.control.StopAsleep? ==>
              Enabled(s, WakeControl) && Step(capacity, s, WakeControl) == s.(control := NoControl)
    ensures s.control.WaitAsleep? ==>
              Enabled(s, WakeControl) && Step(capacity, s, WakeControl) == s.(control := Waiting)
  {
  }

  /** A stopped buffer refuses. */
  lemma StoppedRefuses<T(!new)>(capacity: nat, s: State<T>, a: Action<T>)
    requires |s.fifo| <= capacity && Enabled(s, a) && (a.PutOnce? || a.PutAgain?) && s.stopped
    ensures var t := Step(capacity, s, a);
      t.putter.PutIdle? && t.fifo == s.fifo && t.log == s.log && t.reader == s.reader && t.sent == s.sent
  {
  }

  // ---------- stopping and resetting ----------

  lemma StopStops<T(!new)>(capacity: nat, s: State<T>)
    requires |s.fifo| <= capacity && Enabled(s, Stop)
    ensures var t := Step(capacity, s, Stop);
      && t.stopped && !t.paused && t.resetDev && t.control.StopAsleep? && !t.reader.Asleep?
      && t.fifo == s.fifo && t.Rest() == s.Rest() && t.sent == s.sent && t.log == s.log && t.putter == s.putter
  {
  }

  lemma StoppedStep<T(!new)>(capacity: nat, s: State<T>, a: Action<T>)
    requires Inv(capacity, s) && Enabled(s, a) && s.stopped && !a.Reset? && capacity > 0
    ensures var t := Step(capacity, s, a);
      && t.stopped && t.sent + t.Rest() == s.sent + s.Rest() && Taken(t.log) == Taken(s.log)
      && (s.fifo == t.fifo || |t.fifo| == 0)
  {
    hide Kept, Taken;
    NothingLeavesWhilePaused(capacity, s, a);
    TakenAppend(s.log, Cleared(|s.fifo|));
  }

  lemma {:induction false} StoppedRun<T(!new)>(capacity: nat, s: State<T>, acts: seq<Action<T>>, t: State<T>)
    requires Inv(capacity, s) && s.stopped && Leads(capacity, s, acts, t) && Reset !in acts && capacity > 0
    ensures t.stopped && t.sent + t.Rest() == s.sent + s.Rest() && Taken(t.log) == Taken(s.log)
    ensures s.fifo == t.fifo || |t.fifo| == 0
    decreases |acts|
  {
    hide Step, Enabled, Inv, Taken;
    if acts != [] {
      assert acts[0] in acts;
      StoppedStep(capacity, s, acts[0]);
      StepKeeps(capacity, s, acts[0]);
      StoppedRun(capacity, Step(capacity, s, acts[0]), acts[1..], t);
    }
  }

  /** From a stop on, whatever the threads do, until the reset: nothing more goes to the device, and
      nothing is accepted. */
  lemma StopHolds<T(!new)>(capacity: nat, s: State<T>, acts: seq<Action<T>>, t: State<T>)
    requires Reachable(capacity, s) && Enabled(s, Stop) && capacity > 0
    requires |s.fifo| <= capacity && Leads(capacity, Step(capacity, s, Stop), acts, t) && Reset !in acts
    ensures t.stopped && t.sent + t.Rest() == s.sent + s.Rest() && Taken(t.log) == Taken(s.log)
    ensures s.fifo == t.fifo || |t.fifo| == 0
  {
    hide Step, Leads, Inv, IsRun;
    var r :| IsRun(capacity, r, s);
    RunKeeps(capacity, r, s);
    StopStops(capacity, s);
    StepKeeps(capacity, s, Stop);
    StoppedRun(capacity, Step(capacity, s, Stop), acts, t);
  }

  lemma ResetReady<T(!new)>(capacity: nat, s: State<T>)
    requires |s.fifo| <= capacity && Enabled(s, Reset)
    ensures var t := Step(capacity, s, Reset);
      && |t.fifo| == 0 && !t.stopped && !t.paused && !t.resetDev
      && t.reader == s.reader && t.sent == s.sent && t.putter == s.putter && t.control == s.control
      && t.hwPaused == s.hwPaused && t.devClosed == s.devClosed
  {
  }

  // ---------- waiting and leaving ----------

  /** wait is over exactly when the device thread sleeps. */
  lemma WaitEnds<T(!new)>(capacity: nat, s: State<T>)
    requires Inv(capacity, s) && Enabled(s, WaitOnce)
    ensures var t := Step(capacity, s, WaitOnce);
      && (t.control.NoControl? <==> s.reader.Asleep? || s.reader.Woken?)
      && (!t.control.NoControl? ==> t.control.WaitAsleep?) && t == s.(control := t.control)
  {
    hide Kept, Taken;
  }

  /** When the device thread has gone, everything that was accepted and not discarded was sent. */
  lemma GoneHasPlayedAll<T(!new)>(capacity: nat, s: State<T>)
    requires Reachable(capacity, s) && capacity > 0 && s.reader.Gone?
    ensures s.exit && s.sent == Kept(s.log)
  {
    hide Kept, Taken;
    var r :| IsRun(capacity, r, s);
    RunKeeps(capacity, r, s);
    assert s.sent + s.Rest() + s.fifo == s.sent;
  }

  /** It goes when it finds the buffer empty after the order to leave, asleep or not. */
  lemma LeavesWhenEmpty<T(!new)>(capacity: nat, s: State<T>, a: Action<T>)
    requires |s.fifo| == 0 && s.exit && Enabled(s, a) && (a.Resume? || a.AfterCallback?)
    ensures Step(capacity, s, a).reader.Gone?
  {
  }

  lemma ExitWakes<T(!new)>(capacity: nat, s: State<T>)
    requires |s.fifo| <= capacity && Enabled(s, Exit)
    ensures var t := Step(capacity, s, Exit);
      t.exit && !t.reader.Asleep? && t.fifo == s.fifo && t.Rest() == s.Rest() && t.sent == s.sent
  {
  }

  // ---------- a run ----------

  lemma LongerRun<T(!new)>(capacity: nat, r: Run<T>, s: State<T>, a: Action<T>) returns (k: Run<T>)
    requires IsRun(capacity, r, s) && |s.fifo| <= capacity && Enabled(s, a)
    ensures k == Then(r, a) && IsRun(capacity, k, Step(capacity, s, a))
  {
    k := Then(r, a);
  }

  lemma JustOpened<T(!new)>(capacity: nat)
    ensures IsRun<T>(capacity, Opened, Init())
  {
  }

  lemma RunReaches<T(!new)>(capacity: nat, r: Run<T>, s: State<T>)
    requires IsRun(capacity, r, s)
    ensures Reachable(capacity, s)
  {
  }

  /** All data that fits can be put and gets to the device, also through a pause that closes it. */
  lemma BytesGetThrough<T(!new)>(capacity: nat, data: seq<T>)
    requires 0 < |data| <= capacity
    ensures exists s: State<T> :: Reachable(capacity, s) && s.sent == data && |s.fifo| == 0 && s.reader.Top?
  {
    hide IsRun;
    var s0 := Init<T>();
    JustOpened<T>(capacity);
    var r: Run<T> := LongerRun(capacity, Opened, s0, BeginPut(data));
    assert s0.given + data == data && s0.fifo + data == data && data[..|data|] == data;
    var s1 := s0.(putter := Putting(data), given := data);
    r := LongerRun(capacity, r, s1, Pause);
    var s2 := s1.(paused := true);
    r := LongerRun(capacity, r, s2, PutOnce);
    var s3 := s2.(putter := PutIdle, fifo := data, log := [Took(data)]);
    assert s2.log + [Took(data)] == [Took(data)];
    r := LongerRun(capacity, r, s3, LoopTop);
    var s4 := s3.(reader := Called);
    r := LongerRun(capacity, r, s4, AfterCallback(false, 0, false));
    var s5 := s4.(reader := Asleep, readWaiting := true, devClosed := true);
    r := LongerRun(capacity, r, s5, Unpause);
    var s6 := s5.(paused := false, reader := Woken);
    r := LongerRun(capacity, r, s6, Resume(|data|, true));
    assert data[|data|..] == [];
    var s7 := s6.(reader := Sending(data), fifo := [], readWaiting := false, devClosed := false);
    r := LongerRun(capacity, r, s7, Send(|data|));
    assert s7.sent + data == data;
    var s8 := s7.(sent := data, reader := Top);
    RunReaches(capacity, r, s8);
  }
}
