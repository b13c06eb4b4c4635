/** The decode loop of src/library/player.cpp over the output buffer, one file after another,
    as a step system. A byte carries, for the specification, the sound parameters that it was
    decoded with. The decoder may return any chunks with any parameters. */
module Player {
  import opened Bytes
  import B = OutBuf

  datatype Params = Params(rate: nat, channels: nat, format: nat)

  const NO_PARAMS: Params := Params(0, 0, 0)

  datatype Frame = Frame(byte: Byte, params: Params)

  type Out = B.State<Frame>

  datatype End = Played | Stopped | Failed

  datatype Pc =
    | Idle                          // between two calls of play_file
    | PreOpening(data: seq<Frame>)  // about to open the device for a precached file
    | PrePutting                    // in audio_send_buf for the precached bytes
    | Looping                       // the head of the loop
    | Choosing                      // lines 453-536
    | Putting                       // in audio_send_buf, line 515
    | SeekStopping                  // in out_buf->stop after a successful seek
    | StopStopping                  // in out_buf->stop on request
    | SwitchWaiting                 // in out_buf->wait, line 525
    | Leaving(end: End)             // past the loop, before the last out_buf->wait
    | Closing(end: End)             // in that wait, line 557

  /** `buf` is what was decoded and not yet put; `newParams` belongs to it. `device` is
      last_params of audio_open. For the specification, `start` is what the buffer had kept at
      the last successful seek or the start of the file, `produced` is the decoder's output
      since then, and `ended` whether it has returned nothing since then. */
  datatype State = State(out: Out, pc: Pc, params: Params, newParams: Params, change: bool, eof: bool,
                         buf: seq<Frame>, device: Params, start: seq<Frame>, produced: seq<Frame>, ended: bool)

  datatype Action =
    | Out(a: B.Action<Frame>)          // the device thread, the user's pauses, or a buffer call going on
    | Begin(pre: seq<Frame>, p: Params)   // play_file; `pre` are the precached bytes, if any
    | PreOpen(ok: bool)
    | PrePutDone
    | Decode(chunk: seq<Frame>, p: Params)
    | Wait                             // lines 435-451, without decoding
    | PutChunk
    | PutDone
    | SeekRequest(ok: bool)
    | SeekDone
    | StopRequest
    | StopDone
    | Switch
    | SwitchOpen(ok: bool)
    | PlayedAll
    | Again                            // no branch taken
    | Leave
    | Close

  predicate Tagged(data: seq<Frame>, p: Params) {
    forall i :: 0 <= i < |data| ==> data[i].params == p
  }

  function Init(): State {
    State(B.Init(), Idle, NO_PARAMS, NO_PARAMS, false, false, [], NO_PARAMS, [], [], false)
  }

  /** The steps of the buffer that the decoding thread does not begin. */
  predicate OfBuffer(a: B.Action<Frame>) {
    !a.BeginPut? && !a.Stop? && !a.Reset? && !a.BeginWait? && !a.Exit?
  }

  predicate Enabled(capacity: nat, s: State, a: Action) {
    && |s.out.fifo| <= capacity
    && match a
       case Out(b) => OfBuffer(b) && B.Enabled(s.out, b)
       case Begin(pre, p) => s.pc.Idle? && Tagged(pre, p) && p != NO_PARAMS && B.Enabled(s.out, B.Reset)
       case PreOpen(_) => s.pc.PreOpening? && B.Enabled(s.out, B.BeginPut(s.pc.data))
       case PrePutDone => s.pc.PrePutting? && s.out.putter.PutIdle?
       case Decode(chunk, p) => s.pc.Looping? && !s.eof && s.buf == [] && Tagged(chunk, p) && p != NO_PARAMS
       case Wait => s.pc.Looping? && (s.eof || s.buf != [])
       case PutChunk =>
         && s.pc.Choosing? && !s.eof && |s.buf| <= capacity - |s.out.fifo| && !s.change
         && B.Enabled(s.out, B.BeginPut(s.buf))
       case PutDone => s.pc.Putting? && s.out.putter.PutIdle?
       case SeekRequest(ok) => s.pc.Choosing? && B.Enabled(s.out, B.Stop)
       case SeekDone => s.pc.SeekStopping? && s.out.control.NoControl? && B.Enabled(s.out, B.Reset)
       case StopRequest => s.pc.Choosing? && B.Enabled(s.out, B.Stop)
       case StopDone => s.pc.StopStopping? && s.out.control.NoControl?
       case Switch => s.pc.Choosing? && !s.eof && s.change && s.out.fifo == [] && B.Enabled(s.out, B.BeginWait)
       case SwitchOpen(_) => s.pc.SwitchWaiting? && s.out.control.NoControl?
       case PlayedAll => s.pc.Choosing? && s.eof && s.out.fifo == []
       case Again => s.pc.Choosing?
       case Leave => s.pc.Leaving? && B.Enabled(s.out, B.BeginWait)
       case Close => s.pc.Closing? && s.out.control.NoControl?
  }

  function Step(capacity: nat, s: State, a: Action): State
    requires Enabled(capacity, s, a)
  {
    match a
    case Out(b) => s.(out := B.Step(capacity, s.out, b))
    case Begin(pre, p) =>
      var out := B.Step(capacity, s.out, B.Reset);
      s.(out := out, pc := if pre == [] then Looping else PreOpening(pre),
         params := if pre == [] then NO_PARAMS else p, change := false, eof := false, buf := [],
         start := out.sent + out.Rest(), produced := pre, ended := false)
    case PreOpen(ok) =>
      if ok then s.(device := s.params, out := B.Step(capacity, s.out, B.BeginPut(s.pc.data)), pc := PrePutting)
      else s.(device := s.params, pc := Idle)
    case PrePutDone => s.(pc := Looping)
    case Decode(chunk, p) =>
      if chunk == [] then s.(eof := true, pc := Choosing, ended := true)
      else
        s.(buf := chunk, newParams := p, change := s.change || p != s.params,
           produced := s.produced + chunk, pc := Choosing)
    case Wait => s.(pc := Choosing)
    case PutChunk => s.(out := B.Step(capacity, s.out, B.BeginPut(s.buf)), pc := Putting)
    case PutDone => s.(buf := [], pc := Looping)
    case SeekRequest(ok) =>
      if ok then s.(out := B.Step(capacity, s.out, B.Stop), pc := SeekStopping) else s.(pc := Looping)
    case SeekDone =>
      var out := B.Step(capacity, s.out, B.Reset);
      s.(out := out, eof := false, buf := [], start := out.sent + out.Rest(), produced := [], pc := Looping,
         ended := false)
    case StopRequest => s.(out := B.Step(capacity, s.out, B.Stop), pc := StopStopping)
    case StopDone => s.(pc := Leaving(Stopped))
    case Switch =>
      s.(params := s.newParams, change := false, out := B.Step(capacity, s.out, B.BeginWait), pc := SwitchWaiting)
    case SwitchOpen(ok) => s.(device := s.params, pc := if ok then Looping else Leaving(Failed))
    case PlayedAll => s.(pc := Leaving(Played))
    case Again => s.(pc := Looping)
    case Leave => s.(out := B.Step(capacity, s.out, B.BeginWait), pc := Closing(s.pc.end))
    case Close => s.(pc := Idle)
  }

  datatype Run = Started | Then(before: Run, last: Action)

  ghost predicate IsRun(capacity: nat, r: Run, s: State) {
    match r
    case Started => s == Init()
    case Then(before, a) =>
      exists t :: IsRun(capacity, before, t) && Enabled(capacity, t, a) && s == Step(capacity, t, a)
  }

  ghost predicate Reachable(capacity: nat, s: State) {
    exists r :: IsRun(capacity, r, s)
  }

  // ---------- the invariant ----------

  /** Every byte on its way has the device's parameters. */
  ghost predicate InTune(s: State) {
    Tagged(s.out.Rest(), s.device) && Tagged(s.out.fifo, s.device) && Tagged(s.out.Pending(), s.device)
  }

  /** Which buffer calls each state may be in. */
  ghost predicate Calls(s: State) {
    && !s.out.exit
    && (!s.pc.PrePutting? && !s.pc.Putting? ==> s.out.putter.PutIdle?)
    && (s.out.control.StopAsleep? ==> s.pc.SeekStopping? || s.pc.StopStopping?)
    && (s.out.control.Waiting? || s.out.control.WaitAsleep? ==> s.pc.SwitchWaiting? || s.pc.Closing?)
    && (s.out.stopped ==>
          || s.pc.SeekStopping? || s.pc.StopStopping? || s.pc.Idle?
          || s.pc == Leaving(Stopped) || s.pc == Closing(Stopped))
    && (s.pc.StopStopping? || s.pc == Leaving(Stopped) || s.pc == Closing(Stopped) ==> s.out.stopped)
  }

  /** Where nothing is on its way to the device, and stays so. */
  ghost predicate Quiet(s: State) {
    && (s.pc.Idle? || s.pc.PreOpening? ==> s.out.Rest() == [] && (s.out.fifo == [] || s.out.stopped))
    && (s.pc.SwitchWaiting? ==> s.out.fifo == [] && (s.out.control.NoControl? ==> s.out.Rest() == []))
    && (s.pc.Leaving? || s.pc.Closing? ==> s.out.fifo == [] || s.out.stopped)
    && (s.pc.Closing? && s.out.control.NoControl? ==> s.out.Rest() == [])
  }

  /** What the loop's variables say about each other. */
  ghost predicate Loop(s: State) {
    && Tagged(s.buf, s.newParams) && (s.buf != [] ==> s.newParams != NO_PARAMS)
    && (s.eof ==> s.buf == []) && s.eof == s.ended
    && (s.pc == Leaving(Played) || s.pc == Closing(Played) ==> s.eof)
    && (s.pc.Choosing? && !s.eof ==> s.buf != [])
    && (s.buf != [] && !s.change && !s.pc.Idle? ==> s.newParams == s.params)
    && (s.pc.Looping? || s.pc.Choosing? || s.pc.Putting? || s.pc.PrePutting? || s.pc.SeekStopping? ==>
          s.params == NO_PARAMS || s.params == s.device)
    && (s.pc.PreOpening? ==>
          Tagged(s.pc.data, s.params) && s.buf == [] && s.produced == s.pc.data && s.params != NO_PARAMS)
    && (s.pc.PrePutting? ==> s.buf == [])
    && (s.pc == Leaving(Played) || s.pc == Closing(Played) ==> s.buf == [])
  }

  /** The bytes since the last seek: kept by the buffer, being put, and waiting in `buf`. */
  ghost predicate Delivery(s: State) {
    && !s.pc.Idle? && !s.pc.PreOpening? && !s.pc.SeekStopping? && !s.pc.StopStopping?
    && s.pc != Leaving(Stopped) && s.pc != Closing(Stopped) ==>
      B.Kept(s.out.log) + s.out.Pending() + (if s.pc.Putting? then [] else s.buf) == s.start + s.produced
  }

  ghost predicate Inv(capacity: nat, s: State) {
    B.Inv(capacity, s.out) && Calls(s) && Quiet(s) && Loop(s) && InTune(s) && Delivery(s)
    && (s.pc.PreOpening? ==> B.Kept(s.out.log) == s.start)
  }

  // ---------- steps of the buffer ----------

  /** What no step of the buffer that the decoding thread has not begun can do. */
  ghost predicate Within(o: Out, t: Out) {
    && t.stopped == o.stopped && t.exit == o.exit
    && (o.putter.PutIdle? ==> t.putter.PutIdle?)
    && (o.control.NoControl? ==> t.control.NoControl?)
    && (o.control.StopAsleep? ==> t.control.StopAsleep? || t.control.NoControl?)
    && (o.control.Waiting? || o.control.WaitAsleep? ==> !t.control.StopAsleep?)
    && (o.putter.PutIdle? && o.fifo == [] ==> t.fifo == [])
    && (o.Rest() == [] && (o.fifo == [] || o.stopped) ==> t.Rest() == [])
    && ((o.control.Waiting? || o.control.WaitAsleep?) && t.control.NoControl? ==> t.Rest() == [])
  }

  ghost predicate AllTagged(o: Out, p: Params) {
    Tagged(o.Rest(), p) && Tagged(o.fifo, p) && Tagged(o.Pending(), p)
  }

  lemma TopWithin(o: Out, p: Params)
    requires o.reader.Top?
    ensures Within(o, B.TopStep(o)) && (AllTagged(o, p) ==> AllTagged(B.TopStep(o), p))
  {
  }

  lemma NotifyWithin(o: Out, p: Params)
    ensures var t := B.NotifyReady(o);
      && t.stopped == o.stopped && t.exit == o.exit && t.fifo == o.fifo
      && t.Rest() == o.Rest() && t.Pending() == o.Pending()
      && t.reader == o.reader && t.paused == o.paused && t.log == o.log
      && t.putter.PutIdle? == o.putter.PutIdle?
      && (o.control.NoControl? ==> t.control.NoControl?)
      && (o.control.StopAsleep? ==> t.control.NoControl?)
      && (o.control.Waiting? || o.control.WaitAsleep? ==> t.control.Waiting?)
  {
  }

  lemma FallWithin(o: Out, canHwPause: bool, p: Params)
    requires o.reader.Called?
    ensures Within(o, B.FallAsleep(o, canHwPause)) && B.FallAsleep(o, canHwPause).control == o.control
    ensures AllTagged(o, p) ==> AllTagged(B.FallAsleep(o, canHwPause), p)
  {
  }

  lemma GoOnWithin(o: Out, n: nat, reopened: bool, p: Params)
    requires !o.reader.Sending?
    ensures Within(o, B.GoOn(o, n, reopened)) && B.GoOn(o, n, reopened).control == o.control
    ensures AllTagged(o, p) ==> AllTagged(B.GoOn(o, n, reopened), p)
  {
  }

  lemma PutWithin(o: Out, capacity: nat, p: Params)
    requires |o.fifo| <= capacity && !o.putter.PutIdle?
    ensures Within(o, B.PutMore(o, o.putter.data, capacity))
    ensures AllTagged(o, p) ==> AllTagged(B.PutMore(o, o.putter.data, capacity), p)
  {
  }

  lemma OtherWithin(capacity: nat, o: Out, b: B.Action<Frame>, p: Params)
    requires B.Inv(capacity, o) && OfBuffer(b) && B.Enabled(o, b)
    requires b.WakeReader? || b.Send? || b.WakePutter? || b.Pause? || b.Unpause? || b.WaitOnce? || b.WakeControl?
             || (b.PutOnce? && |o.fifo| == capacity && !o.stopped)
    ensures Within(o, B.Step(capacity, o, b)) && (AllTagged(o, p) ==> AllTagged(B.Step(capacity, o, b), p))
  {
    hide B.Kept, B.Taken, B.Conserved, B.TopStep, B.GoOn, B.PutMore, B.FallAsleep, B.NotifyReady;
  }

  lemma BufferWithin(capacity: nat, o: Out, b: B.Action<Frame>, p: Params)
    requires B.Inv(capacity, o) && OfBuffer(b) && B.Enabled(o, b)
    ensures Within(o, B.Step(capacity, o, b)) && (AllTagged(o, p) ==> AllTagged(B.Step(capacity, o, b), p))
  {
    hide B.Conserved, B.TopStep, B.GoOn, B.PutMore, B.FallAsleep, B.NotifyReady, Within, AllTagged;
    match b
    case LoopTop => TopWithin(o, p);
    case AfterCallback(canHwPause, n, reopened) => CallbackWithin(o, canHwPause, n, reopened, p);
    case Resume(n, reopened) => GoOnWithin(o, n, reopened, p);
    case PutAgain => PutWithin(o, capacity, p);
    case PutOnce =>
      if |o.fifo| == capacity && !o.stopped {
        OtherWithin(capacity, o, b, p);
      } else {
        PutWithin(o, capacity, p);
      }
    case _ => OtherWithin(capacity, o, b, p);
  }

  lemma CallbackWithin(o: Out, canHwPause: bool, n: nat, reopened: bool, p: Params)
    requires o.reader.Called?
    ensures var next := B.NotifyReady(o);
      var t := if B.MustSleep(o) then B.FallAsleep(next, canHwPause) else B.GoOn(next, n, reopened);
      Within(o, t) && (AllTagged(o, p) ==> AllTagged(t, p))
  {
    hide B.GoOn, B.FallAsleep, B.NotifyReady, Tagged;
    NotifyWithin(o, p);
    FallWithin(B.NotifyReady(o), canHwPause, p);
    GoOnWithin(B.NotifyReady(o), n, reopened, p);
  }

  lemma BufferFlows(capacity: nat, o: Out, b: B.Action<Frame>)
    requires B.Inv(capacity, o) && OfBuffer(b) && B.Enabled(o, b) && !o.stopped
    ensures var t := B.Step(capacity, o, b);
      B.Kept(t.log) + t.Pending() == B.Kept(o.log) + o.Pending()
  {
    hide B.Kept, B.Taken, B.Conserved;
    if b.PutOnce? || b.PutAgain? {
      PutFlows(capacity, o);
    }
  }

  lemma PutFlows(capacity: nat, o: Out)
    requires |o.fifo| <= capacity && !o.putter.PutIdle? && !o.stopped
    ensures var t := B.PutMore(o, o.putter.data, capacity);
      B.Kept(t.log) + t.Pending() == B.Kept(o.log) + o.Pending()
  {
    hide B.Kept;
    var data := o.putter.data;
    var k := if |data| < capacity - |o.fifo| then |data| else capacity - |o.fifo|;
    B.KeptTook(o.log, data[..k]);
    B.MoveOver(B.Kept(o.log), data, k);
  }

  // ---------- every step keeps the invariant ----------

  lemma OutKeeps(capacity: nat, s: State, b: B.Action<Frame>)
    requires Inv(capacity, s) && Enabled(capacity, s, Out(b)) && capacity > 0
    ensures Inv(capacity, s.(out := B.Step(capacity, s.out, b)))
  {
    hide B.Inv, B.Step, B.Kept, Tagged, B.Enabled;
    B.StepKeeps(capacity, s.out, b);
    BufferWithin(capacity, s.out, b, s.device);
    if !s.out.stopped {
      BufferFlows(capacity, s.out, b);
      var t := B.Step(capacity, s.out, b);
      if s.out.putter.PutIdle? {
        assert B.Kept(t.log) + [] == B.Kept(t.log) && B.Kept(s.out.log) + [] == B.Kept(s.out.log);
      }
    }
  }

  /** What reset leaves: only what the device thread holds. */
  lemma AfterReset(capacity: nat, o: Out)
    requires B.Inv(capacity, o) && B.Enabled(o, B.Reset) && capacity > 0
    ensures var t := B.Step(capacity, o, B.Reset);
      && B.Inv(capacity, t) && t.fifo == [] && !t.stopped && t.exit == o.exit && t.putter == o.putter
      && t.control == o.control && t.Rest() == o.Rest() && B.Kept(t.log) == t.sent + t.Rest()
  {
    hide B.Kept, B.Taken;
    B.ResetKeeps(capacity, o);
    B.KeptCleared(o.log, o.sent + o.Rest(), o.fifo);
  }

  lemma AfterBeginPut(capacity: nat, o: Out, data: seq<Frame>)
    requires B.Inv(capacity, o) && B.Enabled(o, B.BeginPut(data)) && capacity > 0
    ensures var t := B.Step(capacity, o, B.BeginPut(data));
      && B.Inv(capacity, t) && t.fifo == o.fifo && t.stopped == o.stopped && t.exit == o.exit && t.Pending() == data
      && t.control == o.control && t.Rest() == o.Rest() && t.log == o.log
  {
    hide B.Kept, B.Taken;
    B.BeginPutKeeps(capacity, o, data);
  }

  lemma AfterStop(capacity: nat, o: Out)
    requires B.Inv(capacity, o) && B.Enabled(o, B.Stop) && capacity > 0
    ensures var t := B.Step(capacity, o, B.Stop);
      && B.Inv(capacity, t) && t.fifo == o.fifo && t.stopped && t.exit == o.exit && t.putter == o.putter
      && t.control.StopAsleep? && t.Rest() == o.Rest() && t.log == o.log
  {
    hide B.Kept, B.Taken;
    B.OtherKeeps(capacity, o, B.Stop);
  }

  lemma AfterBeginWait(capacity: nat, o: Out)
    requires B.Inv(capacity, o) && B.Enabled(o, B.BeginWait) && capacity > 0
    ensures B.Step(capacity, o, B.BeginWait) == o.(control := B.Waiting)
    ensures B.Inv(capacity, B.Step(capacity, o, B.BeginWait))
  {
    hide B.Kept, B.Taken;
    B.OtherKeeps(capacity, o, B.BeginWait);
  }

  lemma BeginKeeps(capacity: nat, s: State, pre: seq<Frame>, p: Params)
    requires Inv(capacity, s) && Enabled(capacity, s, Begin(pre, p)) && capacity > 0
    ensures Inv(capacity, Step(capacity, s, Begin(pre, p)))
  {
    hide B.Inv, B.Step, B.Kept;
    AfterReset(capacity, s.out);
    var o := B.Step(capacity, s.out, B.Reset);
    assert B.Kept(o.log) + [] + [] == B.Kept(o.log) && B.Kept(o.log) + [] == B.Kept(o.log);
  }

  lemma PreOpenKeeps(capacity: nat, s: State, ok: bool)
    requires Inv(capacity, s) && Enabled(capacity, s, PreOpen(ok)) && capacity > 0
    ensures Inv(capacity, Step(capacity, s, PreOpen(ok)))
  {
    hide B.Inv, B.Step, B.Kept;
    AfterBeginPut(capacity, s.out, s.pc.data);
    assert B.Kept(s.out.log) + s.pc.data + [] == B.Kept(s.out.log) + s.pc.data;
  }

  lemma PutChunkKeeps(capacity: nat, s: State)
    requires Inv(capacity, s) && Enabled(capacity, s, PutChunk) && capacity > 0
    ensures Inv(capacity, Step(capacity, s, PutChunk))
    ensures Tagged(s.buf, s.device)
  {
    hide B.Inv, B.Step, B.Kept;
    AfterBeginPut(capacity, s.out, s.buf);
    assert B.Kept(s.out.log) + [] == B.Kept(s.out.log);
    assert B.Kept(s.out.log) + s.buf + [] == B.Kept(s.out.log) + s.buf;
  }

  lemma DecodeKeeps(capacity: nat, s: State, chunk: seq<Frame>, p: Params)
    requires Inv(capacity, s) && Enabled(capacity, s, Decode(chunk, p)) && capacity > 0
    ensures Inv(capacity, Step(capacity, s, Decode(chunk, p)))
  {
    hide B.Inv, B.Kept;
    B.MoveOver(s.start, s.produced + chunk, |s.produced|);
    assert (s.produced + chunk)[..|s.produced|] == s.produced && (s.produced + chunk)[|s.produced|..] == chunk;
    assert B.Kept(s.out.log) + s.out.Pending() + [] == B.Kept(s.out.log) + s.out.Pending();
  }

  lemma StopKeeps(capacity: nat, s: State, a: Action)
    requires Inv(capacity, s) && Enabled(capacity, s, a) && capacity > 0 && (a == SeekRequest(true) || a == StopRequest)
    ensures Inv(capacity, Step(capacity, s, a))
  {
    hide B.Inv, B.Step, B.Kept;
    AfterStop(capacity, s.out);
  }

  lemma SeekDoneKeeps(capacity: nat, s: State)
    requires Inv(capacity, s) && Enabled(capacity, s, SeekDone) && capacity > 0
    ensures Inv(capacity, Step(capacity, s, SeekDone))
  {
    hide B.Inv, B.Step, B.Kept;
    AfterReset(capacity, s.out);
    var o := B.Step(capacity, s.out, B.Reset);
    assert B.Kept(o.log) + [] + [] == B.Kept(o.log) && B.Kept(o.log) + [] == B.Kept(o.log);
  }

  lemma WaitKeeps(capacity: nat, s: State, a: Action)
    requires Inv(capacity, s) && Enabled(capacity, s, a) && capacity > 0 && (a.Switch? || a.Leave?)
    ensures Inv(capacity, Step(capacity, s, a))
  {
    hide B.Inv, B.Step, B.Kept;
    AfterBeginWait(capacity, s.out);
  }

  lemma PutDoneKeeps(capacity: nat, s: State, a: Action)
    requires Inv(capacity, s) && Enabled(capacity, s, a) && capacity > 0 && (a.PutDone? || a.PrePutDone?)
    ensures Inv(capacity, Step(capacity, s, a))
  {
    hide B.Inv, B.Step, B.Kept;
  }

  lemma PlainKeeps(capacity: nat, s: State, a: Action)
    requires Inv(capacity, s) && Enabled(capacity, s, a) && capacity > 0
    requires a.Wait? || a == SeekRequest(false) || a.StopDone? || a.SwitchOpen? || a.PlayedAll? || a.Again? || a.Close?
    ensures Inv(capacity, Step(capacity, s, a))
  {
    hide B.Inv, B.Step, B.Kept;
  }

  lemma StepKeeps(capacity: nat, s: State, a: Action)
    requires Inv(capacity, s) && Enabled(capacity, s, a) && capacity > 0
    ensures Inv(capacity, Step(capacity, s, a))
  {
    hide Inv, Enabled, B.Step;
    match a
    case Out(b) => OutKeeps(capacity, s, b);
    case Begin(pre, p) => BeginKeeps(capacity, s, pre, p);
    case PreOpen(ok) => PreOpenKeeps(capacity, s, ok);
    case Decode(chunk, p) => DecodeKeeps(capacity, s, chunk, p);
    case PutChunk => PutChunkKeeps(capacity, s);
    case SeekRequest(ok) =>
      if ok {
        StopKeeps(capacity, s, a);
      } else {
        PlainKeeps(capacity, s, a);
      }
    case StopRequest => StopKeeps(capacity, s, a);
    case SeekDone => SeekDoneKeeps(capacity, s);
    case Switch => WaitKeeps(capacity, s, a);
    case Leave => WaitKeeps(capacity, s, a);
    case PutDone => PutDoneKeeps(capacity, s, a);
    case PrePutDone => PutDoneKeeps(capacity, s, a);
    case _ => PlainKeeps(capacity, s, a);
  }

  lemma InitKeeps(capacity: nat)
    ensures Inv(capacity, Init())
  {
    B.InitKeeps<Frame>(capacity);
  }

  lemma {:induction false} RunKeeps(capacity: nat, r: Run, s: State)
    requires IsRun(capacity, r, s) && capacity > 0
    ensures Inv(capacity, s)
  {
    hide Inv, Enabled, Step;
    match r
    case Started => InitKeeps(capacity);
    case Then(before, a) =>
      var t :| IsRun(capacity, before, t) && Enabled(capacity, t, a) && s == Step(capacity, t, a);
      RunKeeps(capacity, before, t);
      StepKeeps(capacity, t, a);
  }

  lemma ReachableInv(capacity: nat, s: State)
    requires Reachable(capacity, s) && capacity > 0
    ensures Inv(capacity, s)
  {
    hide Inv;
    var r :| IsRun(capacity, r, s);
    RunKeeps(capacity, r, s);
  }

  // ---------- what it means ----------

  /** Every chunk put was decoded with the parameters that the device was last opened with. */
  lemma ChunksMatchTheDevice(capacity: nat, s: State)
    requires Reachable(capacity, s) && capacity > 0 && Enabled(capacity, s, PutChunk)
    ensures Tagged(s.buf, s.device)
  {
    hide Inv, Enabled, Tagged;
    ReachableInv(capacity, s);
    PutChunkKeeps(capacity, s);
  }

  /** So is every byte that reaches the device, at that moment. */
  lemma SentBytesMatchTheDevice(capacity: nat, s: State, k: nat)
    requires Reachable(capacity, s) && capacity > 0 && Enabled(capacity, s, Out(B.Send(k)))
    ensures var t := Step(capacity, s, Out(B.Send(k)));
      s.out.sent <= t.out.sent && Tagged(t.out.sent[|s.out.sent|..], s.device)
  {
    hide B.Inv, B.Kept;
    ReachableInv(capacity, s);
  }

  /** When the device is opened with other parameters, nothing queued before is on its way. */
  lemma NothingOldAfterOpening(capacity: nat, s: State, ok: bool)
    requires Reachable(capacity, s) && capacity > 0
    requires Enabled(capacity, s, SwitchOpen(ok)) || Enabled(capacity, s, PreOpen(ok))
    ensures s.out.Rest() == [] && s.out.fifo == [] && s.out.Pending() == []
  {
    hide B.Inv, B.Kept, Tagged;
    ReachableInv(capacity, s);
  }

  /** After a normal end of file the device has been sent, since the last successful seek or
      the start of the file, exactly what the decoder gave out, to its end. */
  lemma PlayedAllOfIt(capacity: nat, s: State)
    requires Reachable(capacity, s) && capacity > 0
    requires s.pc == Closing(Played) && Enabled(capacity, s, Close)
    ensures s.out.sent == s.start + s.produced && s.ended
  {
    hide B.Kept, Tagged, B.Taken;
    ReachableInv(capacity, s);
    assert s.out.sent + [] + [] == s.out.sent;
    assert B.Kept(s.out.log) + [] + [] == B.Kept(s.out.log);
  }

  /** At any time outside a seek or a stop, the bytes accepted since then are a prefix of the
      decoder's output. */
  lemma QueuedIsPrefix(capacity: nat, s: State)
    requires Reachable(capacity, s) && capacity > 0 && (s.pc.Looping? || s.pc.Choosing? || s.pc.Putting?)
    ensures s.start <= B.Kept(s.out.log) + s.out.Pending() + (if s.pc.Putting? then [] else s.buf)
    ensures B.Kept(s.out.log) <= s.start + s.produced
  {
    hide B.Kept, Tagged, B.Inv;
    ReachableInv(capacity, s);
  }
}
