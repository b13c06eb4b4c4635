/** How the decode loop of src/library/player.cpp goes on: after every step what comes next, and that
    files are played. */
module PlayerCalls {
  import opened Bytes
  import opened Player
  import B = OutBuf

  // ---------- decoding ----------

  /** A file begins with an empty buffer, from its start or behind what was precached. */
  lemma FileBegins(capacity: nat, s: State, pre: seq<Frame>, p: Params)
    requires Enabled(capacity, s, Begin(pre, p))
    ensures var t := Step(capacity, s, Begin(pre, p));
      && t.out.fifo == [] && !t.out.stopped && !t.out.paused && t.out.sent == s.out.sent
      && !t.eof && !t.change && t.buf == [] && t.produced == pre && t.start == t.out.sent + t.out.Rest()
      && (if pre == [] then t.pc.Looping? && t.params == NO_PARAMS else t.pc == PreOpening(pre) && t.params == p)
  {
  }

  /** What was precached is played first, on a device opened for it, or the file is given up. */
  lemma PrecachedIsPut(capacity: nat, s: State, ok: bool)
    requires Enabled(capacity, s, PreOpen(ok))
    ensures var t := Step(capacity, s, PreOpen(ok));
      && t.device == s.params
      && (if ok then t.pc.PrePutting? && t.out.Pending() == s.pc.data && t.out.fifo == s.out.fifo else t.pc.Idle?)
  {
  }

  /** Whenever nothing is left to put and the decoder has not ended, it is asked, and its chunk is
      what is put next; a chunk of other parameters than the last is not put before the device is
      opened for them. */
  lemma DecoderIsAsked(capacity: nat, s: State, chunk: seq<Frame>, p: Params)
    requires s.pc.Looping? && !s.eof && s.buf == [] && Tagged(chunk, p) && p != NO_PARAMS && |s.out.fifo| <= capacity
    ensures Enabled(capacity, s, Decode(chunk, p)) && !Enabled(capacity, s, Wait)
    ensures var t := Step(capacity, s, Decode(chunk, p));
      && t.pc.Choosing? && t.out == s.out && t.buf == chunk && t.produced == s.produced + chunk
      && (t.eof <==> chunk == []) && t.params == s.params
      && (chunk != [] ==> t.newParams == p && (t.change <==> s.change || p != s.params))
      && (chunk == [] ==> t.change == s.change)
  {
  }

  /** Otherwise it waits, and nothing changes. */
  lemma LoopWaits(capacity: nat, s: State, chunk: seq<Frame>, p: Params)
    requires s.pc.Looping? && (s.eof || s.buf != []) && |s.out.fifo| <= capacity
    ensures Enabled(capacity, s, Wait) && !Enabled(capacity, s, Decode(chunk, p))
    ensures Step(capacity, s, Wait) == s.(pc := Choosing)
  {
  }

  /** Without a request, the next thing to do is one of three, or none until the buffer has room or
      is empty. */
  lemma NextBranch(capacity: nat, s: State)
    requires Inv(capacity, s) && s.pc.Choosing?
    ensures Enabled(capacity, s, PutChunk) <==> !s.eof && !s.change && |s.buf| + |s.out.fifo| <= capacity
    ensures Enabled(capacity, s, Switch) <==> !s.eof && s.change && s.out.fifo == []
    ensures Enabled(capacity, s, PlayedAll) <==> s.eof && s.out.fifo == []
    ensures Enabled(capacity, s, StopRequest) && Enabled(capacity, s, SeekRequest(true))
    ensures Enabled(capacity, s, SeekRequest(false)) && Enabled(capacity, s, Again)
    ensures Step(capacity, s, Again) == s.(pc := Looping)
  {
    hide B.Kept, B.Taken, Delivery, InTune, Quiet;
    assert s.out.control.NoControl? && s.out.putter.PutIdle?;
  }

  lemma ChunkIsPut(capacity: nat, s: State)
    requires Enabled(capacity, s, PutChunk)
    ensures var t := Step(capacity, s, PutChunk);
      t.pc.Putting? && t.out.Pending() == s.buf && t.out.fifo == s.out.fifo && t.produced == s.produced && !t.eof
  {
  }

  /** When a put is over, the decoder is asked again. */
  lemma AfterPut(capacity: nat, s: State, a: Action, chunk: seq<Frame>, p: Params)
    requires Inv(capacity, s) && Enabled(capacity, s, a) && (a.PutDone? || a.PrePutDone?)
    requires !s.eof && Tagged(chunk, p) && p != NO_PARAMS
    ensures var t := Step(capacity, s, a);
      t.out == s.out && t.produced == s.produced && Enabled(capacity, t, Decode(chunk, p))
  {
    hide B.Inv, Delivery, InTune, Quiet;
  }

  // ---------- other parameters ----------

  /** The loop waits for the device thread, opens the device with the parameters of the chunk, and
      then the chunk itself is what is put. */
  lemma SwitchWaits(capacity: nat, s: State)
    requires Enabled(capacity, s, Switch)
    ensures var t := Step(capacity, s, Switch);
      && t.pc.SwitchWaiting? && t.params == s.newParams && !t.change && t.buf == s.buf && t.eof == s.eof
      && t.out == s.out.(control := B.Waiting) && t.produced == s.produced
  {
  }

  lemma AfterSwitch(capacity: nat, s: State)
    requires Inv(capacity, s) && Enabled(capacity, s, SwitchOpen(true))
    ensures var t := Step(capacity, s, SwitchOpen(true));
      && t.device == s.params && t.pc.Looping? && t.buf == s.buf && t.change == s.change && t.out == s.out
      && (s.buf != [] && !s.change && |s.buf| <= capacity ==>
            && Enabled(capacity, t, Wait)
            && Enabled(capacity, Step(capacity, t, Wait), PutChunk))
  {
    hide B.Inv, Delivery, InTune;
  }

  lemma SwitchFails(capacity: nat, s: State)
    requires Enabled(capacity, s, SwitchOpen(false))
    ensures Step(capacity, s, SwitchOpen(false)).pc == Leaving(Failed)
  {
  }

  // ---------- requests ----------

  /** After a successful seek the buffer is empty, what was decoded before is forgotten, and the
      decoder is asked, even if it had come to its end. */
  lemma SeekGoesOn(capacity: nat, s: State, chunk: seq<Frame>, p: Params)
    requires Enabled(capacity, s, SeekDone) && Tagged(chunk, p) && p != NO_PARAMS
    ensures var t := Step(capacity, s, SeekDone);
      && Enabled(capacity, t, Decode(chunk, p)) && t.out.fifo == [] && !t.out.stopped && t.buf == []
      && t.produced == [] && t.start == t.out.sent + t.out.Rest() && t.out.sent == s.out.sent
  {
  }

  /** A seek stops the buffer first; one that the decoder cannot do changes nothing. */
  lemma SeekStops(capacity: nat, s: State, ok: bool)
    requires Enabled(capacity, s, SeekRequest(ok))
    ensures var t := Step(capacity, s, SeekRequest(ok));
      if ok then t.pc.SeekStopping? && t.out.stopped && t.out.control.StopAsleep? else t == s.(pc := Looping)
  {
  }

  /** A request to stop stops the buffer, and then the file is left as stopped. */
  lemma StopLeaves(capacity: nat, s: State)
    requires Enabled(capacity, s, StopRequest)
    ensures var t := Step(capacity, s, StopRequest);
      t.pc.StopStopping? && t.out.stopped && t.out.control.StopAsleep?
  {
  }

  lemma StoppedLeaves(capacity: nat, s: State)
    requires Enabled(capacity, s, StopDone)
    ensures Step(capacity, s, StopDone) == s.(pc := Leaving(Stopped))
  {
  }

  /** Every end waits for the device thread and then frees the player for the next file. */
  lemma LeavingWaits(capacity: nat, s: State)
    requires Enabled(capacity, s, Leave)
    ensures var t := Step(capacity, s, Leave); t.pc == Closing(s.pc.end) && t.out == s.out.(control := B.Waiting)
  {
  }

  lemma ClosingEnds(capacity: nat, s: State, pre: seq<Frame>, p: Params)
    requires Inv(capacity, s) && Enabled(capacity, s, Close) && Tagged(pre, p) && p != NO_PARAMS
    ensures var t := Step(capacity, s, Close); t.out == s.out && Enabled(capacity, t, Begin(pre, p))
  {
    hide B.Inv, Delivery, InTune;
  }

  /** A file ends as played only after the decoder has returned nothing since the last seek, with
      an empty buffer; as stopped only on request; as failed only when the device could not be
      opened. */
  lemma EndsForAReason(capacity: nat, s: State, a: Action)
    requires Inv(capacity, s) && Enabled(capacity, s, a) && !s.pc.Leaving? && Step(capacity, s, a).pc.Leaving?
    ensures match Step(capacity, s, a).pc.end
            case Played => s.ended && s.out.fifo == [] && s.buf == []
            case Stopped => s.pc.StopStopping?
            case Failed => s.pc.SwitchWaiting? && a == SwitchOpen(false)
  {
    hide B.Inv, B.Step, Delivery, InTune, Quiet;
  }

  // ---------- a run ----------

  lemma LongerRun(capacity: nat, r: Run, s: State, a: Action) returns (k: Run)
    requires IsRun(capacity, r, s) && Enabled(capacity, s, a)
    ensures k == Then(r, a) && IsRun(capacity, k, Step(capacity, s, a))
  {
    k := Then(r, a);
  }

  lemma JustStarted(capacity: nat)
    ensures IsRun(capacity, Started, Init())
  {
  }

  lemma RunReaches(capacity: nat, r: Run, s: State)
    requires IsRun(capacity, r, s)
    ensures Reachable(capacity, s)
  {
  }

  /** With nothing to play, the device thread goes to sleep and a wait for it ends. */
  lemma WaitsForDevice(capacity: nat, r: Run, s: State) returns (k: Run)
    requires IsRun(capacity, r, s) && s.out.control.Waiting? && s.out.reader.Top? && s.out.fifo == []
    requires !s.out.paused && !s.out.stopped && !s.out.exit && !s.out.resetDev && s.out.putter.PutIdle?
    ensures IsRun(capacity, k, s.(out := s.out.(reader := B.Asleep, readWaiting := true, control := B.NoControl)))
  {
    hide IsRun, B.Kept, B.Taken, Tagged;
    k := LongerRun(capacity, r, s, Out(B.LoopTop));
    var s1 := s.(out := s.out.(reader := B.Called));
    k := LongerRun(capacity, k, s1, Out(B.AfterCallback(false, 0, false)));
    var s2 := s1.(out := s1.out.(reader := B.Asleep, readWaiting := true));
    k := LongerRun(capacity, k, s2, Out(B.WaitOnce));
  }

  lemma NothingTagged(p: Params)
    ensures Tagged([], p)
  {
  }

  /** The device is about to be opened for the first chunk. */
  function Opening(x: seq<Frame>, p: Params): State {
    var out := B.Init<Frame>().(log := [B.Cleared(0)], control := B.NoControl, reader := B.Asleep, readWaiting := true);
    State(out, SwitchWaiting, p, p, false, false, x, NO_PARAMS, [], x, false)
  }

  function Decoded(x: seq<Frame>, p: Params): State {
    State(B.Init<Frame>().(log := [B.Cleared(0)]), Choosing, NO_PARAMS, p, true, false, x, NO_PARAMS, [], x, false)
  }

  lemma DecodesFirst(capacity: nat, x: seq<Frame>, p: Params) returns (r: Run)
    requires 0 < |x| <= capacity && Tagged(x, p) && p != NO_PARAMS
    ensures IsRun(capacity, r, Decoded(x, p))
  {
    hide IsRun, B.Kept, B.Taken;
    JustStarted(capacity);
    var s0 := Init();
    var o0 := s0.out;
    r := LongerRun(capacity, Started, s0, Begin([], p));
    assert o0.log + [B.Cleared(0)] == [B.Cleared(0)] && o0.sent + o0.Rest() == [];
    var s1 := s0.(out := o0.(log := [B.Cleared(0)]), pc := Looping);
    r := LongerRun(capacity, r, s1, Decode(x, p));
    assert s1.produced + x == x;
  }

  lemma OpensDevice(capacity: nat, x: seq<Frame>, p: Params) returns (r: Run)
    requires 0 < |x| <= capacity && Tagged(x, p) && p != NO_PARAMS
    ensures IsRun(capacity, r, Opening(x, p))
  {
    hide IsRun, B.Kept, B.Taken, Tagged;
    r := DecodesFirst(capacity, x, p);
    var s2 := Decoded(x, p);
    r := LongerRun(capacity, r, s2, Switch);
    var s3 := s2.(params := p, change := false, out := s2.out.(control := B.Waiting), pc := SwitchWaiting);
    r := WaitsForDevice(capacity, r, s3);
  }

  /** The chunk is in the buffer and the decoder has ended. */
  function Queued(x: seq<Frame>, p: Params): State {
    var o := Opening(x, p).out;
    State(o.(fifo := x, log := [B.Cleared(0), B.Took(x)], given := x, reader := B.Woken), Choosing,
          p, p, false, true, [], p, [], x, true)
  }

  lemma QueuesChunk(capacity: nat, x: seq<Frame>, p: Params) returns (r: Run)
    requires 0 < |x| <= capacity && Tagged(x, p) && p != NO_PARAMS
    ensures IsRun(capacity, r, Queued(x, p))
  {
    hide IsRun, B.Kept, B.Taken, Tagged;
    NothingTagged(p);
    r := OpensDevice(capacity, x, p);
    var s0 := Opening(x, p);
    r := LongerRun(capacity, r, s0, SwitchOpen(true));
    var s1 := s0.(device := p, pc := Looping);
    r := LongerRun(capacity, r, s1, Wait);
    var s2 := s1.(pc := Choosing);
    r := LongerRun(capacity, r, s2, PutChunk);
    assert s2.out.given + x == x;
    var s3 := s2.(out := s2.out.(putter := B.Putting(x), given := x), pc := Putting);
    r := LongerRun(capacity, r, s3, Out(B.PutOnce));
    assert s3.out.fifo + x[..|x|] == x && x[..|x|] == x;
    assert s3.out.log + [B.Took(x)] == [B.Cleared(0), B.Took(x)];
    var s4 := s3.(out := s3.out.(putter := B.PutIdle, fifo := x, log := [B.Cleared(0), B.Took(x)], reader := B.Woken));
    r := LongerRun(capacity, r, s4, PutDone);
    var s5 := s4.(buf := [], pc := Looping);
    r := LongerRun(capacity, r, s5, Decode([], p));
  }

  function PlayedOut(x: seq<Frame>, p: Params): State {
    var o := Queued(x, p).out;
    Queued(x, p).(out := o.(sent := x, fifo := [], reader := B.Top, readWaiting := false))
  }

  lemma SendsChunk(capacity: nat, x: seq<Frame>, p: Params) returns (r: Run)
    requires 0 < |x| <= capacity && Tagged(x, p) && p != NO_PARAMS
    ensures IsRun(capacity, r, PlayedOut(x, p))
  {
    hide IsRun, B.Kept, B.Taken, Tagged;
    r := QueuesChunk(capacity, x, p);
    var s0 := Queued(x, p);
    r := LongerRun(capacity, r, s0, Out(B.Resume(|x|, false)));
    assert x[..|x|] == x && x[|x|..] == [];
    var s1 := s0.(out := s0.out.(reader := B.Sending(x), fifo := [], readWaiting := false));
    r := LongerRun(capacity, r, s1, Out(B.Send(|x|)));
    assert s1.out.sent + x == x;
  }

  /** Every sound that fits the buffer is played to its end as a file of its own. */
  lemma FilePlays(capacity: nat, x: seq<Frame>, p: Params)
    requires 0 < |x| <= capacity && Tagged(x, p) && p != NO_PARAMS
    ensures exists s ::
              Reachable(capacity, s) && s.pc == Closing(Played) && Enabled(capacity, s, Close)
              && s.out.sent == x && s.device == p
  {
    hide IsRun, B.Kept, B.Taken, Tagged;
    var r := SendsChunk(capacity, x, p);
    var s2 := PlayedOut(x, p);
    r := LongerRun(capacity, r, s2, PlayedAll);
    var s3 := s2.(pc := Leaving(Played));
    r := LongerRun(capacity, r, s3, Leave);
    var s4 := s3.(pc := Closing(Played), out := s3.out.(control := B.Waiting));
    r := WaitsForDevice(capacity, r, s4);
    var s5 := s4.(out := s4.out.(reader := B.Asleep, readWaiting := true, control := B.NoControl));
    RunReaches(capacity, r, s5);
  }
}
