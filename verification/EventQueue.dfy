/** The engine's event queue of src/core/server.cpp with its wake-up pipe, as a step system of
    any number of producers and one consumer. */
module EventQueue {

  type Event = nat

  /** Which flush runs: a call of its own, or the first or second of a waiting call. */
  datatype Mode = Flush | First | Second

  datatype Consumer =
    | Idle
    | Draining(mode: Mode)   // reading wake-up bytes
    | Splicing(mode: Mode)   // the pipe was empty, the queue not yet taken
    | Blocked                // in select

  /** `writers` counts the producers that have pushed and not yet written; `got` is what the
      current or last call has taken. For the specification, `pushed` and `delivered` are all
      events so far, in order. */
  datatype State = State(queue: seq<Event>, pipe: nat, writers: nat, consumer: Consumer, got: seq<Event>,
                         pushed: seq<Event>, delivered: seq<Event>)

  datatype Action =
    | Push(e: Event)   // the first half of eq_push
    | Write            // the second half; a full pipe takes no byte
    | BeginFlush
    | BeginWait
    | Read(n: nat)     // one read of wake-up bytes
    | Drained          // a read finds the pipe empty
    | Splice
    | Select           // select sees a byte
    | Interrupt        // select ends on a signal

  function Init(): State {
    State([], 0, 0, Idle, [], [], [])
  }

  predicate Enabled(s: State, a: Action) {
    match a
    case Push(_) => true
    case Write => s.writers > 0
    case BeginFlush => s.consumer.Idle?
    case BeginWait => s.consumer.Idle?
    case Read(n) => s.consumer.Draining? && 0 < n <= s.pipe && n <= 64
    case Drained => s.consumer.Draining? && s.pipe == 0
    case Splice => s.consumer.Splicing?
    case Select => s.consumer.Blocked? && s.pipe > 0
    case Interrupt => s.consumer.Blocked?
  }

  function Step(capacity: nat, s: State, a: Action): State
    requires Enabled(s, a)
  {
    match a
    case Push(e) => s.(queue := s.queue + [e], writers := s.writers + 1, pushed := s.pushed + [e])
    case Write => s.(writers := s.writers - 1, pipe := if s.pipe < capacity then s.pipe + 1 else s.pipe)
    case BeginFlush => s.(consumer := Draining(Flush), got := [])
    case BeginWait => s.(consumer := Draining(First), got := [])
    case Read(n) => s.(pipe := s.pipe - n)
    case Drained => s.(consumer := Splicing(s.consumer.mode))
    case Splice =>
      s.(consumer := if s.consumer.mode.First? && s.got + s.queue == [] then Blocked else Idle,
         queue := [], got := s.got + s.queue, delivered := s.delivered + s.queue)
    case Select => s.(consumer := Draining(Second))
    case Interrupt => s.(consumer := Draining(Second))
  }

  /** `t` is reached from `s` by the steps in `acts`. */
  ghost predicate Leads(capacity: nat, s: State, acts: seq<Action>, t: State)
    decreases |acts|
  {
    if acts == [] then s == t
    else Enabled(s, acts[0]) && Leads(capacity, Step(capacity, s, acts[0]), acts[1..], t)
  }

  ghost predicate Reachable(capacity: nat, s: State) {
    exists acts :: Leads(capacity, Init(), acts, s)
  }

  // ---------- the invariant ----------

  ghost predicate Inv(capacity: nat, s: State) {
    && s.delivered + s.queue == s.pushed && s.pipe <= capacity
    && (s.queue != [] ==> s.pipe > 0 || s.writers > 0 || s.consumer.Draining? || s.consumer.Splicing?)
  }

  lemma StepKeeps(capacity: nat, s: State, a: Action)
    requires capacity > 0 && Inv(capacity, s) && Enabled(s, a)
    ensures Inv(capacity, Step(capacity, s, a))
  {
    match a
    case Push(e) => assert s.delivered + (s.queue + [e]) == s.pushed + [e];
    case Splice => assert s.delivered + s.queue + [] == s.pushed;
    case _ =>
  }

  lemma {:induction false} RunKeeps(capacity: nat, s: State, acts: seq<Action>, t: State)
    requires capacity > 0 && Inv(capacity, s) && Leads(capacity, s, acts, t)
    ensures Inv(capacity, t)
    decreases |acts|
  {
    if acts != [] {
      StepKeeps(capacity, s, acts[0]);
      RunKeeps(capacity, Step(capacity, s, acts[0]), acts[1..], t);
    }
  }

  /** Events reach the consumer exactly once, in the order in which they were pushed. */
  lemma DeliveredInOrder(capacity: nat, s: State)
    requires capacity > 0 && Reachable(capacity, s)
    ensures s.delivered + s.queue == s.pushed && s.pipe <= capacity
  {
    var acts :| Leads(capacity, Init(), acts, s);
    RunKeeps(capacity, Init(), acts, s);
  }

  /** A queue with events is never forgotten: there is a byte in the pipe, a producer is about
      to write one, or the consumer is on its way to take the queue. */
  lemma NonEmptyIsAnnounced(capacity: nat, s: State)
    requires capacity > 0 && Reachable(capacity, s) && s.queue != []
    ensures s.pipe > 0 || s.writers > 0 || s.consumer.Draining? || s.consumer.Splicing?
  {
    var acts :| Leads(capacity, Init(), acts, s);
    RunKeeps(capacity, Init(), acts, s);
  }

  // ---------- the waiting call ----------

  lemma Prepend(capacity: nat, s: State, a: Action, acts: seq<Action>, t: State)
    requires Enabled(s, a) && Leads(capacity, Step(capacity, s, a), acts, t)
    ensures Leads(capacity, s, [a] + acts, t)
  {
    assert ([a] + acts)[1..] == acts;
  }

  /** A step of the waiting call or of the producers, without a signal. */
  predicate Undisturbed(acts: seq<Action>) {
    forall i :: 0 <= i < |acts| ==> !acts[i].Interrupt? && !acts[i].BeginFlush? && !acts[i].BeginWait?
  }

  /** The first flush of a waiting call found nothing, just now. */
  ghost predicate FoundNothing(s: State) {
    s.consumer.Blocked? && s.queue == [] && s.got == []
  }

  /** The rest of a waiting call, whatever the producers do, can only end with events. */
  ghost predicate EndsWithSome(capacity: nat, s: State) {
    forall acts, t :: Undisturbed(acts) && Leads(capacity, s, acts, t) && t.consumer.Idle? ==> t.got != []
  }

  /** Every byte in the pipe or about to come stands for an event in the queue. */
  ghost predicate Honest(s: State) {
    || (s.consumer.Idle? && s.got != [])
    || (&& s.got == []
        && (s.consumer.Blocked? || s.consumer == Draining(Second) || s.consumer == Splicing(Second))
        && (s.pipe > 0 || s.writers > 0 || !s.consumer.Blocked? ==> s.queue != []))
  }

  lemma {:induction false} HonestRun(capacity: nat, s: State, acts: seq<Action>, t: State)
    requires Honest(s) && Undisturbed(acts) && Leads(capacity, s, acts, t)
    ensures Honest(t)
    decreases |acts|
  {
    if acts != [] {
      assert Honest(Step(capacity, s, acts[0]));
      HonestRun(capacity, Step(capacity, s, acts[0]), acts[1..], t);
    }
  }

  /** With no event queued the bytes in the pipe lead to an empty result. */
  lemma {:induction false} DrainToNothing(capacity: nat, s: State) returns (acts: seq<Action>, t: State)
    requires s.consumer == Draining(Second) && s.queue == [] && s.got == []
    ensures Undisturbed(acts) && Leads(capacity, s, acts, t) && t.consumer.Idle? && t.got == []
    decreases s.pipe
  {
    if s.pipe == 0 {
      var u := Step(capacity, s, Drained);
      t := Step(capacity, u, Splice);
      assert Leads(capacity, t, [], t);
      Prepend(capacity, u, Splice, [], t);
      Prepend(capacity, s, Drained, [Splice] + [], t);
      acts := [Drained] + ([Splice] + []);
    } else {
      var n := if s.pipe < 64 then s.pipe else 64;
      var rest;
      rest, t := DrainToNothing(capacity, Step(capacity, s, Read(n)));
      Prepend(capacity, s, Read(n), rest, t);
      acts := [Read(n)] + rest;
    }
  }

  /** A waiting call never returns without an event, a signal apart, exactly when at the moment its
      first flush found nothing no byte was in the pipe and no producer was about to write:
      not always, as its comment has it. */
  lemma WaitReturnsSome(capacity: nat, s: State)
    requires capacity > 0 && FoundNothing(s)
    ensures EndsWithSome(capacity, s) <==> s.pipe == 0 && s.writers == 0
  {
    if s.pipe == 0 && s.writers == 0 {
      forall acts, t | Undisturbed(acts) && Leads(capacity, s, acts, t) && t.consumer.Idle? ensures t.got != [] {
        HonestRun(capacity, s, acts, t);
      }
    } else {
      var announced := if s.pipe > 0 then s else Step(capacity, s, Write);
      var rest, t := DrainToNothing(capacity, Step(capacity, announced, Select));
      Prepend(capacity, announced, Select, rest, t);
      if s.pipe == 0 {
        Prepend(capacity, s, Write, [Select] + rest, t);
        assert Undisturbed([Write] + ([Select] + rest));
      } else {
        assert Undisturbed([Select] + rest);
      }
    }
  }

  /** How many steps of its own a waiting call still takes, if nothing more is written. */
  function StepsLeft(s: State): nat {
    match s.consumer
    case Idle => 0
    case Splicing(_) => 1
    case Draining(_) => s.pipe + 2
    case Blocked => s.pipe + 3
  }

  function CallSteps(acts: seq<Action>): nat {
    if acts == [] then 0 else (if acts[0].Push? || acts[0].Write? then 0 else 1) + CallSteps(acts[1..])
  }

  function Writes(acts: seq<Action>): nat {
    if acts == [] then 0 else (if acts[0].Write? then 1 else 0) + Writes(acts[1..])
  }

  /** From there on the call ends: it takes no more steps than there are bytes in the pipe, or
      written meanwhile, and three; and it has a step to take unless select waits for a byte. */
  lemma {:induction false} WaitEnds(capacity: nat, s: State, acts: seq<Action>, t: State)
    requires s.consumer.Idle? || s.consumer.Blocked? || s.consumer.mode.Second?
    requires Undisturbed(acts) && Leads(capacity, s, acts, t)
    ensures CallSteps(acts) + StepsLeft(t) <= StepsLeft(s) + Writes(acts)
    ensures t.consumer.Idle? || (t.consumer.Blocked? && t.pipe == 0)
            || Enabled(t, Select) || Enabled(t, Read(1)) || Enabled(t, Drained) || Enabled(t, Splice)
    decreases |acts|
  {
    if acts != [] {
      assert !acts[0].Interrupt? && !acts[0].BeginFlush? && !acts[0].BeginWait?;
      WaitEnds(capacity, Step(capacity, s, acts[0]), acts[1..], t);
    }
  }

  // ---------- what a call takes ----------

  /** A flush in progress, or the first flush of a waiting call, begun at `s` with `queued` events:
      nothing is taken yet, or the call is over and has taken all of these and what came in
      before it took them. */
  ghost predicate Taking(s: State, t: State, mode: Mode, queued: seq<Event>) {
    || ((t.consumer == Draining(mode) || t.consumer == Splicing(mode))
        && t.got == [] && t.delivered == s.delivered && queued <= t.queue)
    || (t.consumer.Idle? && t.delivered == s.delivered + t.got && queued <= t.got)
  }

  lemma TakingStep(capacity: nat, s: State, t: State, a: Action, mode: Mode, queued: seq<Event>)
    requires Taking(s, t, mode, queued) && (mode.Flush? || (mode.First? && queued != []))
    requires Enabled(t, a) && !a.Interrupt? && !a.BeginFlush? && !a.BeginWait?
    ensures Taking(s, Step(capacity, t, a), mode, queued)
    ensures a.Splice? ==> Step(capacity, t, a).got == t.queue && Step(capacity, t, a).queue == []
    ensures var u := Step(capacity, t, a);
      StepsLeft(u) + (if a.Push? || a.Write? then 0 else 1) <= StepsLeft(t) + (if a.Write? then 1 else 0)
  {
    match a {
      case Splice => assert [] + t.queue == t.queue;
      case _ =>
    }
  }

  lemma {:induction false} TakingRun(capacity: nat, s: State, t: State, mode: Mode, queued: seq<Event>,
                                     acts: seq<Action>, u: State)
    requires Taking(s, t, mode, queued) && (mode.Flush? || (mode.First? && queued != []))
    requires Undisturbed(acts) && Leads(capacity, t, acts, u)
    ensures Taking(s, u, mode, queued)
    ensures CallSteps(acts) + StepsLeft(u) <= StepsLeft(t) + Writes(acts)
    decreases |acts|
  {
    hide Taking, Step, StepsLeft;
    if acts != [] {
      assert !acts[0].Interrupt? && !acts[0].BeginFlush? && !acts[0].BeginWait?;
      TakingStep(capacity, s, t, acts[0], mode, queued);
      TakingRun(capacity, s, Step(capacity, t, acts[0]), mode, queued, acts[1..], u);
    }
  }

  /** A flush never blocks, whatever the producers do: it takes at most two steps more than there are
      bytes in the pipe or written meanwhile, has a step to take until it ends, and then has taken
      every event that was queued when it began, and whatever it took it delivers. */
  lemma FlushEnds(capacity: nat, s: State, acts: seq<Action>, t: State)
    requires s.consumer.Idle? && Undisturbed(acts) && Leads(capacity, Step(capacity, s, BeginFlush), acts, t)
    ensures CallSteps(acts) <= s.pipe + 2 + Writes(acts)
    ensures t.consumer.Idle? || Enabled(t, Read(1)) || Enabled(t, Drained) || Enabled(t, Splice)
    ensures t.consumer.Idle? ==> s.queue <= t.got && t.delivered == s.delivered + t.got
    ensures t.consumer.Idle? ==> t.pipe <= Writes(acts) && s.pipe <= 64 * Reads(acts)
  {
    TakingRun(capacity, s, Step(capacity, s, BeginFlush), Flush, s.queue, acts, t);
    FlushDrains(capacity, Step(capacity, s, BeginFlush), 0, acts, t);
  }

  /** So does a waiting call when there are events. */
  lemma WaitTakesQueued(capacity: nat, s: State, acts: seq<Action>, t: State)
    requires s.consumer.Idle? && s.queue != []
    requires Undisturbed(acts) && Leads(capacity, Step(capacity, s, BeginWait), acts, t)
    ensures CallSteps(acts) <= s.pipe + 2 + Writes(acts)
    ensures t.consumer.Idle? || Enabled(t, Read(1)) || Enabled(t, Drained) || Enabled(t, Splice)
    ensures t.consumer.Idle? ==> s.queue <= t.got && t.delivered == s.delivered + t.got
  {
    TakingRun(capacity, s, Step(capacity, s, BeginWait), First, s.queue, acts, t);
  }

  function Reads(acts: seq<Action>): nat {
    if acts == [] then 0 else (if acts[0].Read? then 1 else 0) + Reads(acts[1..])
  }

  /** And it leaves no byte behind but those written meanwhile, 64 of them going at a time. */
  lemma {:induction false} FlushDrains(capacity: nat, t: State, before: nat, acts: seq<Action>, u: State)
    requires t.consumer.Idle? || t.consumer.Draining? || t.consumer == Splicing(Flush)
    requires t.consumer.Draining? ==> t.consumer.mode.Flush?
    requires !t.consumer.Draining? ==> t.pipe <= before
    requires Undisturbed(acts) && Leads(capacity, t, acts, u)
    ensures u.consumer.Idle? ==> u.pipe <= before + Writes(acts)
    ensures t.consumer.Draining? && u.consumer.Idle? ==> t.pipe <= 64 * Reads(acts)
    decreases |acts|
  {
    if acts != [] {
      assert !acts[0].Interrupt? && !acts[0].BeginFlush? && !acts[0].BeginWait?;
      FlushDrains(capacity, Step(capacity, t, acts[0]), before + (if acts[0].Write? then 1 else 0), acts[1..], u);
    }
  }

  /** A signal ends the wait, with nothing if nothing came. */
  lemma SignalEndsWait(capacity: nat, s: State) returns (acts: seq<Action>, t: State)
    requires FoundNothing(s)
    ensures Undisturbed(acts) && Leads(capacity, s, [Interrupt] + acts, t) && t.consumer.Idle? && t.got == []
  {
    acts, t := DrainToNothing(capacity, Step(capacity, s, Interrupt));
    Prepend(capacity, s, Interrupt, acts, t);
  }

  /** When a call takes the queue it is empty, and a flush is over then, with events or without. */
  lemma FlushTakesAll(capacity: nat, s: State)
    requires s.consumer == Splicing(Flush) && s.got == []
    ensures var t := Step(capacity, s, Splice); t.consumer.Idle? && t.got == s.queue && t.queue == []
  {
    assert [] + s.queue == s.queue;
  }

  /** A waiting call that finds nothing waits, and takes what comes in when it is announced. */
  lemma WaitGoesOn(capacity: nat, s: State, e: Event)
    requires capacity > 0 && s.consumer.Idle? && s.queue == [] && s.pipe == 0 && s.writers == 0
    ensures Leads(capacity, s, [BeginWait, Drained, Splice], s.(consumer := Blocked, got := []))
    ensures var acts := [Push(e), Write, Select, Read(1), Drained, Splice];
      Leads(capacity, s.(consumer := Blocked, got := []), acts,
            s.(got := [e], pushed := s.pushed + [e], delivered := s.delivered + [e]))
  {
    var s1 := s.(consumer := Draining(First), got := []);
    var s2 := s1.(consumer := Splicing(First));
    var w := s.(consumer := Blocked, got := []);
    assert s.delivered + [] == s.delivered && Step(capacity, s2, Splice) == w && Leads(capacity, w, [], w);
    Prepend(capacity, s2, Splice, [], w);
    Prepend(capacity, s1, Drained, [Splice] + [], w);
    Prepend(capacity, s, BeginWait, [Drained] + ([Splice] + []), w);
    assert [BeginWait] + ([Drained] + ([Splice] + [])) == [BeginWait, Drained, Splice];
    var t := s.(got := [e], pushed := s.pushed + [e], delivered := s.delivered + [e]);
    var w1 := w.(queue := [e], writers := 1, pushed := s.pushed + [e]);
    assert s.queue + [e] == [e] && [] + [e] == [e];
    var w2 := w1.(writers := 0, pipe := 1);
    var w3 := w2.(consumer := Draining(Second));
    var w4 := w3.(pipe := 0);
    var w5 := w4.(consumer := Splicing(Second));
    assert Step(capacity, w5, Splice) == t && Leads(capacity, t, [], t);
    Prepend(capacity, w5, Splice, [], t);
    Prepend(capacity, w4, Drained, [Splice] + [], t);
    Prepend(capacity, w3, Read(1), [Drained] + ([Splice] + []), t);
    Prepend(capacity, w2, Select, [Read(1)] + ([Drained] + ([Splice] + [])), t);
    Prepend(capacity, w1, Write, [Select] + ([Read(1)] + ([Drained] + ([Splice] + []))), t);
    Prepend(capacity, w, Push(e), [Write] + ([Select] + ([Read(1)] + ([Drained] + ([Splice] + [])))), t);
    assert [Push(e)] + ([Write] + ([Select] + ([Read(1)] + ([Drained] + ([Splice] + [])))))
           == [Push(e), Write, Select, Read(1), Drained, Splice];
  }

  /** And that moment comes: a producer pushed, an earlier call took the event, and the byte is
      still to be written. */
  lemma WaitMayReturnNothing(capacity: nat, e: Event) returns (acts: seq<Action>, s: State)
    requires capacity > 0
    ensures Leads(capacity, Init(), acts, s) && FoundNothing(s) && !EndsWithSome(capacity, s)
  {
    s := State([], 0, 1, Blocked, [], [e], [e]);
    var s1 := Step(capacity, Init(), Push(e));
    var s2 := Step(capacity, s1, BeginFlush);
    var s3 := Step(capacity, s2, Drained);
    var s4 := Step(capacity, s3, Splice);
    var s5 := Step(capacity, s4, BeginWait);
    var s6 := Step(capacity, s5, Drained);
    assert Step(capacity, s6, Splice) == s && Leads(capacity, s, [], s);
    Prepend(capacity, s6, Splice, [], s);
    acts := [Splice] + [];
    Prepend(capacity, s5, Drained, acts, s);
    acts := [Drained] + acts;
    Prepend(capacity, s4, BeginWait, acts, s);
    acts := [BeginWait] + acts;
    Prepend(capacity, s3, Splice, acts, s);
    acts := [Splice] + acts;
    Prepend(capacity, s2, Drained, acts, s);
    acts := [Drained] + acts;
    Prepend(capacity, s1, BeginFlush, acts, s);
    acts := [BeginFlush] + acts;
    Prepend(capacity, Init(), Push(e), acts, s);
    acts := [Push(e)] + acts;
    WaitReturnsSome(capacity, s);
  }
}
