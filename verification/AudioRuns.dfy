/** Whole runs of the engine: the order in which files are played. */
module AudioRuns {
  import opened Audio
  import opened Plist

  // ---------- a shuffled run ----------

  function Zeros(n: nat): (r: seq<nat>)
    ensures |r| == n
  {
    seq(n, i => 0)
  }

  /** From the start of one track to the start of the next, without a request to go back. */
  ghost predicate Follows(s: State, t: State, o: Options) {
    && s.pos >= 0
    && exists next: bool, rs: seq<nat>, rs': seq<nat> ::
         |rs| >= |s.playlist| && |rs'| >= |s.playlist| && t == GoTo(Begun(s), o, Request(next, false), rs, rs')
  }

  ghost predicate IsRun(run: seq<State>, o: Options) {
    |run| > 0 && forall i :: 0 <= i < |run| - 1 ==> Follows(run[i], run[i + 1], o)
  }

  /** A state of a shuffled run: at the `i`-th track of the mix, or behind the last. */
  ghost predicate Mixing(s: State, mix: seq<Item>, i: int) {
    && s.curr == Mixed && s.shuffled == mix && s.before == "" && !s.startedInQueue && !Playable(s.queue)
    && (i < |mix| ==> s.pos == i)
    && (i >= |mix| ==> s.pos == -1)
  }

  lemma FindPure(items: seq<Item>, i: nat)
    requires Pure(items) && i < |items|
    ensures Find(items, items[i].file) == i
  {
    hide Find;
    assert HasLive(items, items[i].file);
  }

  lemma NextPure(items: seq<Item>, i: int)
    requires Pure(items) && -1 <= i < |items|
    ensures NextOf(items, i) == if i + 1 < |items| then i + 1 else -1
    ensures items != [] ==> Playable(items)
  {
  }

  lemma MixStep(s: State, t: State, o: Options, mix: seq<Item>, i: nat)
    requires o.shuffle && o.autoNext && !o.repeat
    requires Pure(mix) && AllNamed(mix) && i < |mix| && Mixing(s, mix, i) && Follows(s, t, o)
    ensures Mixing(t, mix, i + 1)
  {
    hide Find, NextOf, Remixed, Fronted, Pure;
    FindPure(mix, i);
    NextPure(mix, i);
    NextPure(mix, -1);
  }

  /** At the first track of the mix, as audio_play leaves it: a name and a mark may be left from a
      queue that was stopped. */
  ghost predicate MixBegun(s: State, mix: seq<Item>) {
    && s.curr == Mixed && s.shuffled == mix && s.pos == 0 && !Playable(s.queue)
    && Pure(mix) && AllNamed(mix) && mix != []
  }

  /** The track of the mix that comes second. */
  function Second(s: State, o: Options): int {
    if s.startedInQueue then 0
    else Find(s.shuffled, if s.before != "" && o.queueReturn then s.before else s.File()) + 1
  }

  lemma FirstStep(s: State, t: State, o: Options, mix: seq<Item>)
    requires o.shuffle && o.autoNext && !o.repeat && MixBegun(s, mix) && Follows(s, t, o)
    ensures Mixing(t, mix, Second(s, o))
  {
    hide Find, NextOf, Remixed, Fronted, Pure;
    FindPure(mix, 0);
    NextPure(mix, -1);
    NextPure(mix, 0);
    NextPure(mix, Find(mix, s.before));
  }

  /** The run from there on: after the first track, the mix from the second one. */
  lemma {:induction false} MixRun(run: seq<State>, o: Options, mix: seq<Item>, i: nat)
    requires o.shuffle && o.autoNext && !o.repeat && IsRun(run, o)
    requires MixBegun(run[0], mix) && 0 < i < |run|
    ensures Second(run[0], o) + i - 1 <= |mix| && Mixing(run[i], mix, Second(run[0], o) + i - 1)
  {
    hide Mixing, Follows, MixBegun, Second;
    var k := Second(run[0], o);
    assert Follows(run[i - 1], run[i - 1 + 1], o);
    SecondIsTrack(run[0], mix, o);
    if i == 1 {
      FirstStep(run[0], run[1], o, mix);
    } else {
      MixRun(run, o, mix, i - 1);
      if k + i - 2 < |mix| {
        MixStep(run[i - 1], run[i], o, mix, k + i - 2);
      } else {
        Stopped(run[i - 1], run[i], o, mix, k + i - 2);
      }
    }
  }

  lemma SecondIsTrack(s: State, mix: seq<Item>, o: Options)
    requires MixBegun(s, mix)
    ensures 0 <= Second(s, o) <= |mix| && Pure(mix) && AllNamed(mix)
  {
    hide Find, Pure;
  }

  lemma Stopped(s: State, t: State, o: Options, mix: seq<Item>, i: int)
    requires Mixing(s, mix, i) && i >= |mix|
    ensures !Follows(s, t, o)
  {
  }

  /** The copy holds one item for each live one. */
  lemma {:induction false} CattedCount(b: seq<Item>)
    requires Distinct(b)
    ensures |Catted([], b)| == Count(b).live
  {
    hide Count, Weight, Find, HasLive;
    if b == [] {
      CountNone();
    } else {
      var front, x := b[..|b| - 1], b[|b| - 1];
      CattedCount(front);
      CountLiveStep(b);
      if x.Live() && HasLive(front, x.file) {
        NotTwice(b);
      }
      CattedNames([], front, x.file);
      NoneLive(x.file);
    }
  }

  lemma NotTwice(b: seq<Item>)
    requires Distinct(b) && b != [] && b[|b| - 1].Live()
    ensures !HasLive(b[..|b| - 1], b[|b| - 1].file)
  {
  }

  lemma RemixedCount(playlist: seq<Item>, rs: seq<nat>)
    requires Distinct(playlist) && |rs| >= |playlist|
    ensures |Remixed(playlist, rs)| == Count(playlist).live
  {
    hide Count, Shuffled, Catted, Distinct;
    CattedCount(playlist);
    CattedLength([], playlist);
  }

  /** The run plays every live file once, `f` first, and then it is over. */
  ghost predicate PlaysAll(run: seq<State>, playlist: seq<Item>, f: string, n: int) {
    && 0 < |run| <= n + 1
    && (forall i :: 0 <= i < |run| ==> (run[i].pos == -1 <==> i == n))
    && run[0].File() == f
    && (forall i :: 0 <= i < |run| && i < n ==> HasLive(playlist, run[i].File()))
    && (forall i, j :: 0 <= i < j < |run| && j < n ==> run[i].File() != run[j].File())
    && (|run| == n + 1 ==> forall g :: HasLive(playlist, g) ==> exists i :: 0 <= i < n && run[i].File() == g)
  }

  /** Nothing is left from a queue that was stopped, or nothing that turns the run from `f`. */
  predicate NothingLeft(s: State, f: string, o: Options) {
    !s.startedInQueue && (s.before == "" || !o.queueReturn || s.before == f)
  }

  /** The runs that audio_play starts from `f`, with an empty queue and an unedited playlist. */
  ghost predicate RunsFrom(s: State, f: string, o: Options, rs: seq<nat>, run: seq<State>)
    requires |rs| >= |s.playlist|
  {
    IsRun(run, o) && run[0] == Play(s, f, o, rs)
  }

  /** With Shuffle and AutoNext on and Repeat off: every such run plays every live file once, `f`
      first, exactly when nothing is left from a queue that was stopped. */
  lemma ShuffleRunPlaysAll(s: State, f: string, o: Options, rs: seq<nat>)
    requires Sound(s) && !Playable(s.queue) && HasLive(s.playlist, f) && |rs| >= |s.playlist|
    requires o.shuffle && o.autoNext && !o.repeat
    ensures NothingLeft(s, f, o) <==>
            forall run :: RunsFrom(s, f, o, rs, run) ==> PlaysAll(run, s.playlist, f, Count(s.playlist).live)
  {
    hide Count, HasLive, Sound, Playable, Play, PlaysAll, Second, RunsFrom;
    var t, n := Play(s, f, o, rs), Count(s.playlist).live;
    FirstOfMix(s, f, o, rs);
    SecondIsNext(s, f, o, rs);
    if NothingLeft(s, f, o) {
      forall run | RunsFrom(s, f, o, rs, run) ensures PlaysAll(run, s.playlist, f, n) {
        OrderedRun(s, f, o, rs, run);
      }
    } else {
      var run := StrayRun(t, t.shuffled, s.playlist, f, o);
      assert RunsFrom(s, f, o, rs, run) by { RunBegins(s, f, o, rs, run); }
    }
  }

  lemma RunBegins(s: State, f: string, o: Options, rs: seq<nat>, run: seq<State>)
    requires |rs| >= |s.playlist| && IsRun(run, o) && run[0] == Play(s, f, o, rs)
    ensures RunsFrom(s, f, o, rs, run)
  {
  }

  lemma OrderedRun(s: State, f: string, o: Options, rs: seq<nat>, run: seq<State>)
    requires Sound(s) && !Playable(s.queue) && HasLive(s.playlist, f) && |rs| >= |s.playlist|
    requires o.shuffle && o.autoNext && !o.repeat && NothingLeft(s, f, o) && RunsFrom(s, f, o, rs, run)
    ensures PlaysAll(run, s.playlist, f, Count(s.playlist).live)
  {
    hide Count, HasLive, Follows, Sound, Playable, Play, PlaysAll, Second, Mixing;
    FirstOfMix(s, f, o, rs);
    SecondIsNext(s, f, o, rs);
    var mix := run[0].shuffled;
    forall i | 0 < i < |run| ensures Mixing(run[i], mix, i) {
      MixRun(run, o, mix, i);
    }
    if |run| > 1 {
      MixRun(run, o, mix, |run| - 1);
    }
    MixPlaysAll(run, mix, s.playlist, f);
  }

  lemma SecondIsNext(s: State, f: string, o: Options, rs: seq<nat>)
    requires Sound(s) && !Playable(s.queue) && HasLive(s.playlist, f) && |rs| >= |s.playlist| && o.shuffle
    ensures Second(Play(s, f, o, rs), o) == 1 <==> NothingLeft(s, f, o)
  {
    hide Count, Find, HasLive, Sound, Playable, Remixed, Fronted, Pure;
    FirstOfMix(s, f, o, rs);
    FindPure(Play(s, f, o, rs).shuffled, 0);
  }

  lemma MixPlaysAll(run: seq<State>, mix: seq<Item>, playlist: seq<Item>, f: string)
    requires |run| > 0 && SameFiles(mix, playlist) && mix != [] && mix[0].file == f
    requires |run| - 1 <= |mix| && MixBegun(run[0], mix) && forall i :: 0 < i < |run| ==> Mixing(run[i], mix, i)
    ensures PlaysAll(run, playlist, f, |mix|)
  {
    hide HasLive, Playable;
    forall i | 0 <= i < |mix| ensures HasLive(playlist, mix[i].file) {
      LiveHere(mix, i);
      assert HasLive(mix, mix[i].file) <==> HasLive(playlist, mix[i].file);
    }
    if |run| == |mix| + 1 {
      forall g | HasLive(playlist, g) ensures exists i :: 0 <= i < |mix| && run[i].File() == g {
        assert HasLive(mix, g) <==> HasLive(playlist, g);
        var i := WhereLive(mix, g);
        assert run[i].File() == g;
      }
    }
  }

  /** The rest of a run, from the `i`-th track of the mix to its end. */
  lemma {:induction false} RestOfRun(s: State, o: Options, mix: seq<Item>, i: nat) returns (run: seq<State>)
    requires o.shuffle && o.autoNext && !o.repeat && Pure(mix) && AllNamed(mix)
    requires i <= |mix| && Mixing(s, mix, i)
    ensures IsRun(run, o) && run[0] == s && |run| == |mix| - i + 1 && run[|run| - 1].pos == -1
    decreases |mix| - i
  {
    hide Follows, Pure, AllNamed, Playable;
    if i == |mix| {
      run := [s];
    } else {
      var t := Onward(s, o);
      MixStep(s, t, o, mix, i);
      var rest := RestOfRun(t, o, mix, i + 1);
      run := [s] + rest;
      LongerRun(s, rest, o);
    }
  }

  lemma LongerRun(s: State, rest: seq<State>, o: Options)
    requires IsRun(rest, o) && Follows(s, rest[0], o)
    ensures IsRun([s] + rest, o)
  {
    hide Follows;
    var run := [s] + rest;
    forall i | 0 <= i < |run| - 1 ensures Follows(run[i], run[i + 1], o) {
      if i > 0 {
        assert Follows(rest[i - 1], rest[i - 1 + 1], o);
      }
    }
  }

  lemma Onward(s: State, o: Options) returns (t: State)
    requires s.pos >= 0
    ensures Follows(s, t, o)
  {
    hide GoTo;
    var z := Zeros(|s.playlist|);
    t := GoTo(Begun(s), o, Request(true, false), z, z);
  }

  /** A run that does not go on with the second track of the mix: it plays the first file twice,
      or it ends too early. */
  lemma StrayRun(s: State, mix: seq<Item>, playlist: seq<Item>, f: string, o: Options) returns (run: seq<State>)
    requires o.shuffle && o.autoNext && !o.repeat && MixBegun(s, mix) && Second(s, o) != 1
    ensures IsRun(run, o) && run[0] == s && !PlaysAll(run, playlist, f, |mix|)
  {
    hide Follows, Second, Playable, Pure, AllNamed;
    SecondIsTrack(s, mix, o);
    var k := Second(s, o);
    var t := Onward(s, o);
    FirstStep(s, t, o, mix);
    if k == 0 {
      run := [s, t];
      assert t.pos == 0 && run[1].File() == run[0].File();
    } else {
      var rest := RestOfRun(t, o, mix, k);
      run := [s] + rest;
      LongerRun(s, rest, o);
      var last := |mix| - k + 1;
      assert run[last] == rest[|rest| - 1] && run[last].pos == -1 && last < |mix|;
    }
  }

  /** When playing has once begun in the queue and was stopped there, the second track is the
      first again. */
  lemma MarkLeft(s: State, f: string, o: Options, rs: seq<nat>, t: State)
    requires Sound(s) && !Playable(s.queue) && HasLive(s.playlist, f) && |rs| >= |s.playlist|
    requires o.shuffle && o.autoNext && !o.repeat && s.startedInQueue && Follows(Play(s, f, o, rs), t, o)
    ensures Play(s, f, o, rs).File() == t.File() == f
  {
    hide Count, HasLive, Sound, Playable, Play, Pure, AllNamed, Follows;
    var u := Play(s, f, o, rs);
    FirstOfMix(s, f, o, rs);
    FirstStep(u, t, o, u.shuffled);
  }

  /** Such a state comes about: for all names and draws, with two files in the playlist and one in
      the queue, playing from the queue and then from the first file plays that one twice. */
  lemma StoppedQueueRepeats(f: string, g: string, q: string, o: Options, next: bool, rs: seq<nat>, rs': seq<nat>)
    requires f != "" && g != "" && f != g && q != "" && o.shuffle && o.autoNext && !o.repeat
    requires |rs| >= 2 && |rs'| >= 2
    ensures var s := State([Bare(f), Bare(g)], [], [Bare(q)], Regular, -1, "", "", false);
      var t := Play(s, "", o, rs);
      && Sound(s) && t.File() == q && !NothingLeft(t, f, o)
      && var u := Play(t, f, o, rs);
         u.File() == f && u.pos >= 0 && GoTo(Begun(u), o, Request(next, false), rs, rs').File() == f
  {
    hide Remixed, Find, GoTo, Play, Sound, Playable, HasLive;
    var s := State([Bare(f), Bare(g)], [], [Bare(q)], Regular, -1, "", "", false);
    TwoFiles(s, f, g, q, o, rs);
    var t := Play(s, "", o, rs);
    var u := Play(t, f, o, rs);
    FirstOfMix(t, f, o, rs);
    PlayKeeps(t, f, o, rs);
    assert |u.playlist| == 2;
    MarkLeft(t, f, o, rs, GoTo(Begun(u), o, Request(next, false), rs, rs'));
  }

  lemma TwoFiles(s: State, f: string, g: string, q: string, o: Options, rs: seq<nat>)
    requires f != "" && g != "" && f != g && q != "" && |rs| >= 2
    requires s == State([Bare(f), Bare(g)], [], [Bare(q)], Regular, -1, "", "", false)
    ensures var t := Play(s, "", o, rs);
      && Sound(s) && Sound(t) && t.playlist == s.playlist && HasLive(t.playlist, f) && !Playable(t.queue)
      && t.startedInQueue && t.File() == q
  {
    hide Remixed, Find;
    assert NextOf(s.queue, -1) == 0;
    PlayKeeps(s, "", o, rs);
    assert s.playlist[0].Live();
  }

  lemma LiveHere(items: seq<Item>, i: nat)
    requires i < |items| && items[i].Live()
    ensures HasLive(items, items[i].file)
  {
  }

  lemma WhereLive(items: seq<Item>, f: string) returns (i: nat)
    requires HasLive(items, f)
    ensures i < |items| && items[i].Live() && items[i].file == f
  {
    i :| i < |items| && items[i].Live() && items[i].file == f;
  }

  lemma FirstOfMix(s: State, f: string, o: Options, rs: seq<nat>)
    requires Sound(s) && !Playable(s.queue) && o.shuffle
    requires HasLive(s.playlist, f) && |rs| >= |s.playlist|
    ensures var t := Play(s, f, o, rs);
      && MixBegun(t, t.shuffled) && t.shuffled[0].file == f
      && t.startedInQueue == s.startedInQueue && t.before == s.before
      && SameFiles(t.shuffled, s.playlist) && |t.shuffled| == Count(s.playlist).live
  {
    hide Count, Find, NextOf, Remixed, Fronted, Playable, HasLive, Distinct;
    var r := Remixed(s.playlist, rs);
    RemixedRight(s.playlist, rs);
    RemixedCount(s.playlist, rs);
    FrontedRight(r, f);
    SameTrans(Fronted(r, f), r, s.playlist);
    assert HasLive(r, f) <==> HasLive(s.playlist, f);
    NamedLive(s.playlist, f);
    FindPure(Fronted(r, f), 0);
  }

  lemma NamedLive(items: seq<Item>, f: string)
    requires AllNamed(items) && HasLive(items, f)
    ensures f != ""
  {
  }

  // ---------- previous after next ----------

  /** In the middle of the current list, with nothing queued. */
  ghost predicate OnList(s: State, o: Options) {
    && Sound(s) && !Playable(s.queue)
    && s.curr == (if o.shuffle then Mixed else Regular)
    && 0 <= s.pos < |s.Current()| && s.Current()[s.pos].Live()
  }

  lemma FindLive(items: seq<Item>, i: nat)
    requires Distinct(items) && i < |items| && items[i].Live()
    ensures Find(items, items[i].file) == i
  {
    hide Find;
    assert HasLive(items, items[i].file);
  }

  lemma LivePlayable(items: seq<Item>, i: nat)
    requires i < |items| && items[i].Live()
    ensures Playable(items)
  {
    hide NextOf;
  }

  /** Where the next step starts from: usually the present place, but a mark or a name can be left
      from a queue that was stopped. */
  function From(s: State, o: Options): (r: int)
    ensures -1 <= r < |s.Current()|
    ensures r >= 0 ==> s.Current()[r].Live()
  {
    if s.startedInQueue then -1
    else Find(s.Current(), if s.before != "" && o.queueReturn then s.before else s.File())
  }

  lemma StepOn(s: State, o: Options, rs: seq<nat>, rs': seq<nat>)
    requires OnList(s, o) && |rs| >= |s.playlist| && |rs'| >= |s.playlist|
    ensures var t, n := GoTo(Begun(s), o, Request(true, false), rs, rs'), NextOf(s.Current(), From(s, o));
      && Sound(t) && t.queue == s.queue && t.curr == s.curr && t.before == "" && !t.startedInQueue
      && (n != -1 ==> t.pos == n && t.Current() == s.Current())
      && (n == -1 && !o.repeat ==> t.pos == -1)
      && (n == -1 && o.repeat ==>
            && t.Current() == (if o.shuffle then Remixed(s.playlist, rs') else s.Current())
            && t.pos == NextOf(t.Current(), -1))
  {
    hide Remixed, Fronted, Find, NextOf, HasLive, AllNamed, Distinct, SameFiles;
    FindHere(s, o);
    GoToKeeps(Begun(s), o, Request(true, false), rs, rs');
  }

  lemma FindHere(s: State, o: Options)
    requires OnList(s, o)
    ensures Find(s.Current(), s.File()) == s.pos && s.File() != ""
    ensures Playable(s.Current()) && (o.shuffle ==> Playable(s.shuffled))
  {
    hide Find, NextOf, HasLive;
    FindLive(s.Current(), s.pos);
    LivePlayable(s.Current(), s.pos);
    SameSome(s.shuffled, s.playlist);
  }

  lemma StepBackFrom(s: State, o: Options, rs: seq<nat>)
    requires OnList(s, o) && s.before == "" && !s.startedInQueue && |rs| >= |s.playlist|
    ensures var u, p := GoTo(Begun(s), o, Request(false, true), rs, rs), PrevOf(s.Current(), s.pos);
      u.Current() == s.Current() && u.pos == if p == -1 && o.repeat then LastOf(s.Current()) else p
  {
    hide Remixed, Fronted, Find, NextOf, PrevOf, LastOf, HasLive, AllNamed, Distinct, SameFiles;
    FindHere(s, o);
  }

  lemma PrevNext(items: seq<Item>, i: int)
    requires -1 <= i < |items| && (i >= 0 ==> items[i].Live()) && NextOf(items, i) != -1
    ensures PrevOf(items, NextOf(items, i)) == i
  {
    hide NextOf, PrevOf;
    assert PrevOf(items, NextOf(items, i)) >= i;
  }

  lemma LastIs(items: seq<Item>, i: nat)
    requires i < |items| && items[i].Live()
    ensures LastOf(items) == i <==> NextOf(items, i) == -1
  {
    hide NextOf, PrevOf;
    var p := PrevOf(items, |items|);
    assert p >= i;
  }

  /** When going back after going on returns to the same place: there is a next file after it, or
      Repeat goes round it and no mix is made anew; or the step started over from the first
      file, and Repeat goes back from there to the present place, the last. */
  ghost predicate WayBack(s: State, o: Options, rs: seq<nat>)
    requires |rs| >= |s.playlist| && s.pos >= 0
  {
    var at := From(s, o);
    if at == s.pos then
      NextOf(s.Current(), at) != -1
      || (o.repeat && (o.shuffle ==> Remixed(s.playlist, rs) == s.shuffled))
    else at == -1 && o.repeat && NextOf(s.Current(), s.pos) == -1
  }

  /** Going on and then back leads to the same place of the same list exactly then. */
  lemma PrevUndoesNext(s: State, o: Options, rs: seq<nat>, rs': seq<nat>)
    requires OnList(s, o) && |rs| >= |s.playlist| && |rs'| >= |s.playlist|
    ensures var t := GoTo(Begun(s), o, Request(true, false), rs, rs');
      && t.playlist == s.playlist
      && (t.pos >= 0 && (var u := GoTo(Begun(t), o, Request(false, true), rs, rs);
                         u.pos == s.pos && u.Current() == s.Current())
          <==> WayBack(s, o, rs'))
  {
    hide Remixed, NextOf, PrevOf, LastOf, GoTo, From, Sound, Distinct, Playable, Pure;
    var t, at := GoTo(Begun(s), o, Request(true, false), rs, rs'), From(s, o);
    var n := NextOf(s.Current(), at);
    StepOn(s, o, rs, rs');
    GoToSamePlaylist(s, o, rs, rs');
    LastIs(s.Current(), s.pos);
    if n != -1 {
      StepBackFrom(t, o, rs);
      PrevNext(s.Current(), at);
    } else if o.repeat {
      assert at >= 0 by { AnyNext(s.Current(), s.pos); }
      LastIs(s.Current(), at);
      OnNewList(s, t, o, rs');
      StepBackFrom(t, o, rs);
      PrevNext(t.Current(), -1);
    }
  }

  lemma AnyNext(items: seq<Item>, i: nat)
    requires i < |items| && items[i].Live()
    ensures NextOf(items, -1) != -1
  {
    hide NextOf;
  }

  lemma GoToSamePlaylist(s: State, o: Options, rs: seq<nat>, rs': seq<nat>)
    requires OnList(s, o) && |rs| >= |s.playlist| && |rs'| >= |s.playlist|
    ensures GoTo(Begun(s), o, Request(true, false), rs, rs').playlist == s.playlist
  {
    hide AllNamed, Distinct, SameFiles, Remixed, NextOf;
    GoToKeeps(Begun(s), o, Request(true, false), rs, rs');
  }

  /** When Repeat goes round, the first item of the list, mixed anew or not, is live. */
  lemma OnNewList(s: State, t: State, o: Options, rs: seq<nat>)
    requires OnList(s, o) && |rs| >= |s.playlist| && Sound(t) && t.queue == s.queue && t.curr == s.curr
    requires t.Current() == (if o.shuffle then Remixed(s.playlist, rs) else s.Current())
    requires t.pos == NextOf(t.Current(), -1)
    ensures OnList(t, o)
  {
    hide Remixed, NextOf, HasLive, AllNamed, Distinct, SameFiles;
    FindHere(s, o);
    RemixedRight(s.playlist, rs);
    SameSome(s.shuffled, s.playlist);
    SameSome(Remixed(s.playlist, rs), s.playlist);
  }

  // ---------- the queue ----------

  /** A step comes with the draws that it would make; if they run out, zeros follow. */
  datatype Event = Enqueue(file: string) | Advance(next: bool, rs: seq<nat>, rs': seq<nat>)

  /** A file whose playing began, and whether it came from the queue. */
  datatype Played = Played(file: string, queued: bool)

  /** A run so far: the engine's state, the files played and those that the queue took. */
  datatype Story = Story(s: State, log: seq<Played>, taken: seq<string>)

  /** Without the Shuffle option no draw matters. */
  lemma NoDraws(s: State, o: Options, q: Request, rs: seq<nat>, rs': seq<nat>)
    requires !o.shuffle && |rs| >= |s.playlist| && |rs'| >= |s.playlist|
    ensures GoTo(s, o, q, rs, rs') == GoTo(s, o, q, Zeros(|s.playlist|), Zeros(|s.playlist|))
  {
    hide Remixed, Find, NextOf, PrevOf;
  }

  function Happen(st: Story, e: Event, o: Options): Story {
    match e
    case Enqueue(f) =>
      if Find(st.s.queue, f) != -1 then st
      else st.(s := st.s.(queue := Extended(st.s.queue, f)), taken := st.taken + [f])
    case Advance(next, rs, rs') =>
      if st.s.pos < 0 then st
      else
        var z := Zeros(|st.s.playlist|);
        Moved(st, GoTo(Begun(st.s), o, Request(next, false), rs + z, rs' + z))
  }

  function Moved(st: Story, t: State): Story {
    st.(s := t, log := if t.pos >= 0 then st.log + [Played(t.File(), t.curr == Queued)] else st.log)
  }

  /** A step whose draws are all zero. */
  function Went(st: Story, next: bool, o: Options): Story {
    if st.s.pos < 0 then st
    else
      var z := Zeros(|st.s.playlist|);
      Moved(st, GoTo(Begun(st.s), o, Request(next, false), z, z))
  }

  lemma DrawsDoNotMatter(st: Story, next: bool, rs: seq<nat>, rs': seq<nat>, o: Options)
    requires !o.shuffle
    ensures Happen(st, Advance(next, rs, rs'), o) == Went(st, next, o)
  {
    hide GoTo, Moved;
    if st.s.pos >= 0 {
      var z := Zeros(|st.s.playlist|);
      NoDraws(Begun(st.s), o, Request(next, false), rs + z, rs' + z);
    }
  }

  function Exec(s: State, events: seq<Event>, o: Options): Story {
    if events == [] then Story(s, if s.pos >= 0 then [Played(s.File(), false)] else [], LiveNames(s.queue))
    else Happen(Exec(s, events[..|events| - 1], o), events[|events| - 1], o)
  }

  /** The names of the live items, in order. */
  function LiveNames(items: seq<Item>): seq<string> {
    if items == [] then []
    else LiveNames(items[..|items| - 1]) + if items[|items| - 1].deleted then [] else [items[|items| - 1].file]
  }

  /** The files played from the queue, and those from the list. */
  function Chosen(log: seq<Played>, queued: bool): seq<string> {
    if log == [] then []
    else Chosen(log[..|log| - 1], queued) + if log[|log| - 1].queued == queued then [log[|log| - 1].file] else []
  }

  /** Where a run begins: the list, its first file, and what may be left from a queue that was
      stopped before, the name to return to and the mark to start over. */
  datatype Origin = Origin(items: seq<Item>, first: string, before: string, anew: bool)

  function OriginOf(s: State): Origin {
    Origin(s.playlist, s.File(), s.before, s.startedInQueue)
  }

  /** The name that the next step on the list starts from, after the files of `base`. */
  function Name(g: Origin, base: seq<string>): string
    requires base != []
  {
    if |base| == 1 && g.before != "" then g.before else base[|base| - 1]
  }

  /** The position of the file that the list plays after those of `base`, or -1. */
  function NextFile(g: Origin, base: seq<string>, repeat: bool): (r: int)
    requires base != []
    ensures -1 <= r < |g.items|
  {
    var n := NextOf(g.items, if |base| == 1 && g.anew then -1 else Find(g.items, Name(g, base)));
    if n == -1 && repeat then NextOf(g.items, -1) else n
  }

  lemma {:induction false} LiveNamesTake(items: seq<Item>, i: nat)
    requires i < |items| && items[i].Live() && forall k :: 0 <= k < i ==> items[k].deleted
    ensures LiveNames(items) == [items[i].file] + LiveNames(items[i := items[i].(deleted := true)])
  {
    var n, now := |items| - 1, items[i := items[i].(deleted := true)];
    if i == n {
      assert now[..n] == items[..n];
      NoNames(items[..n]);
    } else {
      assert now[..n] == items[..n][i := items[i].(deleted := true)];
      LiveNamesTake(items[..n], i);
    }
  }

  lemma {:induction false} NoNames(items: seq<Item>)
    requires forall k :: 0 <= k < |items| ==> items[k].deleted
    ensures LiveNames(items) == []
  {
    if items != [] {
      NoNames(items[..|items| - 1]);
    }
  }

  lemma LiveNamesAppend(items: seq<Item>, x: Item)
    ensures LiveNames(items + [x]) == LiveNames(items) + if x.deleted then [] else [x.file]
  {
    assert (items + [x])[..|items|] == items;
  }

  lemma ChosenAppend(log: seq<Played>, p: Played, queued: bool)
    ensures Chosen(log + [p], queued) == Chosen(log, queued) + if p.queued == queued then [p.file] else []
  {
    assert (log + [p])[..|log|] == log;
  }

  /** The successive files of the list alone. */
  ghost predicate Plain(g: Origin, base: seq<string>, repeat: bool) {
    forall k :: 0 < k < |base| ==> FollowedBy(g, base[..k], base[k], repeat)
  }

  ghost predicate FollowedBy(g: Origin, base: seq<string>, f: string, repeat: bool) {
    base != [] && NextFile(g, base, repeat) >= 0 && g.items[NextFile(g, base, repeat)].file == f
  }

  ghost predicate StartsOnList(s: State) {
    Sound(s) && s.curr == Regular && 0 <= s.pos < |s.playlist| && s.playlist[s.pos].Live()
  }

  /** What the engine remembers in the middle of a run, in the queue or on the list. */
  ghost predicate Remembers(s: State, g: Origin, base: seq<string>)
    requires base != []
  {
    && s.startedInQueue == (g.anew && |base| == 1)
    && (s.curr == Queued ==> s.before == Name(g, base))
    && (s.curr != Queued ==>
          s.curr == Regular && s.File() == base[|base| - 1] && s.before == if |base| == 1 then g.before else "")
  }

  /** What holds all along a run. */
  ghost predicate Told(st: Story, g: Origin, o: Options) {
    var s, base := st.s, Chosen(st.log, false);
    && Sound(s) && s.playlist == g.items
    && Chosen(st.log, true) + LiveNames(s.queue) == st.taken
    && base != [] && base[0] == g.first && Plain(g, base, o.repeat)
    && HasLive(g.items, base[|base| - 1])
    && (s.pos < 0 ==> NextFile(g, base, o.repeat) == -1)
    && (s.pos >= 0 ==> Remembers(s, g, base))
  }

  lemma ToldFirst(s: State, o: Options)
    requires StartsOnList(s)
    ensures Told(Exec(s, [], o), OriginOf(s), o)
    ensures Chosen(Exec(s, [], o).log, false) == [s.File()] && Chosen(Exec(s, [], o).log, true) == []
  {
    hide NextOf, Find, AllNamed, Distinct, SameFiles, LiveNames;
    ChosenAppend([], Played(s.File(), false), false);
    ChosenAppend([], Played(s.File(), false), true);
    LiveHere(s.playlist, s.pos);
  }

  lemma ToldEnqueue(st: Story, f: string, g: Origin, o: Options)
    requires Told(st, g, o) && f != ""
    ensures Told(Happen(st, Enqueue(f), o), g, o)
  {
    hide NextOf, Find, HasLive, Chosen, Plain, NextFile, LiveNames, Sound;
    if Find(st.s.queue, f) == -1 {
      LiveNamesAppend(st.s.queue, Bare(f));
      SoundQueueing(st.s, f);
    }
  }

  lemma SoundQueueing(s: State, f: string)
    requires Sound(s) && Find(s.queue, f) == -1 && f != ""
    ensures Sound(s.(queue := s.queue + [Bare(f)]))
  {
    hide HasLive, Find, SameFiles;
    FindNone(s.queue, f);
  }

  /** One step of the queue, from the list or not. */
  lemma QueueStep(s: State, g: Origin, base: seq<string>, next: bool, o: Options)
    requires Sound(s) && o.autoNext && s.pos >= 0 && Playable(s.queue)
    requires base != [] && base[|base| - 1] != "" && Remembers(s, g, base)
    ensures var z := Zeros(|s.playlist|);
      var i := NextOf(s.queue, -1);
      var t := GoTo(Begun(s), o, Request(next, false), z, z);
      && t == s.(curr := Queued, before := Name(g, base), fname := Begun(s).fname, pos := i,
                 queue := s.queue[i := s.queue[i].(deleted := true)])
      && t.File() == s.queue[i].file
  {
    hide NextOf, AllNamed, Distinct, SameFiles, Returned, Forward, Backward;
  }

  lemma ToldFromQueue(st: Story, next: bool, g: Origin, o: Options)
    requires Told(st, g, o) && o.autoNext && st.s.pos >= 0 && Playable(st.s.queue)
    ensures Told(Went(st, next, o), g, o)
  {
    hide Find, HasLive, Chosen, Plain, Sound, NextFile, GoTo, LiveNames, NextOf, Begun;
    var s, i, base := st.s, NextOf(st.s.queue, -1), Chosen(st.log, false);
    SoundNamed(s, base[|base| - 1]);
    QueueStep(s, g, base, next, o);
    SoundStep(s, next, o);
    LiveNamesTake(s.queue, i);
    ChosenAppend(st.log, Played(s.queue[i].file, true), false);
    ChosenAppend(st.log, Played(s.queue[i].file, true), true);
    var c, rest := Chosen(st.log, true), LiveNames(s.queue[i := s.queue[i].(deleted := true)]);
    assert c + ([s.queue[i].file] + rest) == (c + [s.queue[i].file]) + rest;
    assert Chosen(Went(st, next, o).log, false) == base;
  }

  lemma SoundStep(s: State, next: bool, o: Options)
    requires Sound(s) && s.pos >= 0
    ensures Sound(GoTo(Begun(s), o, Request(next, false), Zeros(|s.playlist|), Zeros(|s.playlist|)))
  {
    hide AllNamed, Distinct, SameFiles, GoTo;
    GoToKeeps(Begun(s), o, Request(next, false), Zeros(|s.playlist|), Zeros(|s.playlist|));
  }

  lemma SoundNamed(s: State, f: string)
    requires Sound(s)
    ensures HasLive(s.playlist, f) ==> f != ""
  {
    NamedLast(s.playlist, f);
  }

  lemma NamedLast(items: seq<Item>, f: string)
    ensures AllNamed(items) && HasLive(items, f) ==> f != ""
  {
  }

  /** One step of the list, back from the queue or not. */
  lemma ListStep(s: State, g: Origin, base: seq<string>, next: bool, o: Options)
    requires Sound(s) && s.playlist == g.items && o.autoNext && o.queueReturn && !o.shuffle
    requires s.pos >= 0 && !Playable(s.queue)
    requires base != [] && HasLive(g.items, base[|base| - 1]) && Remembers(s, g, base)
    ensures var z := Zeros(|s.playlist|);
      GoTo(Begun(s), o, Request(next, false), z, z) ==
      s.(curr := Regular, before := "", fname := Name(g, base), pos := NextFile(g, base, o.repeat),
         startedInQueue := false)
  {
    hide Remixed, Find, NextOf, AllNamed, Distinct, SameFiles, Playable;
    NamedLast(s.playlist, base[|base| - 1]);
    SomeLive(s.playlist);
  }

  lemma FindLast(items: seq<Item>, f: string)
    requires HasLive(items, f)
    ensures Find(items, f) != -1
  {
  }

  lemma OnListStory(st: Story, g: Origin, base: seq<string>, next: bool, o: Options)
    requires Sound(st.s) && st.s.playlist == g.items && o.autoNext && o.queueReturn && !o.shuffle
    requires st.s.pos >= 0 && !Playable(st.s.queue)
    requires base != [] && HasLive(g.items, base[|base| - 1]) && Remembers(st.s, g, base)
    ensures var n := NextFile(g, base, o.repeat);
      var t := st.s.(curr := Regular, before := "", fname := Name(g, base), pos := n, startedInQueue := false);
      var log := if n == -1 then st.log else st.log + [Played(g.items[n].file, false)];
      Went(st, next, o) == st.(s := t, log := log)
      && Sound(t)
  {
    hide Sound, GoTo, NextFile, Playable, Begun, HasLive, Remembers, Name;
    ListStep(st.s, g, base, next, o);
    SoundStep(st.s, next, o);
  }

  lemma ToldOnList(st: Story, next: bool, g: Origin, o: Options)
    requires Told(st, g, o) && o.autoNext && o.queueReturn && !o.shuffle
    requires st.s.pos >= 0 && !Playable(st.s.queue)
    ensures var now, base := Went(st, next, o), Chosen(st.log, false);
      var n := NextFile(g, base, o.repeat);
      && Told(now, g, o) && now.s.queue == st.s.queue
      && Chosen(now.log, true) == Chosen(st.log, true)
      && Chosen(now.log, false) == base + (if n == -1 then [] else [g.items[n].file])
      && (n == -1 <==> now.s.pos < 0)
  {
    hide Find, HasLive, Chosen, Sound, Went, LiveNames, NextOf, NextFile, Playable, Plain, Remembers, Name;
    var s, base := st.s, Chosen(st.log, false);
    var n := NextFile(g, base, o.repeat);
    OnListStory(st, g, base, next, o);
    if n != -1 {
      var now := Went(st, next, o);
      ChosenAppend(st.log, Played(g.items[n].file, false), false);
      ChosenAppend(st.log, Played(g.items[n].file, false), true);
      NextIsLive(g, base, o.repeat);
      PlainOn(g, base, o.repeat);
      ToldMore(st, now, g, g.items[n].file, o);
    }
  }

  /** One more file from the list. */
  lemma ToldMore(st: Story, now: Story, g: Origin, f: string, o: Options)
    requires Told(st, g, o) && Sound(now.s) && HasLive(g.items, f)
    requires now.s.playlist == g.items && !now.s.startedInQueue && now.s.queue == st.s.queue && now.taken == st.taken
    requires now.s.pos >= 0 && now.s.curr == Regular && now.s.before == "" && now.s.File() == f
    requires Chosen(now.log, true) == Chosen(st.log, true) && Chosen(now.log, false) == Chosen(st.log, false) + [f]
    requires Plain(g, Chosen(now.log, false), o.repeat)
    ensures Told(now, g, o)
  {
    hide Find, HasLive, Chosen, Sound, LiveNames, NextFile, Plain;
  }

  lemma PlainOn(g: Origin, base: seq<string>, repeat: bool)
    requires base != [] && Plain(g, base, repeat) && NextFile(g, base, repeat) != -1
    ensures Plain(g, base + [g.items[NextFile(g, base, repeat)].file], repeat)
  {
    hide NextFile, FollowedBy;
    var f := g.items[NextFile(g, base, repeat)].file;
    var more := base + [f];
    assert FollowedBy(g, base, f, repeat) by { FollowsOn(g, base, repeat); }
    forall k | 0 < k < |more| ensures FollowedBy(g, more[..k], more[k], repeat) {
      assert more[..k] == base[..k];
      assert k == |base| ==> base[..k] == base;
    }
  }

  lemma FollowsOn(g: Origin, base: seq<string>, repeat: bool)
    requires base != [] && NextFile(g, base, repeat) != -1
    ensures FollowedBy(g, base, g.items[NextFile(g, base, repeat)].file, repeat)
  {
    hide NextFile;
  }

  lemma NextIsLive(g: Origin, base: seq<string>, repeat: bool)
    requires base != [] && NextFile(g, base, repeat) != -1
    ensures HasLive(g.items, g.items[NextFile(g, base, repeat)].file)
  {
    hide Find, NextOf, Name;
  }

  ghost predicate Proper(events: seq<Event>) {
    forall i :: 0 <= i < |events| && events[i].Enqueue? ==> events[i].file != ""
  }

  lemma {:induction false} ToldRun(s: State, events: seq<Event>, o: Options)
    requires StartsOnList(s) && Proper(events) && o.autoNext && o.queueReturn && !o.shuffle
    ensures Told(Exec(s, events, o), OriginOf(s), o)
  {
    hide Told, Happen, Went, StartsOnList, NextOf, OriginOf;
    if events == [] {
      ToldFirst(s, o);
    } else {
      var st, e := Exec(s, events[..|events| - 1], o), events[|events| - 1];
      ToldRun(s, events[..|events| - 1], o);
      match e
      case Enqueue(f) => ToldEnqueue(st, f, OriginOf(s), o);
      case Advance(next, rs, rs') =>
        DrawsDoNotMatter(st, next, rs, rs', o);
        if st.s.pos < 0 {
          OverIsOver(st, next, o);
        } else if Playable(st.s.queue) {
          ToldFromQueue(st, next, OriginOf(s), o);
        } else {
          ToldOnList(st, next, OriginOf(s), o);
        }
    }
  }

  lemma OverIsOver(st: Story, next: bool, o: Options)
    requires st.s.pos < 0
    ensures Went(st, next, o) == st
  {
  }

  /** `k` tracks one after the other. */
  function Steps(k: nat): (r: seq<Event>)
    ensures |r| == k
  {
    seq(k, i => Advance(true, [], []))
  }

  /** The run with an empty queue plays the files of any plain row, one after the other. */
  lemma {:induction false} EmptyQueueRun(s: State, k: nat, base: seq<string>, o: Options)
    requires StartsOnList(s) && s.queue == [] && o.autoNext && o.queueReturn && !o.shuffle
    requires k < |base| && base[0] == s.File() && Plain(OriginOf(s), base, o.repeat)
    ensures var e := Exec(s, Steps(k), o);
      && Told(e, OriginOf(s), o) && e.s.queue == []
      && Chosen(e.log, true) == [] && Chosen(e.log, false) == base[..k + 1]
  {
    hide Told, Happen, Went, StartsOnList, NextOf, Chosen, NextFile, OriginOf;
    if k == 0 {
      ToldFirst(s, o);
    } else {
      EmptyQueueRun(s, k - 1, base, o);
      var e := Exec(s, Steps(k - 1), o);
      assert FollowedBy(OriginOf(s), base[..k], base[k], o.repeat);
      NotOver(e, OriginOf(s), o);
      ToldOnList(e, true, OriginOf(s), o);
      StepsMore(s, k - 1, o);
    }
  }

  lemma NotOver(e: Story, g: Origin, o: Options)
    requires Told(e, g, o)
    ensures Chosen(e.log, false) != []
    ensures NextFile(g, Chosen(e.log, false), o.repeat) != -1 ==> e.s.pos >= 0
    ensures e.s.queue == [] ==> !Playable(e.s.queue)
  {
  }

  /** With AutoNext and QueueNextSongReturn on and Shuffle off, whenever files are queued, and
      whatever a stopped queue has left: the files played from the list are those of the run
      with an empty queue, which is over when this one is; and the files played from the queue,
      followed by those still in it, are the files that it took, in their order. */
  lemma QueueErased(s: State, events: seq<Event>, o: Options)
    requires StartsOnList(s) && Proper(events) && o.autoNext && o.queueReturn && !o.shuffle
    ensures var st := Exec(s, events, o);
      var list := Chosen(st.log, false);
      && list != [] && Plain(OriginOf(s), list, o.repeat)
      && list == Chosen(Exec(s.(queue := []), Steps(|list| - 1), o).log, false)
      && Chosen(Exec(s.(queue := []), Steps(|list| - 1), o).log, true) == []
      && (st.s.pos < 0 ==> Exec(s.(queue := []), Steps(|list|), o).s.pos < 0)
      && Chosen(st.log, true) + LiveNames(st.s.queue) == st.taken
  {
    hide Exec, Happen, Went, StartsOnList, NextOf, Chosen, LiveNames;
    var st, s' := Exec(s, events, o), s.(queue := []);
    ToldRun(s, events, o);
    var list := Chosen(st.log, false);
    StartsAlso(s);
    EmptyQueueRun(s', |list| - 1, list, o);
    assert list[..|list|] == list;
    if st.s.pos < 0 {
      StepsMore(s', |list| - 1, o);
      var e := Exec(s', Steps(|list| - 1), o);
      if e.s.pos >= 0 {
        NotOver(e, OriginOf(s), o);
        ToldOnList(e, true, OriginOf(s), o);
      } else {
        OverIsOver(e, true, o);
      }
    }
  }

  lemma StepsMore(s: State, k: nat, o: Options)
    requires !o.shuffle
    ensures Exec(s, Steps(k + 1), o) == Went(Exec(s, Steps(k), o), true, o)
  {
    hide Happen, Went;
    assert Steps(k + 1)[..k] == Steps(k);
    DrawsDoNotMatter(Exec(s, Steps(k), o), true, [], [], o);
  }

  lemma StartsAlso(s: State)
    requires StartsOnList(s)
    ensures StartsOnList(s.(queue := [])) && OriginOf(s.(queue := [])) == OriginOf(s)
  {
  }

  /** audio_play begins on the list, for a file of the playlist, and leaves what a stopped queue
      has left. */
  lemma PlayStarts(s: State, f: string, o: Options, rs: seq<nat>)
    requires Sound(s) && !o.shuffle && HasLive(s.playlist, f) && |rs| >= |s.playlist|
    ensures StartsOnList(Play(s, f, o, rs))
    ensures OriginOf(Play(s, f, o, rs)) == Origin(s.playlist, f, s.before, s.startedInQueue)
  {
    hide Find, HasLive, Remixed, Fronted;
    NamedLast(s.playlist, f);
    FindLast(s.playlist, f);
  }
}
