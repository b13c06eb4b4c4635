/** What one step of the engine does, case by case: which file follows which, for all options,
    requests and left-overs. */
module AudioSteps {
  import opened Audio
  import opened AudioRuns
  import opened FileTags
  import opened Plist

  /** The list to play from. */
  function ListOf(s: State, o: Options): seq<Item> {
    if o.shuffle then s.shuffled else s.playlist
  }

  /** A track that begins is remembered by its name; where there is no file, the last name stays. */
  lemma TrackBegins(s: State)
    requires s.pos >= 0
    ensures Begun(s).fname == if 0 <= s.pos < |s.Current()| && s.Current()[s.pos].Named() then s.File() else s.fname
    ensures Begun(s).(fname := s.fname) == s
  {
  }

  // ---------- without a reason to go on ----------

  /** With AutoNext off and no request the engine stops, or with Repeat stays where it is; the queue
      waits. */
  lemma WithoutAutoNext(s: State, o: Options, rs: seq<nat>, rs': seq<nat>)
    requires s.pos >= 0 && !o.autoNext && |rs| >= |s.playlist| && |rs'| >= |s.playlist|
    ensures var t := GoTo(Begun(s), o, Request(false, false), rs, rs');
      && t.pos == (if o.repeat then s.pos else -1)
      && t.playlist == s.playlist && t.queue == s.queue && t.curr == (if o.shuffle then Mixed else Regular)
      && (!o.shuffle || Playable(s.shuffled) ==> t.shuffled == s.shuffled)
      && t.startedInQueue == s.startedInQueue && t.before == ""
  {
    hide Remixed, Fronted, NextOf;
  }

  /** So a file of the list is repeated, or it was the last. */
  lemma RepeatsOrStops(s: State, o: Options, rs: seq<nat>, rs': seq<nat>)
    requires OnListQueued(s, o) && !o.autoNext && |rs| >= |s.playlist| && |rs'| >= |s.playlist|
    ensures var t := GoTo(Begun(s), o, Request(false, false), rs, rs');
      && t.queue == s.queue && t.curr == s.curr && t.Current() == s.Current()
      && (if o.repeat then t.pos == s.pos && t.File() == s.File() else t.pos == -1)
  {
    hide Remixed, Fronted, NextOf, Sound;
    LivePlayable(s.Current(), s.pos);
    WithoutAutoNext(s, o, rs, rs');
  }

  /** In the middle of the current list, with the queue as it may be. */
  ghost predicate OnListQueued(s: State, o: Options) {
    && Sound(s) && s.curr == (if o.shuffle then Mixed else Regular)
    && 0 <= s.pos < |s.Current()| && s.Current()[s.pos].Live()
  }

  /** A request for the next file is what AutoNext does unasked. */
  lemma NextIsAutoNext(s: State, o: Options, prev: bool, rs: seq<nat>, rs': seq<nat>)
    requires |rs| >= |s.playlist| && |rs'| >= |s.playlist|
    ensures GoTo(s, o, Request(true, prev), rs, rs') == GoTo(s, o.(autoNext := true), Request(false, prev), rs, rs')
    ensures o.autoNext ==>
              GoTo(s, o, Request(true, prev), rs, rs') == GoTo(s, o, Request(false, prev), rs, rs')
  {
    hide Returned, Backward, Forward, NextOf;
    ReturnsAlike(s, o, rs);
    GoesAlike(Returned(s, o, rs), o, rs');
  }

  lemma ReturnsAlike(s: State, o: Options, rs: seq<nat>)
    requires |rs| >= |s.playlist|
    ensures Returned(s, o.(autoNext := true), rs) == Returned(s, o, rs)
    ensures Returned(s, o, rs).playlist == s.playlist
  {
    hide Remixed, Fronted, NextOf;
  }

  lemma GoesAlike(s: State, o: Options, rs: seq<nat>)
    requires |rs| >= |s.playlist|
    ensures Backward(s, o.(autoNext := true)) == Backward(s, o)
    ensures Forward(s, o.(autoNext := true), rs) == Forward(s, o, rs)
  {
    hide Remixed, NextOf, PrevOf, LastOf, Find;
  }

  // ---------- the queue ----------

  /** Going on plays the first file of the queue, whatever else is asked: it leaves the queue, and
      the file before the queue is remembered. */
  lemma QueueComesFirst(s: State, o: Options, q: Request, rs: seq<nat>, rs': seq<nat>)
    requires Sound(s) && s.pos >= 0 && |rs| >= |s.playlist| && |rs'| >= |s.playlist|
    requires Playable(s.queue) && (q.next || o.autoNext)
    ensures var t := GoTo(Begun(s), o, q, rs, rs');
      && t.curr == Queued && t.pos >= 0 && LiveNames(s.queue) == [t.File()] + LiveNames(t.queue)
      && t.playlist == s.playlist && t.shuffled == s.shuffled && t.startedInQueue == s.startedInQueue
      && t.before == if s.before == "" then Begun(s).fname else s.before
  {
    hide NextOf, LiveNames, Sound;
    LiveNamesTake(s.queue, NextOf(s.queue, -1));
  }

  /** Otherwise the queue stays as it is. */
  lemma QueueWaits(s: State, o: Options, prev: bool, rs: seq<nat>, rs': seq<nat>)
    requires !o.autoNext && |rs| >= |s.playlist| && |rs'| >= |s.playlist|
    ensures var t := GoTo(s, o, Request(false, prev), rs, rs');
      t.queue == s.queue && t.playlist == s.playlist && t.curr == if o.shuffle then Mixed else Regular
  {
    hide Remixed, Fronted, NextOf, PrevOf, LastOf, Find;
  }

  // ---------- going on and back ----------

  /** The name that a step starts from: the one before the queue, if QueueNextSongReturn is on, or
      the last one played. */
  function Origin(s: State, o: Options): string
    requires s.pos >= 0
  {
    if s.before != "" && o.queueReturn then s.before else Begun(s).fname
  }

  /** Its place in the list to play from, or else that of the name before the queue; none after
      playing began in the queue. */
  function Place(s: State, o: Options): (r: int)
    requires s.pos >= 0
    ensures -1 <= r < |ListOf(s, o)|
    ensures r >= 0 ==> ListOf(s, o)[r].Live()
  {
    var r := Find(ListOf(s, o), Origin(s, o));
    if s.startedInQueue then -1
    else if r == -1 && s.before != "" && !o.queueReturn then Find(ListOf(s, o), s.before) else r
  }

  /** Going on from anywhere, with nothing queued: the file after that place follows, or the first of
      the list; at its end playing stops, or with Repeat goes round, over a new mix if shuffled. */
  lemma GoesOn(s: State, o: Options, q: Request, rs: seq<nat>, rs': seq<nat>)
    requires Sound(s) && s.pos >= 0 && |rs| >= |s.playlist| && |rs'| >= |s.playlist|
    requires !Playable(s.queue) && (q.next || o.autoNext) && !q.prev && Playable(ListOf(s, o))
    ensures var t, n := GoTo(Begun(s), o, q, rs, rs'), NextOf(ListOf(s, o), Place(s, o));
      && t.playlist == s.playlist && t.queue == s.queue && t.curr == (if o.shuffle then Mixed else Regular)
      && t.before == "" && !t.startedInQueue && t.fname == Origin(s, o)
      && (if n != -1 then t.pos == n && ListOf(t, o) == ListOf(s, o)
          else if !o.repeat then t.pos == -1
          else t.pos == NextOf(ListOf(t, o), -1)
               && ListOf(t, o) == if o.shuffle then Remixed(s.playlist, rs') else s.playlist)
  {
    hide Remixed, Fronted, Find, NextOf, HasLive, AllNamed, Distinct, SameFiles;
    SomeLive(s.playlist);
    SameSome(s.shuffled, s.playlist);
  }

  /** Going back likewise: the file before that place, and from the beginning of the list, or when
      the place is not known, the last one with Repeat, and else none. */
  lemma GoesBack(s: State, o: Options, q: Request, rs: seq<nat>, rs': seq<nat>)
    requires Sound(s) && s.pos >= 0 && |rs| >= |s.playlist| && |rs'| >= |s.playlist|
    requires (!Playable(s.queue) || (!q.next && !o.autoNext)) && q.prev && Playable(ListOf(s, o))
    ensures var t, p := GoTo(Begun(s), o, q, rs, rs'), PrevOf(ListOf(s, o), Place(s, o));
      && t.playlist == s.playlist && t.queue == s.queue && t.curr == (if o.shuffle then Mixed else Regular)
      && t.before == "" && !t.startedInQueue && ListOf(t, o) == ListOf(s, o)
      && (if p != -1 then t.pos == p
          else if !o.repeat then t.pos == -1
          else t.pos >= 0 && ListOf(s, o)[t.pos].Live() && NextOf(ListOf(s, o), t.pos) == -1)
  {
    hide Remixed, Fronted, Find, NextOf, PrevOf, LastOf, HasLive, AllNamed, Distinct, SameFiles;
    SomeLive(s.playlist);
    SameSome(s.shuffled, s.playlist);
    LastIsLive(ListOf(s, o));
  }

  lemma LastIsLive(items: seq<Item>)
    requires Playable(items)
    ensures LastOf(items) >= 0 && items[LastOf(items)].Live() && NextOf(items, LastOf(items)) == -1
  {
    hide NextOf, PrevOf;
    var n := NextOf(items, -1);
    var p := PrevOf(items, |items|);
    assert p >= n;
  }

  /** When an edit has emptied the shuffled list, going on makes a new mix of the playlist, in which
      the file that was played comes first, and plays its second. */
  lemma MixesAnew(s: State, o: Options, q: Request, rs: seq<nat>, rs': seq<nat>)
    requires Sound(s) && s.pos >= 0 && |rs| >= |s.playlist| && |rs'| >= |s.playlist|
    requires o.shuffle && !Playable(s.queue) && (q.next || o.autoNext) && !q.prev
    requires !Playable(s.shuffled) && !s.startedInQueue && HasLive(s.playlist, Origin(s, o))
    ensures var t, n := GoTo(Begun(s), o, q, rs, rs'), |Remixed(s.playlist, rs)|;
      && t.curr == Mixed && t.playlist == s.playlist && t.queue == s.queue && t.before == ""
      && (n > 1 || !o.repeat ==>
            && Pure(t.shuffled) && SameFiles(t.shuffled, s.playlist) && |t.shuffled| == n
            && t.shuffled[0].file == Origin(s, o) && t.pos == if n > 1 then 1 else -1)
  {
    hide Remixed, Fronted, Find, NextOf, HasLive, AllNamed, Distinct, SameFiles, Pure;
    var r, f := Remixed(s.playlist, rs), Origin(s, o);
    RemixedRight(s.playlist, rs);
    FrontedRight(r, f);
    SameTrans(Fronted(r, f), r, s.playlist);
    SameLive(r, s.playlist, f);
    HasLivePlayable(s.playlist, f);
    NamedLive(s.playlist, f);
    FrontIsFound(Fronted(r, f));
    NextPure(Fronted(r, f), 0);
    NextPure(Fronted(r, f), -1);
  }

  lemma SameLive(a: seq<Item>, b: seq<Item>, f: string)
    ensures SameFiles(a, b) ==> (HasLive(a, f) <==> HasLive(b, f))
  {
  }

  lemma HasLivePlayable(items: seq<Item>, f: string)
    requires HasLive(items, f)
    ensures Playable(items)
  {
    hide Playable;
    SomeLive(items);
  }

  lemma FrontIsFound(items: seq<Item>)
    requires Pure(items) && items != []
    ensures Find(items, items[0].file) == 0
  {
    FindPure(items, 0);
  }

  /** With nothing to play there is nothing to go to: playing stops, unless Repeat is on. */
  lemma NothingToPlay(s: State, o: Options, q: Request, rs: seq<nat>, rs': seq<nat>)
    requires Sound(s) && s.pos >= 0 && |rs| >= |s.playlist| && |rs'| >= |s.playlist|
    requires !Playable(s.queue) && !Playable(s.playlist) && !Playable(ListOf(s, o))
    ensures GoTo(Begun(s), o, q, rs, rs').pos == if o.repeat then s.pos else -1
  {
    hide Remixed, Fronted, Find, NextOf, PrevOf, LastOf, HasLive, AllNamed, Distinct, SameFiles;
  }

  // ---------- editing ----------

  /** A file added comes last, once. */
  lemma AddedLast(items: seq<Item>, f: string)
    ensures items <= Extended(items, f)
    ensures LiveNames(Extended(items, f)) == LiveNames(items) + if HasLive(items, f) then [] else [f]
  {
    hide LiveNames, Find, HasLive;
    LiveNamesAppend(items, Bare(f));
  }

  /** The live item of a name, and nothing else, is deleted. */
  lemma DeletedOnly(items: seq<Item>, f: string)
    requires Distinct(items)
    ensures forall i :: 0 <= i < |items| ==>
              Delete(items, f)[i] == items[i].(deleted := items[i].deleted || items[i].file == f)
  {
    hide Find, HasLive;
    FoundHere(items, f);
  }

  lemma FoundHere(items: seq<Item>, f: string)
    ensures Find(items, f) == -1 ==> forall i :: 0 <= i < |items| && items[i].Live() ==> items[i].file != f
  {
    hide Find;
  }

  /** The live item of a name gets the time, and nothing else changes. */
  lemma RetimedOnly(items: seq<Item>, f: string, time: int)
    requires Distinct(items)
    ensures forall i :: 0 <= i < |items| ==>
              var x, y := items[i], Retimed(items, f, time)[i];
              if x.Live() && x.file == f then
                && y.Time() == time && y.tags.Some? && y.tags.value.timed && y == x.(tags := y.tags)
                && y.tags.value == (if x.tags.Some? then x.tags.value else NO_TAGS).(time := time, timed := true)
              else y == x
  {
    hide Find, HasLive;
    FoundHere(items, f);
  }

  // ---------- starting ----------

  /** audio_play without a name starts in the queue, if it has a file, which leaves it. */
  lemma PlaysQueue(s: State, o: Options, rs: seq<nat>)
    requires Playable(s.queue) && |rs| >= |s.playlist|
    ensures var t := Play(s, "", o, rs);
      && t.curr == Queued && t.pos >= 0 && LiveNames(s.queue) == [t.File()] + LiveNames(t.queue)
      && t.playlist == s.playlist && t.shuffled == s.shuffled
      && t.startedInQueue && t.before == s.before && t.fname == ""
  {
    hide NextOf, LiveNames;
    LiveNamesTake(s.queue, NextOf(s.queue, -1));
  }

  /** Else it starts at the first file of the list, newly mixed if shuffled, or nowhere. */
  lemma PlaysFirst(s: State, o: Options, rs: seq<nat>)
    requires Sound(s) && !Playable(s.queue) && |rs| >= |s.playlist|
    ensures var t := Play(s, "", o, rs);
      && t.playlist == s.playlist && t.queue == s.queue && t.curr == (if o.shuffle then Mixed else Regular)
      && ListOf(t, o) == (if o.shuffle then Remixed(s.playlist, rs) else s.playlist)
      && (!o.shuffle ==> t.shuffled == s.shuffled)
      && t.pos == NextOf(ListOf(t, o), -1) && (t.pos >= 0 <==> Playable(s.playlist))
      && t.startedInQueue == s.startedInQueue && t.before == s.before && t.fname == ""
  {
    hide Remixed, Find, NextOf, HasLive, AllNamed, Distinct, SameFiles;
    var r := Remixed(s.playlist, rs);
    RemixedRight(s.playlist, rs);
    SameSome(r, s.playlist);
    NoneNamed(r);
  }

  lemma NoneNamed(items: seq<Item>)
    ensures AllNamed(items) ==> Find(items, "") == -1
  {
    hide Find;
  }

  /** A file that the playlist does not have is not played, nor anything else; one that it has is,
      and the queue waits. */
  lemma PlaysNamed(s: State, f: string, o: Options, rs: seq<nat>)
    requires Sound(s) && f != "" && |rs| >= |s.playlist|
    ensures var t := Play(s, f, o, rs);
      && t.playlist == s.playlist && t.queue == s.queue && t.curr == (if o.shuffle then Mixed else Regular)
      && (t.pos == -1 <==> !HasLive(s.playlist, f)) && (t.pos >= 0 ==> t.File() == f)
      && (!o.shuffle ==> t.shuffled == s.shuffled)
      && t.startedInQueue == s.startedInQueue && t.before == s.before && t.fname == ""
  {
    hide Remixed, Fronted, Find, NextOf, HasLive, AllNamed, Distinct, SameFiles;
    var r := Remixed(s.playlist, rs);
    RemixedRight(s.playlist, rs);
    FrontedRight(r, f);
    SameTrans(Fronted(r, f), r, s.playlist);
    SameLive(Fronted(r, f), s.playlist, f);
  }
}
