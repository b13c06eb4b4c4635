/** The sequencing of src/audio/audio.cpp: which file comes next, over the playlist, its
    shuffled copy and the queue. */
module Audio {
  import opened FileTags
  import opened Plist
  import opened Wrappers

  /** The list that curr_plist points to. */
  datatype Which = Regular | Mixed | Queued

  /** `pos` is curr_playing, `before` is before_queue_fname, `fname` is curr_playing_fname and
      `startedInQueue` is started_playing_in_queue. */
  datatype State = State(playlist: seq<Item>, shuffled: seq<Item>, queue: seq<Item>,
                         curr: Which, pos: int, before: string, fname: string, startedInQueue: bool)
  {
    function Current(): seq<Item> {
      match curr
      case Regular => playlist
      case Mixed => shuffled
      case Queued => queue
    }

    /** plist_get_file for curr_playing: no name outside the list. */
    function File(): string {
      if 0 <= pos < |Current()| then Current()[pos].file else ""
    }
  }

  datatype Options = Options(shuffle: bool, autoNext: bool, repeat: bool, queueReturn: bool)

  /** The user's requests play_next and play_prev. */
  datatype Request = Request(next: bool, prev: bool)

  predicate AllNamed(items: seq<Item>) {
    forall i :: 0 <= i < |items| ==> items[i].Named()
  }

  ghost predicate SameFiles(a: seq<Item>, b: seq<Item>) {
    forall f :: HasLive(a, f) <==> HasLive(b, f)
  }

  predicate Playable(items: seq<Item>) {
    NextOf(items, -1) != -1
  }

  /** The position that plist_prev finds. */
  function PrevOf(items: seq<Item>, num: int): (r: int)
    requires -1 <= num <= |items|
    ensures -1 <= r && (r < num || num == r == -1)
    ensures r >= 0 ==> items[r].Live()
    ensures forall i :: r < i < num && 0 <= i ==> items[i].deleted
    decreases num
  {
    if num <= 0 then -1
    else if items[num - 1].Live() then num - 1
    else PrevOf(items, num - 1)
  }

  /** The position that plist_last finds. */
  function LastOf(items: seq<Item>): (r: int)
    ensures -1 <= r < |items|
  {
    var p := PrevOf(items, |items|);
    if p != -1 then p else if items == [] then -1 else 0
  }

  /** plist_clear, plist_cat and plist_shuffle on the shuffled list. */
  function Remixed(playlist: seq<Item>, rs: seq<nat>): (r: seq<Item>)
    requires |rs| >= |playlist|
  {
    CattedLength([], playlist);
    Shuffled(Catted([], playlist), |Catted([], playlist)|, rs)
  }

  lemma {:induction false} CattedLength(a: seq<Item>, b: seq<Item>)
    ensures |Catted(a, b)| <= |a| + |b|
  {
    if b != [] {
      CattedLength(a, b[..|b| - 1]);
    }
  }

  /** plist_swap_first_fname */
  function Fronted(items: seq<Item>, f: string): (r: seq<Item>)
    ensures |r| == |items|
  {
    if Find(items, f) <= 0 then items else Swapped(items, 0, Find(items, f))
  }

  function Delete(items: seq<Item>, f: string): (r: seq<Item>)
    ensures |r| == |items|
  {
    var i := Find(items, f);
    if i == -1 then items else items[i := items[i].(deleted := true)]
  }

  /** The lists after audio_plist_add and audio_queue_add: a name that is live is not added. */
  function Extended(items: seq<Item>, f: string): seq<Item> {
    if Find(items, f) != -1 then items else items + [Bare(f)]
  }

  /** plist_set_item_time for the live item of a name. */
  function Retimed(items: seq<Item>, f: string, time: int): (r: seq<Item>)
    ensures |r| == |items|
  {
    var i := Find(items, f);
    if i == -1 then items
    else
      var tags := if items[i].tags.Some? then items[i].tags.value else NO_TAGS;
      items[i := items[i].(tags := Option.Some(tags.(time := time, timed := true)))]
  }

  // ---------- go_to_another_file ----------

  function FromQueue(s: State): State
    requires Playable(s.queue)
  {
    var i := NextOf(s.queue, -1);
    s.(before := if s.before == "" && s.fname != "" then s.fname else s.before,
       curr := Queued, pos := i, queue := s.queue[i := s.queue[i].(deleted := true)])
  }

  /** Back to the file played before the queue, and to the list to play from. */
  function Returned(s: State, o: Options, rs: seq<nat>): State
    requires |rs| >= |s.playlist|
  {
    var back := s.before != "" && o.queueReturn;
    var fname := if back then s.before else s.fname;
    var before := if back then "" else s.before;
    var mix := o.shuffle && Playable(s.playlist) && !Playable(s.shuffled);
    var mixed := Remixed(s.playlist, rs);
    s.(fname := fname, before := before, curr := if o.shuffle then Mixed else Regular,
       shuffled := if !mix then s.shuffled else if fname != "" then Fronted(mixed, fname) else mixed)
  }

  /** Where the last file stands in the current list. */
  function Anchor(s: State): (r: int)
    ensures -1 <= r < |s.Current()|
  {
    var r := Find(s.Current(), s.fname);
    if r == -1 && s.before != "" then Find(s.Current(), s.before) else r
  }

  function Backward(s: State, o: Options): State {
    var at := Anchor(s);
    var anew := at == -1 || s.startedInQueue;
    var p := PrevOf(s.Current(), if anew then -1 else at);
    s.(startedInQueue := s.startedInQueue && !anew,
       pos := if p == -1 && o.repeat then LastOf(s.Current()) else p)
  }

  function Forward(s: State, o: Options, rs: seq<nat>): State
    requires |rs| >= |s.playlist|
  {
    var at := Anchor(s);
    var anew := at == -1 || s.startedInQueue;
    var n := NextOf(s.Current(), if anew then -1 else at);
    var t := s.(startedInQueue := s.startedInQueue && !anew,
                shuffled := if n == -1 && o.repeat && o.shuffle then Remixed(s.playlist, rs) else s.shuffled);
    t.(pos := if n == -1 && o.repeat then NextOf(t.Current(), -1) else n)
  }

  function GoTo(s: State, o: Options, q: Request, rs: seq<nat>, rs': seq<nat>): State
    requires |rs| >= |s.playlist| && |rs'| >= |s.playlist|
  {
    var goNext := q.next || o.autoNext;
    if Playable(s.queue) && goNext then FromQueue(s)
    else
      var t := Returned(s, o, rs);
      var u :=
        if q.prev && Playable(t.Current()) then Backward(t, o)
        else if goNext && Playable(t.Current()) then Forward(t, o, rs')
        else if !o.repeat then t.(pos := -1)
        else t;
      u.(before := "")
  }

  /** The start of a round of play_thread_func. */
  function Begun(s: State): State
    requires s.pos >= 0
  {
    s.(fname := if s.File() != "" then s.File() else s.fname)
  }

  /** The end of play_thread_func. */
  function Ended(s: State): State {
    s.(fname := "")
  }

  /** audio_play; it stops what was playing first. */
  function Play(s0: State, f: string, o: Options, rs: seq<nat>): State
    requires |rs| >= |s0.playlist|
  {
    var s := Ended(s0);
    if Playable(s.queue) && f == "" then
      var i := NextOf(s.queue, -1);
      s.(curr := Queued, pos := i, queue := s.queue[i := s.queue[i].(deleted := true)], startedInQueue := true)
    else
      var t := s.(curr := if o.shuffle then Mixed else Regular,
                  shuffled := if o.shuffle then Fronted(Remixed(s.playlist, rs), f) else s.shuffled);
      t.(pos := if f != "" then Find(t.Current(), f) else NextOf(t.Current(), -1))
  }

  // ---------- what holds between operations ----------

  ghost predicate Sound(s: State) {
    && s.pos >= -1
    && AllNamed(s.playlist) && AllNamed(s.shuffled) && AllNamed(s.queue)
    && Distinct(s.playlist) && Distinct(s.shuffled) && Distinct(s.queue)
    && (s.shuffled == [] || SameFiles(s.shuffled, s.playlist))
  }

  /** As plist_cat into an empty list leaves it: all items live, no name twice. */
  ghost predicate Pure(items: seq<Item>) {
    && (forall i :: 0 <= i < |items| ==> items[i].Live())
    && (forall i, j :: 0 <= i < j < |items| ==> items[i].file != items[j].file)
  }

  lemma PureIsDistinct(items: seq<Item>)
    requires Pure(items)
    ensures Distinct(items) && Unshadowed(items) && LastOfName(items)
  {
  }

  lemma SameItems(a: seq<Item>, b: seq<Item>)
    requires multiset(a) == multiset(b)
    ensures SameFiles(a, b)
    ensures AllNamed(a) ==> AllNamed(b)
    ensures (forall i :: 0 <= i < |a| ==> a[i].Live()) ==> (forall i :: 0 <= i < |b| ==> b[i].Live())
  {
    assert forall x :: x in a <==> x in multiset(a);
    assert forall x :: x in b <==> x in multiset(b);
    forall f ensures HasLive(a, f) <==> HasLive(b, f) {
      assert HasLive(a, f) <==> exists x :: x in a && x.Live() && x.file == f;
      assert HasLive(b, f) <==> exists x :: x in b && x.Live() && x.file == f;
    }
    assert forall i :: 0 <= i < |b| ==> b[i] in a;
  }

  lemma RemixedRight(playlist: seq<Item>, rs: seq<nat>)
    requires AllNamed(playlist) && |rs| >= |playlist|
    ensures Pure(Remixed(playlist, rs)) && AllNamed(Remixed(playlist, rs))
    ensures SameFiles(Remixed(playlist, rs), playlist)
  {
    hide Catted, Shuffled, Unshadowed, HasLive, Count;
    var c, r := Catted([], playlist), Remixed(playlist, rs);
    CattedFresh(playlist);
    CattedLength([], playlist);
    ShuffleKeeps(c, |c|, rs);
    SameItems(c, r);
    PureIsDistinct(c);
    PureFromUnshadowed(r);
    forall f ensures HasLive(r, f) <==> HasLive(playlist, f) {
      CattedNames([], playlist, f);
      NoneLive(f);
      assert HasLive(c, f) <==> HasLive(r, f);
    }
  }

  lemma NoneLive(f: string)
    ensures !HasLive([], f)
  {
  }

  lemma PureFromUnshadowed(items: seq<Item>)
    requires Unshadowed(items) && AllNamed(items) && forall i :: 0 <= i < |items| ==> items[i].Live()
    ensures Pure(items)
  {
  }

  lemma FrontedRight(items: seq<Item>, f: string)
    requires AllNamed(items)
    ensures AllNamed(Fronted(items, f)) && SameFiles(Fronted(items, f), items)
    ensures Pure(items) ==> Pure(Fronted(items, f))
    ensures var r := Fronted(items, f); HasLive(items, f) ==> r != [] && r[0].file == f && r[0].Live()
  {
    hide Find, HasLive;
    if Find(items, f) > 0 {
      SwapMultiset(items, 0, Find(items, f));
      SameItems(items, Fronted(items, f));
    }
  }

  lemma DeleteRight(items: seq<Item>, f: string)
    requires AllNamed(items) && Distinct(items)
    ensures AllNamed(Delete(items, f)) && Distinct(Delete(items, f))
    ensures forall g :: HasLive(Delete(items, f), g) <==> HasLive(items, g) && g != f
  {
    hide Find;
    var now := Delete(items, f);
    assert forall i :: 0 <= i < |items| ==> now[i].file == items[i].file;
    forall g | HasLive(items, g) && g != f ensures HasLive(now, g) {
      var i :| 0 <= i < |items| && items[i].Live() && items[i].file == g;
      assert now[i].Live();
    }
  }

  lemma RetimedRight(items: seq<Item>, f: string, time: int)
    requires AllNamed(items) && Distinct(items)
    ensures var r := Retimed(items, f, time); AllNamed(r) && Distinct(r) && SameFiles(r, items)
  {
    hide Find;
    var now := Retimed(items, f, time);
    assert forall i :: 0 <= i < |items| ==> now[i].file == items[i].file && now[i].deleted == items[i].deleted;
    forall g ensures HasLive(now, g) <==> HasLive(items, g) {
      if HasLive(items, g) {
        var i :| 0 <= i < |items| && items[i].Live() && items[i].file == g;
        assert now[i].Live();
      }
    }
  }

  lemma TookOne(items: seq<Item>, i: nat)
    requires i < |items| && AllNamed(items) && Distinct(items)
    ensures AllNamed(items[i := items[i].(deleted := true)]) && Distinct(items[i := items[i].(deleted := true)])
  {
  }

  lemma SomeLive(items: seq<Item>)
    ensures Playable(items) <==> exists i :: 0 <= i < |items| && items[i].Live()
    ensures Playable(items) <==> exists f :: HasLive(items, f)
  {
    hide NextOf;
    if Playable(items) {
      assert HasLive(items, items[NextOf(items, -1)].file);
    }
  }

  lemma ReturnedKeeps(s: State, o: Options, rs: seq<nat>)
    requires Sound(s) && |rs| >= |s.playlist|
    ensures Sound(Returned(s, o, rs))
    ensures o.shuffle && Playable(s.playlist) ==> Playable(Returned(s, o, rs).shuffled)
  {
    hide NextOf, Fronted, Remixed, HasLive, AllNamed, Distinct, SameFiles;
    var t := Returned(s, o, rs);
    RemixedRight(s.playlist, rs);
    PureIsDistinct(Remixed(s.playlist, rs));
    FrontedRight(Remixed(s.playlist, rs), t.fname);
    if Pure(Fronted(Remixed(s.playlist, rs), t.fname)) {
      PureIsDistinct(Fronted(Remixed(s.playlist, rs), t.fname));
    }
    SameTrans(Fronted(Remixed(s.playlist, rs), t.fname), Remixed(s.playlist, rs), s.playlist);
    SameSome(t.shuffled, s.playlist);
  }

  lemma SameTrans(a: seq<Item>, b: seq<Item>, c: seq<Item>)
    ensures SameFiles(a, b) && SameFiles(b, c) ==> SameFiles(a, c)
  {
  }

  lemma SameSome(a: seq<Item>, b: seq<Item>)
    ensures SameFiles(a, b) ==> (Playable(a) <==> Playable(b))
  {
    hide Playable;
    SomeLive(a);
    SomeLive(b);
  }

  /** Moving on never breaks what the lists promise. */
  lemma GoToKeeps(s: State, o: Options, q: Request, rs: seq<nat>, rs': seq<nat>)
    requires Sound(s) && |rs| >= |s.playlist| && |rs'| >= |s.playlist|
    ensures Sound(GoTo(s, o, q, rs, rs'))
    ensures GoTo(s, o, q, rs, rs').playlist == s.playlist
  {
    hide NextOf, Remixed, HasLive, AllNamed, Distinct, SameFiles, Returned, Forward, Backward;
    if Playable(s.queue) && (q.next || o.autoNext) {
      TookOne(s.queue, NextOf(s.queue, -1));
    } else {
      ReturnedKeeps(s, o, rs);
      var t := Returned(s, o, rs);
      ReturnedLists(s, o, rs);
      BackwardKeeps(t, o);
      ForwardKeeps(t, o, rs');
    }
  }

  lemma Repositioned(s: State, p: int, b: bool)
    requires Sound(s) && p >= -1
    ensures Sound(s.(pos := p, startedInQueue := b))
  {
  }

  lemma Forgotten(s: State)
    requires Sound(s)
    ensures Sound(Ended(s))
  {
  }

  lemma BackwardKeeps(s: State, o: Options)
    requires Sound(s)
    ensures Sound(Backward(s, o)) && Backward(s, o).playlist == s.playlist
  {
    hide PrevOf, LastOf, Anchor, HasLive, AllNamed, Distinct, SameFiles;
  }

  lemma ForwardKeeps(s: State, o: Options, rs: seq<nat>)
    requires Sound(s) && |rs| >= |s.playlist|
    ensures Sound(Forward(s, o, rs)) && Forward(s, o, rs).playlist == s.playlist
  {
    hide NextOf, Remixed, HasLive, AllNamed, Distinct, SameFiles, Anchor;
    RemixedRight(s.playlist, rs);
    PureIsDistinct(Remixed(s.playlist, rs));
  }

  lemma ReturnedLists(s: State, o: Options, rs: seq<nat>)
    requires |rs| >= |s.playlist|
    ensures Returned(s, o, rs).playlist == s.playlist && Returned(s, o, rs).queue == s.queue
    ensures o.shuffle <==> Returned(s, o, rs).curr == Mixed
  {
  }

  lemma PlayKeeps(s: State, f: string, o: Options, rs: seq<nat>)
    requires Sound(s) && |rs| >= |s.playlist|
    ensures Sound(Play(s, f, o, rs)) && Play(s, f, o, rs).playlist == s.playlist
  {
    hide NextOf, Remixed, HasLive, AllNamed, Distinct, SameFiles, Find, Fronted;
    if Playable(s.queue) && f == "" {
      TookOne(s.queue, NextOf(s.queue, -1));
    } else {
      var r := Remixed(s.playlist, rs);
      RemixedRight(s.playlist, rs);
      FrontedRight(r, f);
      PureIsDistinct(Fronted(r, f));
      SameTrans(Fronted(r, f), r, s.playlist);
    }
  }
}
