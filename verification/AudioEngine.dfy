/** The engine of src/audio/audio.cpp over its three playlists, proved against the functions
    of module Audio. */
module AudioEngine {
  import opened Audio
  import opened Plist
  import opened Wrappers

  lemma NoEmptyName(items: seq<Item>)
    requires AllNamed(items)
    ensures Find(items, "") == -1 && !HasLive(items, "")
  {
    hide Find;
  }

  lemma PureSwappable(items: seq<Item>, i: int)
    requires Pure(items) && i < |items|
    ensures FirstSwappable(items, i)
  {
    hide HasLive;
  }

  /** In a list without the empty name, a move finds what the index finds. */
  lemma MoveFound(items: seq<Item>, tree: map<string, nat>, f: string)
    requires Indexed(items, tree) && AllNamed(items)
    ensures HasLive(items, f) ==> f in tree && tree[f] == Find(items, f)
  {
    if HasLive(items, f) {
      NoEmptyName(items);
      FindUnique(items, tree, f);
      hide Find;
    }
  }

  lemma SwapDistinct(items: seq<Item>, a: nat, b: nat)
    requires a < |items| && b < |items|
    ensures Distinct(items) ==> Distinct(Swapped(items, a, b))
  {
    var now := Swapped(items, a, b);
    if Distinct(items) {
      forall i, j | 0 <= i < j < |now| && now[i].Live() && now[j].Live() ensures now[i].file != now[j].file {
        var i' := if i == a then b else if i == b then a else i;
        var j' := if j == a then b else if j == b then a else j;
        assert now[i] == items[i'] && now[j] == items[j'] && i' != j';
      }
    }
  }

  lemma CountSome(items: seq<Item>)
    ensures Count(items).live != 0 <==> Playable(items)
  {
    CountLive(items);
    hide NextOf, Count;
  }

  lemma SameBack(a: seq<Item>, b: seq<Item>)
    ensures SameFiles(a, b) ==> SameFiles(b, a)
  {
  }

  lemma NoneNext(items: seq<Item>)
    ensures !Playable(items) ==> NextOf(items, -1) == -1
  {
  }

  lemma PrevUnique(items: seq<Item>, num: int, r: int)
    requires -1 <= num <= |items| && -1 <= r && (r < num || num == r == -1)
    requires r >= 0 ==> items[r].Live()
    requires forall i :: r < i < num && 0 <= i ==> items[i].deleted
    ensures r == PrevOf(items, num)
  {
  }

  lemma LastUnique(items: seq<Item>, i: int)
    requires -1 <= i < |items| && (i == -1 <==> items == [])
    requires forall j :: i < j < |items| ==> items[j].deleted
    requires i >= 0 ==> (items[i].Live() <==> exists j :: 0 <= j < |items| && items[j].Live())
    ensures i == LastOf(items) || !Playable(items)
  {
    SomeLive(items);
    hide NextOf, Playable, HasLive;
    if Playable(items) {
      PrevUnique(items, |items|, i);
    }
  }

  /** A new item keeps a list in order when its name is new and not empty. */
  lemma Added(items: seq<Item>, x: Item)
    requires AllNamed(items) && Distinct(items) && !HasLive(items, x.file)
    ensures Distinct(items + [x]) && (AllNamed(items + [x]) <==> x.Named())
  {
    assert (items + [x])[|items|] == x;
  }

  class Engine {
    const playlist: Plist
    const shuffled: Plist
    const queue: Plist
    var curr: Which
    var pos: int
    var before: string
    var fname: string
    var startedInQueue: bool

    ghost function Abs(): State
      reads this, playlist, shuffled, queue
    {
      State(playlist.items, shuffled.items, queue.items, curr, pos, before, fname, startedInQueue)
    }

    ghost predicate Lists()
      reads this, playlist, shuffled, queue
    {
      && playlist != shuffled && playlist != queue && shuffled != queue
      && playlist.Valid() && shuffled.Valid() && queue.Valid()
    }

    ghost predicate Valid()
      reads this, playlist, shuffled, queue
    {
      Lists() && Sound(Abs())
    }

    constructor ()
      ensures Valid() && fresh(playlist) && fresh(shuffled) && fresh(queue)
      ensures Abs() == State([], [], [], Regular, -1, "", "", false)
    {
      playlist := new Plist();
      shuffled := new Plist();
      queue := new Plist();
      curr, pos, before, fname, startedInQueue := Regular, -1, "", "", false;
    }

    /** audio_plist_add. An empty name would break what plist_cat asks of its items. */
    method PlistAdd(f: string)
      requires Valid()
      modifies playlist, shuffled
      ensures Lists() && Abs() == old(Abs()).(shuffled := [], playlist := Extended(old(playlist.items), f))
      ensures Valid() <==> f != ""
    {
      hide Find, HasLive, Count, Indexed;
      NoEmptyName(playlist.items);
      shuffled.Clear();
      var at := playlist.FindFname(f);
      if at == -1 {
        Added(playlist.items, Bare(f));
        var i := playlist.Add(Option.Some(f));
      }
    }

    /** audio_queue_add */
    method QueueAdd(f: string)
      requires Valid()
      modifies queue
      ensures Lists() && Abs() == old(Abs()).(queue := Extended(old(queue.items), f))
      ensures Valid() <==> f != ""
    {
      hide Find, HasLive, Count, Indexed;
      NoEmptyName(queue.items);
      var at := queue.FindFname(f);
      if at == -1 {
        Added(queue.items, Bare(f));
        var i := queue.Add(Option.Some(f));
      }
    }

    /** audio_plist_clear */
    method PlistClear()
      requires Valid()
      modifies playlist, shuffled
      ensures Valid() && Abs() == old(Abs()).(playlist := [], shuffled := [])
    {
      shuffled.Clear();
      playlist.Clear();
    }

    /** audio_queue_clear */
    method QueueClear()
      requires Valid()
      modifies queue
      ensures Valid() && Abs() == old(Abs()).(queue := [])
    {
      queue.Clear();
    }

    /** audio_plist_delete */
    method PlistDelete(f: string)
      requires Valid()
      modifies playlist, shuffled
      ensures Valid()
      ensures Abs() == old(Abs()).(playlist := Delete(old(playlist.items), f),
                                   shuffled := Delete(old(shuffled.items), f))
    {
      hide Find, HasLive, Count, Indexed;
      NoEmptyName(playlist.items);
      NoEmptyName(shuffled.items);
      DeleteRight(playlist.items, f);
      DeleteRight(shuffled.items, f);
      var num := playlist.FindFname(f);
      if num != -1 {
        playlist.Delete(num);
      }
      num := shuffled.FindFname(f);
      if num != -1 {
        shuffled.Delete(num);
      }
    }

    /** audio_queue_delete */
    method QueueDelete(f: string)
      requires Valid()
      modifies queue
      ensures Valid() && Abs() == old(Abs()).(queue := Delete(old(queue.items), f))
    {
      hide Find, HasLive, Count, Indexed;
      NoEmptyName(queue.items);
      DeleteRight(queue.items, f);
      var num := queue.FindFname(f);
      if num != -1 {
        queue.Delete(num);
      }
    }

    /** audio_plist_move */
    method PlistMove(f: string, g: string)
      requires Valid()
      modifies playlist
      ensures Valid()
      ensures Abs() == old(Abs()).(playlist := playlist.items)
      ensures multiset(playlist.items) == multiset(old(playlist.items))
      ensures (f in old(playlist.tree) ==> old(playlist.tree)[f] < |old(playlist.items)|)
              && (g in old(playlist.tree) ==> old(playlist.tree)[g] < |old(playlist.items)|)
      ensures f in old(playlist.tree) && g in old(playlist.tree) ==>
                playlist.items == Swapped(old(playlist.items), old(playlist.tree)[f], old(playlist.tree)[g])
      ensures f !in old(playlist.tree) || g !in old(playlist.tree) ==> playlist.items == old(playlist.items)
      ensures HasLive(old(playlist.items), f) && HasLive(old(playlist.items), g) ==>
                var was := old(playlist.items); playlist.items == Swapped(was, Find(was, f), Find(was, g))
    {
      hide HasLive, Count, Find, Swapped, AllNamed, Distinct, SameFiles;
      ghost var was, t := playlist.items, playlist.tree;
      InIndex(was, t);
      MoveFound(was, t, f);
      MoveFound(was, t, g);
      playlist.SwapFiles(f, g);
      if f in t && g in t {
        SwapMultiset(was, t[f], t[g]);
        SwapDistinct(was, t[f], t[g]);
        SameItems(was, playlist.items);
        SameTrans(shuffled.items, was, playlist.items);
      }
    }

    /** audio_plist_set_time */
    method PlistSetTime(f: string, time: int)
      requires Valid()
      modifies playlist
      ensures Valid() && Abs() == old(Abs()).(playlist := Retimed(old(playlist.items), f, time))
    {
      hide Find, HasLive, Count, Indexed, AllNamed, Distinct, SameFiles;
      NoEmptyName(playlist.items);
      RetimedRight(playlist.items, f, time);
      SameTrans(shuffled.items, playlist.items, Retimed(playlist.items, f, time));
      SameBack(Retimed(playlist.items, f, time), playlist.items);
      var i := playlist.FindFname(f);
      if i != -1 {
        playlist.SetItemTime(i, time);
      }
    }

    /** The rebuilding of the shuffled list. */
    method Remix(rs: seq<nat>)
      requires Valid() && |rs| >= |playlist.items|
      modifies shuffled
      ensures Valid() && Abs() == old(Abs()).(shuffled := Remixed(playlist.items, rs))
    {
      hide Catted, Shuffled, HasLive, Count, Indexed, SameFiles;
      shuffled.Clear();
      RemixFrom(rs);
    }

    /** plist_cat and plist_shuffle on a shuffled list that holds nothing. */
    method RemixFrom(rs: seq<nat>)
      requires Valid() && |rs| >= |playlist.items| && shuffled.items == []
      modifies shuffled
      ensures Valid() && Abs() == old(Abs()).(shuffled := Remixed(playlist.items, rs))
    {
      hide Catted, Shuffled, HasLive, Count, Indexed, SameFiles, Distinct;
      RemixedRight(playlist.items, rs);
      CattedLength([], playlist.items);
      shuffled.Cat(playlist);
      shuffled.Shuffle(rs);
      PureIsDistinct(shuffled.items);
    }

    /** plist_swap_first_fname on a shuffled list of live items only. */
    method Front(f: string)
      requires Valid() && Pure(shuffled.items)
      modifies shuffled
      ensures Valid() && Abs() == old(Abs()).(shuffled := Fronted(old(shuffled.items), f))
    {
      hide Find, HasLive, Count, Indexed, SameFiles, Distinct;
      FrontedRight(shuffled.items, f);
      PureIsDistinct(Fronted(shuffled.items, f));
      SameTrans(Fronted(shuffled.items, f), shuffled.items, playlist.items);
      NoEmptyName(shuffled.items);
      PureSwappable(shuffled.items, Find(shuffled.items, f));
      shuffled.SwapFirstFname(f);
    }

    /** The list that curr_plist points to. */
    function List(): Plist
      reads this
    {
      match curr
      case Regular => playlist
      case Mixed => shuffled
      case Queued => queue
    }

    /** plist_find_fname on the current list. */
    method FindInList(f: string) returns (r: int)
      requires Valid()
      ensures r == Find(Abs().Current(), f)
    {
      hide Find, HasLive, Count, Indexed, SameFiles, Distinct, Plist.Valid;
      NoEmptyName(List().items);
      r := List().FindFname(f);
    }

    /** Where the last file stands, with the file before the queue as a second choice. */
    method FindAnchor() returns (r: int)
      requires Valid()
      ensures r == Anchor(Abs())
    {
      hide Find, HasLive, Count, Indexed, SameFiles, Distinct, Plist.Valid;
      r := FindInList(fname);
      if r == -1 && before != "" {
        r := FindInList(before);
      }
    }

    /** The branch that plays from the queue. */
    method PlayFromQueue()
      requires Valid() && Playable(queue.items)
      modifies this, queue
      ensures Valid() && Abs() == FromQueue(old(Abs()))
    {
      hide Find, HasLive, Count, Indexed, SameFiles, Distinct, NextOf, Plist.Valid;
      if before == "" && fname != "" {
        before := fname;
      }
      curr := Queued;
      pos := queue.Next(-1);
      TookOneHere(pos);
      queue.Delete(pos);
    }

    lemma TookOneHere(i: nat)
      requires Valid() && i < |queue.items|
      ensures var now := queue.items[i := queue.items[i].(deleted := true)]; AllNamed(now) && Distinct(now)
    {
      TookOne(queue.items, i);
    }

    /** The choice of the list to go on with. */
    method ReturnToList(o: Options, rs: seq<nat>)
      requires Valid() && |rs| >= |playlist.items|
      modifies this, shuffled
      ensures Valid() && Abs() == Returned(old(Abs()), o, rs)
    {
      hide Find, HasLive, Count, Indexed, SameFiles, Distinct, NextOf, Remixed, Fronted, AllNamed, Pure, Plist.Valid;
      ReturnedKeeps(Abs(), o, rs);
      if before != "" && o.queueReturn {
        fname := before;
        before := "";
      }
      if o.shuffle {
        curr := Mixed;
        CountSome(playlist.items);
        CountSome(shuffled.items);
        var n := playlist.CountItems();
        var m := shuffled.CountItems();
        if n != 0 && m == 0 {
          EmptyWhenDone();
          RemixFrom(rs);
          RemixedRight(playlist.items, rs);
          if fname != "" {
            Front(fname);
          }
        }
      } else {
        curr := Regular;
      }
    }

    /** A shuffled list of deleted items only, beside a playlist with live ones, is empty. */
    lemma EmptyWhenDone()
      requires Valid() && Playable(playlist.items) && !Playable(shuffled.items)
      ensures shuffled.items == []
    {
      SameSome(shuffled.items, playlist.items);
    }

    method StepBack(o: Options)
      requires Valid() && Playable(Abs().Current())
      modifies this
      ensures Valid() && Abs() == Backward(old(Abs()), o)
    {
      hide Find, HasLive, Count, Indexed, Sound, NextOf, PrevOf, LastOf, Playable, Plist.Valid, Anchor;
      BackwardKeeps(Abs(), o);
      var at := FindAnchor();
      ghost var items := List().items;
      if at == -1 || startedInQueue {
        pos := List().Prev(-1);
        PrevUnique(items, -1, pos);
        startedInQueue := false;
      } else {
        pos := List().Prev(at);
        PrevUnique(items, at, pos);
      }
      if pos == -1 {
        if o.repeat {
          pos := List().Last();
          LastUnique(items, pos);
        }
      }
    }

    method StepForward(o: Options, rs: seq<nat>)
      requires Valid() && Playable(Abs().Current()) && |rs| >= |playlist.items|
      requires o.shuffle <==> curr == Mixed
      modifies this, shuffled
      ensures Valid() && Abs() == Forward(old(Abs()), o, rs)
    {
      hide Find, HasLive, Count, Indexed, Sound, NextOf, Playable, Remixed, Anchor, Plist.Valid;
      ForwardKeeps(Abs(), o, rs);
      var at := FindAnchor();
      if at == -1 || startedInQueue {
        pos := List().Next(-1);
        startedInQueue := false;
      } else {
        pos := List().Next(at);
      }
      if pos == -1 && o.repeat {
        if o.shuffle {
          Repositioned(old(Abs()), -1, startedInQueue);
          Remix(rs);
        }
        pos := List().Next(-1);
      }
    }

    /** The end of a track: go_to_another_file. */
    method GoToAnotherFile(o: Options, q: Request, rs: seq<nat>, rs': seq<nat>)
      requires Valid() && |rs| >= |playlist.items| && |rs'| >= |playlist.items|
      modifies this, shuffled, queue
      ensures Valid() && Abs() == GoTo(old(Abs()), o, q, rs, rs')
    {
      hide Find, HasLive, Count, Indexed, Sound, NextOf, Playable, Remixed, Anchor,
        Backward, Forward, Returned, FromQueue, Plist.Valid;
      GoToKeeps(Abs(), o, q, rs, rs');
      var goNext := q.next || o.autoNext;
      CountSome(queue.items);
      var n := queue.CountItems();
      if n != 0 && goNext {
        PlayFromQueue();
      } else {
        ReturnedLists(Abs(), o, rs);
        ReturnToList(o, rs);
        CountSome(List().items);
        n := List().CountItems();
        if q.prev && n != 0 {
          StepBack(o);
        } else if goNext && n != 0 {
          StepForward(o, rs');
        } else if !o.repeat {
          pos := -1;
        }
        before := "";
      }
    }

    /** The start of a round of play_thread_func: the file to play, "" for none. */
    method StartTrack() returns (file: string)
      requires Valid() && pos != -1
      modifies this
      ensures Valid() && Abs() == Begun(old(Abs())) && file == old(Abs()).File()
    {
      hide Find, HasLive, Count, Indexed, SameFiles, Distinct, AllNamed, Plist.Valid;
      file := if pos < |List().items| then List().items[pos].file else "";
      if file != "" {
        fname := file;
      }
    }

    /** audio_play with an empty name and a queue. */
    method PlayFromQueueFirst()
      requires Valid() && Playable(queue.items)
      modifies this, queue
      ensures Valid()
      ensures var was := old(queue.items); var i := NextOf(was, -1);
        Abs() == old(Abs()).(curr := Queued, pos := i, startedInQueue := true,
                             queue := was[i := was[i].(deleted := true)])
    {
      hide Find, HasLive, Count, Indexed, SameFiles, Distinct, NextOf, Plist.Valid;
      curr := Queued;
      pos := queue.Next(-1);
      TookOneHere(pos);
      queue.Delete(pos);
      startedInQueue := true;
    }

    /** The choice of the list in audio_play. */
    method ChooseList(f: string, o: Options, rs: seq<nat>)
      requires Valid() && |rs| >= |playlist.items|
      modifies this, shuffled
      ensures Valid()
      ensures Abs() == old(Abs()).(curr := if o.shuffle then Mixed else Regular,
                  shuffled := if o.shuffle then Fronted(Remixed(playlist.items, rs), f) else old(shuffled.items))
    {
      hide Find, HasLive, Count, Indexed, NextOf, Remixed, Fronted, Pure, SameFiles, Distinct, Plist.Valid;
      if o.shuffle {
        Remix(rs);
        RemixedRight(playlist.items, rs);
        Front(f);
        curr := Mixed;
      } else {
        curr := Regular;
      }
    }

    /** Where audio_play starts in the current list. */
    method StartPosition(f: string) returns (p: int)
      requires Valid()
      ensures p == if f != "" then Find(Abs().Current(), f) else NextOf(Abs().Current(), -1)
    {
      hide Find, HasLive, Count, Indexed, NextOf, Sound, Plist.Valid, Playable;
      if f != "" {
        p := FindInList(f);
      } else {
        CountSome(List().items);
        NoneNext(List().items);
        var n := List().CountItems();
        if n != 0 {
          p := List().Next(-1);
        } else {
          p := -1;
        }
      }
    }

    /** audio_play; the thread that it stops forgets the file it played. */
    method PlayFile(f: string, o: Options, rs: seq<nat>)
      requires Valid() && |rs| >= |playlist.items|
      modifies this, shuffled, queue
      ensures Valid() && Abs() == Play(old(Abs()), f, o, rs)
    {
      hide Find, HasLive, Count, Indexed, NextOf, Remixed, Fronted, Sound, Plist.Valid, Playable;
      Forgotten(Abs());
      fname := "";
      CountSome(queue.items);
      var n := queue.CountItems();
      if n != 0 && f == "" {
        PlayFromQueueFirst();
      } else {
        ChooseList(f, o, rs);
        var p := StartPosition(f);
        Repositioned(Abs(), p, startedInQueue);
        pos := p;
      }
    }
  }
}
