/** The playlist of src/library/playlist.cpp: items with deletion marks, an index from file
    names to positions, and running totals. */
module Plist {
  import opened FileTags
  import opened Numbers
  import opened Wrappers

  /** A file name of "" means that the item has none yet. The titles are made from the tags and
      from the file name. */
  datatype Item = Item(file: string, titleTags: string, titleFile: string, tags: Option<Tags>, deleted: bool)
  {
    predicate Live() { !deleted }

    predicate Named() { file != "" }

    predicate Timed() { !deleted && Time() != -1 }

    function Time(): int {
      if tags.Some? then tags.value.time else -1
    }
  }

  /** An item as plist_add makes it. */
  function Bare(file: string): Item {
    Item(file, "", "", None, false)
  }

  // ---------- totals ----------

  datatype Tally = Tally(live: int, time: int, timed: int)
  {
    function Plus(t: Tally): Tally { Tally(live + t.live, time + t.time, timed + t.timed) }

    function Minus(t: Tally): Tally { Tally(live - t.live, time - t.time, timed - t.timed) }
  }

  /** What one item contributes: a deleted one nothing. */
  function Weight(x: Item): Tally {
    Tally(if x.Live() then 1 else 0, if x.Timed() then x.Time() else 0, if x.Timed() then 1 else 0)
  }

  /** How many items are live, the sum of their known times, and how many have one. */
  function Count(items: seq<Item>): Tally {
    if items == [] then Tally(0, 0, 0)
    else Count(items[..|items| - 1]).Plus(Weight(items[|items| - 1]))
  }

  lemma CountAppend(items: seq<Item>, x: Item)
    ensures Count(items + [x]) == Count(items).Plus(Weight(x))
  {
    assert (items + [x])[..|items|] == items;
  }

  lemma {:induction false} CountUpdate(items: seq<Item>, k: nat, x: Item)
    requires k < |items|
    ensures Count(items[k := x]) == Count(items).Minus(Weight(items[k])).Plus(Weight(x))
  {
    hide Weight;
    var last := |items| - 1;
    if k == last {
      assert items[k := x][..last] == items[..last];
    } else {
      CountUpdate(items[..last], k, x);
      assert items[k := x][..last] == items[..last][k := x];
    }
  }

  lemma {:induction false} CountLive(items: seq<Item>)
    ensures 0 <= Count(items).live <= |items|
    ensures Count(items).live == 0 <==> forall i :: 0 <= i < |items| ==> items[i].deleted
  {
    hide Count, Weight;
    if items == [] {
      CountNone();
    } else {
      CountLive(items[..|items| - 1]);
      CountLiveStep(items);
      assert items == items[..|items| - 1] + [items[|items| - 1]];
    }
  }

  lemma {:induction false} CountTimed(items: seq<Item>)
    ensures Count(items).timed <= Count(items).live
    ensures Count(items).timed == Count(items).live <==>
            forall i :: 0 <= i < |items| && items[i].Live() ==> items[i].Time() != -1
  {
    hide Count, Weight;
    if items == [] {
      CountNone();
    } else {
      CountTimed(items[..|items| - 1]);
      CountLiveStep(items);
      assert items == items[..|items| - 1] + [items[|items| - 1]];
    }
  }

  lemma CountNone()
    ensures Count([]) == Tally(0, 0, 0)
  {
  }

  lemma CountLiveStep(items: seq<Item>)
    requires items != []
    ensures var n := |items| - 1;
      && Count(items).live == Count(items[..n]).live + (if items[n].Live() then 1 else 0)
      && Count(items).timed == Count(items[..n]).timed + (if items[n].Timed() then 1 else 0)
      && Count(items).time == Count(items[..n]).time
                              + (if items[n].Live() && items[n].Time() != -1 then items[n].Time() else 0)
  {
  }

  function Swapped(items: seq<Item>, a: nat, b: nat): (r: seq<Item>)
    requires a < |items| && b < |items|
    ensures |r| == |items|
  {
    items[a := items[b]][b := items[a]]
  }

  lemma SwapKeeps(items: seq<Item>, a: nat, b: nat)
    requires a < |items| && b < |items|
    ensures Count(Swapped(items, a, b)) == Count(items)
  {
    hide Weight, Count;
    CountUpdate(items, a, items[b]);
    CountUpdate(items[a := items[b]], b, items[a]);
    Cancel(Count(items), Weight(items[a]), Weight(items[b]));
    if a == b {
      assert Swapped(items, a, b) == items;
    } else {
      assert items[a := items[b]][b] == items[b];
    }
  }

  lemma SwapMultiset(items: seq<Item>, a: nat, b: nat)
    requires a < |items| && b < |items|
    ensures multiset(Swapped(items, a, b)) == multiset(items)
  {
    if a == b {
      assert Swapped(items, a, b) == items;
    }
  }

  lemma Cancel(t: Tally, x: Tally, y: Tally)
    ensures t.Minus(x).Plus(y).Minus(y).Plus(x) == t
  {
  }

  // ---------- the index ----------

  /** Every live item that has a name is found under it, and every entry leads to an item of
      that name. */
  ghost predicate Indexed(items: seq<Item>, tree: map<string, nat>) {
    && (forall i :: 0 <= i < |items| && items[i].Live() && items[i].Named() ==>
          items[i].file in tree && tree[items[i].file] == i)
    && (forall f :: f in tree ==> tree[f] < |items| && items[tree[f]].file == f)
  }

  ghost predicate HasLive(items: seq<Item>, f: string) {
    exists i :: 0 <= i < |items| && items[i].Live() && items[i].file == f
  }

  /** The position of the last live item named `f`, or -1. */
  function Find(items: seq<Item>, f: string): (r: int)
    ensures -1 <= r < |items|
    ensures r >= 0 ==> items[r].Live() && items[r].file == f
    ensures r == -1 <==> !HasLive(items, f)
  {
    if items == [] then -1
    else if items[|items| - 1].Live() && items[|items| - 1].file == f then |items| - 1
    else
      var r := Find(items[..|items| - 1], f);
      assert r == -1 ==> forall i :: 0 <= i < |items| - 1 ==> items[i] == items[..|items| - 1][i];
      r
  }

  lemma FindNone(items: seq<Item>, f: string)
    requires !HasLive(items, f)
    ensures Find(items, f) == -1
    ensures forall i :: 0 <= i < |items| && items[i].Live() ==> items[i].file != f
  {
  }

  lemma FindUnique(items: seq<Item>, tree: map<string, nat>, f: string)
    requires Indexed(items, tree) && f != ""
    ensures Find(items, f) == if f in tree && items[tree[f]].Live() then tree[f] else -1
  {
  }

  /** Adding an item under its name: the index stays right exactly when no live item has the
      name already. */
  lemma IndexAppend(items: seq<Item>, tree: map<string, nat>, x: Item)
    requires Indexed(items, tree)
    ensures Indexed(items + [x], tree[x.file := |items|]) <==> x.file == "" || !HasLive(items, x.file)
    ensures x.file == "" ==> Indexed(items + [x], tree)
  {
    var now := items + [x];
    assert forall i :: 0 <= i < |items| ==> now[i] == items[i];
    if x.file != "" && HasLive(items, x.file) {
      var i :| 0 <= i < |items| && items[i].Live() && items[i].file == x.file;
      assert now[i].Live();
    }
  }

  lemma IndexUpdate(items: seq<Item>, tree: map<string, nat>, k: nat, x: Item)
    requires k < |items| && Indexed(items, tree)
    requires x.file == items[k].file && (x.Live() ==> items[k].Live())
    ensures Indexed(items[k := x], tree)
  {
  }

  lemma IndexSwap(items: seq<Item>, tree: map<string, nat>, f: string, g: string)
    requires Indexed(items, tree) && f in tree && g in tree
    ensures Indexed(Swapped(items, tree[f], tree[g]), tree[f := tree[g]][g := tree[f]])
  {
  }

  /** No two live items share a name. */
  ghost predicate Distinct(items: seq<Item>) {
    forall i, j :: 0 <= i < j < |items| && items[i].Live() && items[j].Live() ==>
      items[i].file != items[j].file
  }

  /** Names of live items that no other item has, deleted ones included. */
  ghost predicate Unshadowed(items: seq<Item>) {
    forall i, j :: 0 <= i < |items| && 0 <= j < |items| && i != j && items[i].Live() && items[i].Named() ==>
      items[j].file != items[i].file
  }

  /** No live item is followed by an item of its name. */
  ghost predicate LastOfName(items: seq<Item>) {
    forall i, j :: 0 <= i < j < |items| && items[i].Live() && items[i].Named() ==>
      items[j].file != items[i].file
  }

  /** The index that plist_shuffle and plist_sort_fname build, item by item. */
  function Reindexed(items: seq<Item>): (t: map<string, nat>)
    ensures forall f :: f in t ==> t[f] < |items|
  {
    if items == [] then map[] else Reindexed(items[..|items| - 1])[items[|items| - 1].file := |items| - 1]
  }

  /** The index leads to the last item of every name. */
  ghost predicate FindsLast(items: seq<Item>, t: map<string, nat>) {
    && (forall i :: 0 <= i < |items| ==> items[i].file in t && i <= t[items[i].file])
    && (forall f :: f in t ==> t[f] < |items| && items[t[f]].file == f)
  }

  lemma {:induction false} ReindexedFindsLast(items: seq<Item>)
    ensures FindsLast(items, Reindexed(items))
  {
    hide Reindexed, FindsLast;
    if items == [] {
      ReindexedNone();
      NothingToFind();
    } else {
      var front, x := items[..|items| - 1], items[|items| - 1];
      ReindexedFindsLast(front);
      ReindexedStep(front, x);
      OneMoreFound(front, Reindexed(front), x);
      assert items == front + [x];
    }
  }

  lemma NothingToFind()
    ensures FindsLast([], map[])
  {
  }

  lemma OneMoreFound(items: seq<Item>, t: map<string, nat>, x: Item)
    requires FindsLast(items, t)
    ensures FindsLast(items + [x], t[x.file := |items|])
  {
    var now, t' := items + [x], t[x.file := |items|];
    assert forall i :: 0 <= i < |items| ==> now[i] == items[i];
  }

  lemma ReindexedStep(items: seq<Item>, x: Item)
    ensures Reindexed(items + [x]) == Reindexed(items)[x.file := |items|]
  {
    assert (items + [x])[..|items|] == items;
  }

  lemma ReindexedNone()
    ensures Reindexed([]) == map[]
  {
  }

  lemma UnshadowedLast(items: seq<Item>)
    ensures Unshadowed(items) ==> LastOfName(items)
  {
  }

  lemma ReindexedRight(items: seq<Item>)
    ensures Indexed(items, Reindexed(items)) <==> LastOfName(items)
  {
    hide Reindexed;
    ReindexedFindsLast(items);
    var t := Reindexed(items);
    if LastOfName(items) {
      forall i | 0 <= i < |items| && items[i].Live() && items[i].Named()
        ensures t[items[i].file] == i
      {
        assert items[t[items[i].file]].file == items[i].file;
      }
    }
  }

  // ---------- shuffling ----------

  /** plist_shuffle: positions n-1 down to 1 each swap with one drawn from those not above. */
  function Shuffled(items: seq<Item>, n: nat, rs: seq<nat>): (r: seq<Item>)
    requires n <= |items| && n <= |rs|
    ensures |r| == |items|
    decreases n
  {
    if n <= 1 then items else Shuffled(Swapped(items, n - 1, rs[n - 1] % n), n - 1, rs)
  }

  lemma {:induction false} ShuffleKeeps(items: seq<Item>, n: nat, rs: seq<nat>)
    requires n <= |items| && n <= |rs|
    ensures multiset(Shuffled(items, n, rs)) == multiset(items)
    ensures Count(Shuffled(items, n, rs)) == Count(items)
    ensures Unshadowed(items) ==> Unshadowed(Shuffled(items, n, rs))
    decreases n
  {
    hide Count, Weight, Unshadowed, Swapped;
    if n > 1 {
      var next := Swapped(items, n - 1, rs[n - 1] % n);
      SwapKeeps(items, n - 1, rs[n - 1] % n);
      SwapMultiset(items, n - 1, rs[n - 1] % n);
      SwapUnshadowed(items, n - 1, rs[n - 1] % n);
      ShuffleKeeps(next, n - 1, rs);
    }
  }

  lemma SwapUnshadowed(items: seq<Item>, a: nat, b: nat)
    requires a < |items| && b < |items|
    ensures Unshadowed(items) ==> Unshadowed(Swapped(items, a, b))
  {
    var now := Swapped(items, a, b);
    if Unshadowed(items) {
      forall i, j | 0 <= i < |now| && 0 <= j < |now| && i != j && now[i].Live() && now[i].Named()
        ensures now[j].file != now[i].file
      {
        var i' := if i == a then b else if i == b then a else i;
        var j' := if j == a then b else if j == b then a else j;
        assert now[i] == items[i'] && now[j] == items[j'] && i' != j';
      }
    }
  }

  lemma {:induction false} ShuffleReads(items: seq<Item>, n: nat, rs: seq<nat>, rs': seq<nat>)
    requires n <= |items| && n <= |rs| && n <= |rs'|
    requires forall k :: 0 <= k < n ==> rs[k] == rs'[k]
    ensures Shuffled(items, n, rs) == Shuffled(items, n, rs')
    decreases n
  {
    if n > 1 {
      ShuffleReads(Swapped(items, n - 1, rs[n - 1] % n), n - 1, rs, rs');
    }
  }

  lemma ShuffledStep(items: seq<Item>, n: nat, rs: seq<nat>)
    requires 1 < n <= |items| && n <= |rs|
    ensures Shuffled(items, n, rs) == Shuffled(Swapped(items, n - 1, rs[n - 1] % n), n - 1, rs)
  {
  }

  lemma ShuffledTo(items: seq<Item>, n: nat, rs: seq<nat>, j: nat)
    requires 1 < n <= |items| && n <= |rs| && rs[n - 1] == j < n
    ensures Shuffled(items, n, rs) == Shuffled(Swapped(items, n - 1, j), n - 1, rs)
  {
    hide Shuffled, Swapped;
    ShuffledStep(items, n, rs);
    SmallMod(j, n);
  }

  lemma ShuffledShort(items: seq<Item>, n: nat, rs: seq<nat>)
    requires n <= 1 && n <= |items| && n <= |rs|
    ensures Shuffled(items, n, rs) == items
  {
  }

  lemma ShuffleNone(items: seq<Item>, rs: seq<nat>)
    requires |rs| <= 1 && |rs| <= |items|
    ensures Shuffled(items, |rs|, rs) == items
  {
  }

  lemma ShuffleOne(items: seq<Item>, rs: seq<nat>, n: nat)
    requires 1 < n <= |items| && |rs| == n && rs[n - 1] < n
    ensures Shuffled(items, n, rs) == Shuffled(Swapped(items, n - 1, rs[n - 1]), n - 1, rs[..n - 1])
  {
    hide Swapped, Shuffled;
    ShuffledTo(items, n, rs, rs[n - 1]);
    ShuffleReads(Swapped(items, n - 1, rs[n - 1]), n - 1, rs, rs[..n - 1]);
  }

  /** Every order of the items is the outcome of some draws. */
  lemma {:induction false} ShuffleReachesAll(items: seq<Item>, target: seq<Item>, n: nat) returns (rs: seq<nat>)
    requires n <= |items| == |target|
    requires multiset(items[..n]) == multiset(target[..n]) && items[n..] == target[n..]
    ensures |rs| == n && Shuffled(items, n, rs) == target
    decreases n
  {
    hide Swapped, Shuffled;
    if n <= 1 {
      rs := seq(n, i => 0);
      ShuffleNone(items, rs);
      ShortSame(items[..n], target[..n]);
      assert items == items[..n] + items[n..] && target == target[..n] + target[n..];
    } else {
      var j := ShuffleStep(items, target, n);
      var rest := ShuffleReachesAll(Swapped(items, n - 1, j), target, n - 1);
      rs := rest + [j];
      assert rs[..n - 1] == rest;
      ShuffleOne(items, rs, n);
    }
  }

  lemma ShortSame(a: seq<Item>, b: seq<Item>)
    requires |a| == |b| <= 1 && multiset(a) == multiset(b)
    ensures a == b
  {
    if |b| == 1 {
      assert b[0] in multiset(a);
    }
  }

  lemma ShuffleStep(items: seq<Item>, target: seq<Item>, n: nat) returns (j: nat)
    requires 1 <= n <= |items| == |target|
    requires multiset(items[..n]) == multiset(target[..n]) && items[n..] == target[n..]
    ensures j < n
    ensures Swapped(items, n - 1, j)[n - 1..] == target[n - 1..]
    ensures multiset(Swapped(items, n - 1, j)[..n - 1]) == multiset(target[..n - 1])
  {
    hide Swapped;
    j := SameLast(items[..n], target[..n]);
    SwapSplits(items, n, j);
    assert target[..n][..n - 1] == target[..n - 1];
    assert target[n - 1..] == [target[n - 1]] + target[n..];
  }

  /** A swap with the last of the first `n` items leaves what follows them alone. */
  lemma SwapSplits(items: seq<Item>, n: nat, j: nat)
    requires j < n <= |items|
    ensures Swapped(items, n - 1, j)[..n - 1] == Swapped(items[..n], n - 1, j)[..n - 1]
    ensures Swapped(items, n - 1, j)[n - 1..] == [items[..n][j]] + items[n..]
  {
  }

  /** The last item of `to` can be swapped into the last place of `from`. */
  lemma SameLast(from: seq<Item>, to: seq<Item>) returns (j: nat)
    requires |from| == |to| > 0 && multiset(from) == multiset(to)
    ensures j < |from| && from[j] == to[|to| - 1]
    ensures multiset(Swapped(from, |from| - 1, j)[..|from| - 1]) == multiset(to[..|to| - 1])
  {
    hide Swapped;
    var n := |from| - 1;
    j := PlaceOf(from, to[n]) by {
      assert to[n] in multiset(from);
    }
    SwapMultiset(from, n, j);
    SwapLast(from, j);
    var front := Swapped(from, n, j)[..n];
    assert to == to[..n] + [to[n]];
    SameFront(front, to[..n], to[n]);
  }

  lemma PlaceOf(items: seq<Item>, x: Item) returns (j: nat)
    requires x in multiset(items)
    ensures j < |items| && items[j] == x
  {
    j :| 0 <= j < |items| && items[j] == x;
  }

  lemma SwapLast(items: seq<Item>, j: nat)
    requires j < |items|
    ensures Swapped(items, |items| - 1, j) == Swapped(items, |items| - 1, j)[..|items| - 1] + [items[j]]
  {
  }

  lemma SameFront(a: seq<Item>, b: seq<Item>, x: Item)
    requires multiset(a + [x]) == multiset(b + [x])
    ensures multiset(a) == multiset(b)
  {
    assert multiset(a) == multiset(a + [x]) - multiset{x};
    assert multiset(b) == multiset(b + [x]) - multiset{x};
  }

  // ---------- sorting ----------

  ghost predicate StrictOrder(less: (string, string) -> bool) {
    && (forall a :: !less(a, a))
    && (forall a, b, c :: less(a, b) && less(b, c) ==> less(a, c))
  }

  ghost predicate Ascending(less: (string, string) -> bool, keys: seq<string>) {
    forall i, j :: 0 <= i < j < |keys| ==> less(keys[i], keys[j])
  }

  predicate InRange(pos: seq<nat>, n: nat) {
    forall k :: 0 <= k < |pos| ==> pos[k] < n
  }

  /** The positions of the live items that the index lists, in the order of `keys`. */
  function Listed(items: seq<Item>, tree: map<string, nat>, keys: seq<string>): (r: seq<nat>)
    requires forall f :: f in keys ==> f in tree && tree[f] < |items|
    ensures InRange(r, |items|)
  {
    if keys == [] then []
    else
      var front, at := Listed(items, tree, keys[..|keys| - 1]), tree[keys[|keys| - 1]];
      if items[at].deleted then front else front + [at]
  }

  function At(items: seq<Item>, pos: seq<nat>): (r: seq<Item>)
    requires InRange(pos, |items|)
    ensures |r| == |pos| && forall k :: 0 <= k < |r| ==> r[k] == items[pos[k]]
  {
    seq(|pos|, k requires 0 <= k < |pos| => items[pos[k]])
  }

  ghost predicate KeysOf(tree: map<string, nat>, items: seq<Item>, keys: seq<string>) {
    forall f :: f in keys ==> f in tree && tree[f] < |items| && items[tree[f]].file == f
  }

  lemma {:induction false} ListedIsSorted(items: seq<Item>, tree: map<string, nat>, keys: seq<string>,
                                          less: (string, string) -> bool)
    requires KeysOf(tree, items, keys) && Ascending(less, keys)
    ensures var pos := Listed(items, tree, keys);
      && (forall i :: 0 <= i < |pos| ==> items[pos[i]].Live() && items[pos[i]].file in keys)
      && (forall f :: f in keys && items[tree[f]].Live() ==> tree[f] in pos)
      && (forall i, j :: 0 <= i < j < |pos| ==> less(items[pos[i]].file, items[pos[j]].file))
  {
    if keys != [] {
      var front, last := keys[..|keys| - 1], keys[|keys| - 1];
      assert keys == front + [last];
      ListedIsSorted(items, tree, front, less);
      assert forall f :: f in front ==> less(f, last);
    }
  }

  /** What plist_sort_fname makes: live items of the index in the order of their names, each
      of them once, under a right index. */
  lemma SortedIndexed(items: seq<Item>, tree: map<string, nat>, keys: seq<string>, less: (string, string) -> bool)
    requires Indexed(items, tree) && StrictOrder(less) && Ascending(less, keys)
    requires forall f :: f in keys <==> f in tree
    ensures KeysOf(tree, items, keys)
    ensures var pos := Listed(items, tree, keys);
      && (forall i :: 0 <= i < |items| && items[i].Live() && items[i].Named() ==> i in pos)
      && (forall i, j :: 0 <= i < j < |pos| ==> pos[i] != pos[j])
      && (forall k :: 0 <= k < |pos| ==> items[pos[k]].Live())
      && (forall i, j :: 0 <= i < j < |pos| ==> less(items[pos[i]].file, items[pos[j]].file))
      && Indexed(At(items, pos), Reindexed(At(items, pos)))
  {
    hide Listed, Reindexed, At;
    ListedIsSorted(items, tree, keys, less);
    var pos := Listed(items, tree, keys);
    ReindexedRight(At(items, pos));
  }

  lemma {:induction false} ListedFromIndex(items: seq<Item>, tree: map<string, nat>, keys: seq<string>)
    requires KeysOf(tree, items, keys)
    ensures var pos := Listed(items, tree, keys);
      forall k :: 0 <= k < |pos| ==> items[pos[k]].file in tree && tree[items[pos[k]].file] == pos[k]
  {
    if keys != [] {
      var front, last := keys[..|keys| - 1], keys[|keys| - 1];
      assert keys == front + [last];
      ListedFromIndex(items, tree, front);
      assert last in keys && items[tree[last]].file == last;
      ListedStep(items, tree, front, last);
    }
  }

  /** Sorting keeps every live item exactly when the index holds each one that has no name
      under the empty name, so that there is one of them at most. */
  lemma SortKeepsAll(items: seq<Item>, tree: map<string, nat>, keys: seq<string>, less: (string, string) -> bool)
    requires Indexed(items, tree) && StrictOrder(less) && Ascending(less, keys)
    requires forall f :: f in keys <==> f in tree
    ensures KeysOf(tree, items, keys)
    ensures (forall i :: 0 <= i < |items| && items[i].Live() ==> i in Listed(items, tree, keys)) <==>
            (forall i :: 0 <= i < |items| && items[i].Live() && !items[i].Named() ==> "" in tree && tree[""] == i)
  {
    hide Listed, Reindexed, At;
    SortedIndexed(items, tree, keys, less);
    ListedIsSorted(items, tree, keys, less);
    ListedFromIndex(items, tree, keys);
    var pos := Listed(items, tree, keys);
    forall i | 0 <= i < |items| && items[i].Live() && !items[i].Named()
      ensures i in pos <==> "" in tree && tree[""] == i
    {
      if i in pos {
        var k :| 0 <= k < |pos| && pos[k] == i;
        assert items[pos[k]].file == "";
      }
    }
  }

  /** It need not: an item added without a name, beside a named one, is lost. */
  lemma NamelessIsLost(f: string)
    requires f != ""
    ensures var items := [Bare(""), Bare(f)];
      Indexed(items, map[f := 1]) && Listed(items, map[f := 1], [f]) == [1]
  {
    var items := [Bare(""), Bare(f)];
    assert [f][..0] == [];
  }

  lemma ListedNone(items: seq<Item>, tree: map<string, nat>)
    ensures Listed(items, tree, []) == []
  {
  }

  // ---------- joining and removing ----------

  /** plist_cat: the live items of `b` whose names are not yet live in the result. */
  function Catted(a: seq<Item>, b: seq<Item>): (r: seq<Item>)
  {
    if b == [] then a
    else
      var r, x := Catted(a, b[..|b| - 1]), b[|b| - 1];
      if x.deleted || Find(r, x.file) != -1 then r else r + [x]
  }

  /** The result has the names of both, as a set. */
  lemma {:induction false} CattedNames(a: seq<Item>, b: seq<Item>, f: string)
    ensures HasLive(Catted(a, b), f) <==> HasLive(a, f) || HasLive(b, f)
  {
    hide Find;
    if b != [] {
      var r, x := Catted(a, b[..|b| - 1]), b[|b| - 1];
      CattedNames(a, b[..|b| - 1], f);
      hide Catted;
      HasLiveAppend(b[..|b| - 1], x, f);
      HasLiveAppend(r, x, f);
      assert b == b[..|b| - 1] + [x];
    }
  }

  /** The one list stays as it is. After it come, from the other and in its order, copies of the first
      live item of each name that was not live. */
  lemma {:induction false} CattedCopies(a: seq<Item>, b: seq<Item>) returns (pos: seq<nat>)
    ensures InRange(pos, |b|) && Catted(a, b) == a + At(b, pos)
    ensures forall i, j :: 0 <= i < j < |pos| ==> pos[i] < pos[j]
    ensures forall i :: 0 <= i < |b| ==>
              (i in pos <==> b[i].Live() && !HasLive(a, b[i].file) && !HasLive(b[..i], b[i].file))
  {
    hide Find, HasLive;
    if b == [] {
      pos := [];
    } else {
      var n := |b| - 1;
      var front := CattedCopies(a, b[..n]);
      CattedNames(a, b[..n], b[n].file);
      assert forall i :: 0 <= i < n ==> b[..n][..i] == b[..i];
      pos := front + if b[n].Live() && Find(Catted(a, b[..n]), b[n].file) == -1 then [n] else [];
      assert At(b, front) == At(b[..n], front);
    }
  }

  lemma HasLiveAppend(items: seq<Item>, x: Item, f: string)
    ensures HasLive(items + [x], f) <==> HasLive(items, f) || (x.Live() && x.file == f)
  {
    var now := items + [x];
    assert forall i :: 0 <= i < |items| ==> now[i] == items[i];
    if HasLive(items, f) {
      var i :| 0 <= i < |items| && items[i].Live() && items[i].file == f;
      assert now[i].Live();
    }
    if x.Live() && x.file == f {
      assert now[|items|].Live();
    }
  }

  /** Copied into an empty list, every item is live and no two share a name. */
  lemma {:induction false} CattedFresh(b: seq<Item>)
    ensures forall i :: 0 <= i < |Catted([], b)| ==> Catted([], b)[i].Live()
    ensures forall i, j :: 0 <= i < j < |Catted([], b)| ==> Catted([], b)[i].file != Catted([], b)[j].file
    ensures forall i :: 0 <= i < |Catted([], b)| ==> Catted([], b)[i] in b
  {
    hide HasLive;
    if b != [] {
      var r, x := Catted([], b[..|b| - 1]), b[|b| - 1];
      CattedFresh(b[..|b| - 1]);
      if !(x.deleted || Find(r, x.file) != -1) {
        FreshAppend(r, x);
      }
    }
  }

  lemma FreshAppend(r: seq<Item>, x: Item)
    requires (forall i :: 0 <= i < |r| ==> r[i].Live()) && Find(r, x.file) == -1
    ensures forall i :: 0 <= i < |r| ==> r[i].file != x.file
  {
    hide Find;
  }

  /** plist_remove_common_items */
  function Without(a: seq<Item>, b: seq<Item>): (r: seq<Item>)
    ensures |r| == |a|
    ensures forall i :: 0 <= i < |a| ==>
              r[i] == a[i].(deleted := a[i].deleted || HasLive(b, a[i].file))
  {
    seq(|a|, i requires 0 <= i < |a| => a[i].(deleted := a[i].deleted || Find(b, a[i].file) != -1))
  }

  /** plist_discard_tags */
  function Untagged(items: seq<Item>): (r: seq<Item>)
    ensures |r| == |items|
    ensures forall i :: 0 <= i < |items| ==> r[i] == if items[i].deleted then items[i] else items[i].(tags := None)
  {
    seq(|items|, i requires 0 <= i < |items| =>
      if items[i].deleted then items[i] else items[i].(tags := None))
  }

  lemma {:induction false} UntaggedCount(items: seq<Item>)
    ensures Count(Untagged(items)) == Tally(Count(items).live, 0, 0)
  {
    hide Count, Weight;
    if items == [] {
      CountNone();
    } else {
      var front, x := items[..|items| - 1], items[|items| - 1];
      var y := if x.deleted then x else x.(tags := None);
      UntaggedCount(front);
      CountAppend(front, x);
      CountAppend(Untagged(front), y);
      UntaggedWeight(x);
      assert items == front + [x] && Untagged(items) == Untagged(front) + [y];
    }
  }

  lemma UntaggedWeight(x: Item)
    ensures Weight(if x.deleted then x else x.(tags := None)) == Tally(Weight(x).live, 0, 0)
  {
  }

  lemma UntaggedIndexed(items: seq<Item>, tree: map<string, nat>)
    requires Indexed(items, tree)
    ensures Indexed(Untagged(items), tree)
  {
  }

  /** Whether item `num` can be renamed to `f` under a right index: no other live item has the
      old name or the new one, and no entry for the empty name leads to the item. */
  ghost predicate Renamable(items: seq<Item>, tree: map<string, nat>, num: nat, f: string)
    requires num < |items|
  {
    && (forall i :: 0 <= i < |items| && i != num && items[i].Live() && items[i].Named() ==>
          items[i].file != items[num].file && items[i].file != f)
    && (items[num].file == "" && f != "" && "" in tree ==> tree[""] != num)
  }

  lemma RenameIndex(items: seq<Item>, tree: map<string, nat>, num: nat, f: string)
    requires num < |items| && Indexed(items, tree)
    ensures Indexed(items[num := items[num].(file := f)],
                    (if items[num].file != "" then tree - {items[num].file} else tree)[f := num])
            <==> Renamable(items, tree, num, f)
  {
    var now := items[num := items[num].(file := f)];
    var t := (if items[num].file != "" then tree - {items[num].file} else tree)[f := num];
    assert forall i :: 0 <= i < |items| && i != num ==> now[i] == items[i];
    if Indexed(now, t) {
      assert now[num].file == f;
      if items[num].file == "" && f != "" && "" in tree {
        assert "" in t;
      }
      forall i | 0 <= i < |items| && i != num && items[i].Live() && items[i].Named()
        ensures items[i].file != items[num].file && items[i].file != f
      {
        assert now[i].Live();
      }
    }
  }

  /** What the index leads to under `f`: a live item, or -1. */
  function Found(items: seq<Item>, tree: map<string, nat>, f: string): (r: int)
    requires f in tree ==> tree[f] < |items|
    ensures -1 <= r < |items|
  {
    if f in tree && items[tree[f]].Live() then tree[f] else -1
  }

  /** Whether the item at `i` can come first: it is there already, it is missing, or the first
      item is live, without a name, or has a name that no other item bears live. */
  ghost predicate FirstSwappable(items: seq<Item>, i: int)
    requires i < |items|
  {
    i > 0 ==> items[0].Live() || !items[0].Named() || !HasLive(items, items[0].file)
  }

  lemma FirstIndex(items: seq<Item>, tree: map<string, nat>, f: string)
    requires Indexed(items, tree) && Found(items, tree, f) > 0
    ensures var i := Found(items, tree, f);
      var t := (tree - {f} - {items[0].file})[f := 0][items[0].file := i];
      Indexed(Swapped(items, 0, i), t) <==> FirstSwappable(items, i)
  {
    var i := Found(items, tree, f);
    var now, t := Swapped(items, 0, i), (tree - {f} - {items[0].file})[f := 0][items[0].file := i];
    assert forall k :: 0 < k < |items| && k != i ==> now[k] == items[k];
    assert now[0] == items[i] && now[i] == items[0];
    if items[0].deleted && items[0].Named() && HasLive(items, items[0].file) {
      var k :| 0 <= k < |items| && items[k].Live() && items[k].file == items[0].file;
      assert if k == i then now[0].Live() else now[k].Live();
    }
  }

  lemma NotMoved(items: seq<Item>, i: int)
    requires i < |items|
    ensures i <= 0 ==> FirstSwappable(items, i)
  {
  }

  lemma InIndex(items: seq<Item>, tree: map<string, nat>)
    requires Indexed(items, tree)
    ensures forall f :: f in tree ==> tree[f] < |items|
    ensures forall f :: f in tree && items[tree[f]].Live() ==> items[tree[f]].file == f
  {
  }

  /** The next live item after `num`, or -1. */
  function NextOf(items: seq<Item>, num: int): (r: int)
    requires num >= -1
    ensures r == -1 || num < r < |items|
    ensures r >= 0 ==> items[r].Live() && forall i :: num < i < r ==> items[i].deleted
    ensures r == -1 ==> forall i :: num < i < |items| ==> items[i].deleted
    decreases |items| - num
  {
    if num + 1 >= |items| then -1
    else if items[num + 1].Live() then num + 1
    else NextOf(items, num + 1)
  }

  lemma ListedStep(items: seq<Item>, tree: map<string, nat>, keys: seq<string>, f: string)
    requires forall g :: g in keys || g == f ==> g in tree && tree[g] < |items|
    ensures Listed(items, tree, keys + [f]) ==
            Listed(items, tree, keys) + if items[tree[f]].Live() then [tree[f]] else []
  {
    assert (keys + [f])[..|keys|] == keys;
  }

  lemma CattedStep(a: seq<Item>, b: seq<Item>, x: Item)
    ensures Catted(a, b + [x]) == Catted(a, b) + if x.deleted || Find(Catted(a, b), x.file) != -1 then [] else [x]
  {
    assert (b + [x])[..|b|] == b;
  }

  // ---------- the playlist ----------

  class Plist {
    var items: seq<Item>
    var notDeleted: int
    var totalTime: int
    var itemsWithTime: int
    var tree: map<string, nat>

    ghost predicate Totals()
      reads this
    {
      Tally(notDeleted, totalTime, itemsWithTime) == Count(items)
    }

    ghost predicate Valid()
      reads this
    {
      Indexed(items, tree) && Totals()
    }

    constructor ()
      ensures Valid() && items == [] && tree == map[]
    {
      items, notDeleted, totalTime, itemsWithTime, tree := [], 0, 0, 0, map[];
    }

    /** plist_add; no name stands for a null pointer. The index stays right exactly when no
        live item has the name already. */
    method Add(name: Option<string>) returns (idx: nat)
      requires Valid()
      modifies this
      ensures idx == |old(items)|
      ensures items == old(items) + [Bare(if name.Some? then name.value else "")]
      ensures Totals()
      ensures Indexed(items, tree) <==> name.None? || name.value == "" || !HasLive(old(items), name.value)
      ensures tree == if name.Some? then old(tree)[name.value := idx] else old(tree)
    {
      hide Count, Indexed, HasLive;
      idx := |items|;
      var x := Bare(if name.Some? then name.value else "");
      CountAppend(items, x);
      IndexAppend(items, tree, x);
      items := items + [x];
      if name.Some? {
        tree := tree[name.value := idx];
      }
      notDeleted := notDeleted + 1;
    }

    /** plist_add_from_item, which copies the deletion mark too: the totals stay right exactly
        for items that are not deleted. */
    method AddFromItem(x: Item) returns (pos: nat)
      requires Valid()
      modifies this
      ensures pos == |old(items)| && items == old(items) + [x]
      ensures tree == old(tree)[x.file := pos]
      ensures Totals() <==> x.Live()
      ensures Indexed(items, tree) <==> x.file == "" || !HasLive(old(items), x.file)
    {
      hide Count, Indexed, HasLive;
      ghost var before := items;
      pos := Add(Some(x.file));
      CountAppend(before, items[pos]);
      CountAppend(before, x);
      IndexAppend(before, old(tree), x);
      items := items[pos := x];
      assert items == before + [x];
      if x.tags.Some? && x.tags.value.time != -1 {
        totalTime := totalTime + x.tags.value.time;
        itemsWithTime := itemsWithTime + 1;
      }
    }

    method Delete(num: nat)
      requires Valid() && num < |items| && items[num].Live()
      modifies this
      ensures Valid() && items == old(items)[num := old(items)[num].(deleted := true)]
      ensures tree == old(tree)
    {
      hide Count, Indexed;
      CountUpdate(items, num, items[num].(deleted := true));
      IndexUpdate(items, tree, num, items[num].(deleted := true));
      var t := items[num].Time();
      if t != -1 {
        totalTime := totalTime - t;
        itemsWithTime := itemsWithTime - 1;
      }
      items := items[num := items[num].(deleted := true)];
      notDeleted := notDeleted - 1;
    }

    /** The exchange of times at the end of plist_set_item_time and plist_set_tags. */
    method Retime(num: nat, tags: Tags)
      requires Valid() && num < |items|
      modifies this
      ensures items == old(items)[num := old(items)[num].(tags := Some(tags))]
      ensures Indexed(items, tree) && tree == old(tree)
      ensures Totals() <==> old(items)[num].Live() || old(items)[num].Time() == tags.time
    {
      hide Count, Indexed;
      CountUpdate(items, num, items[num].(tags := Some(tags)));
      IndexUpdate(items, tree, num, items[num].(tags := Some(tags)));
      var oldTime := items[num].Time();
      if oldTime != -1 {
        totalTime := totalTime - oldTime;
        itemsWithTime := itemsWithTime - 1;
      }
      if tags.time != -1 {
        totalTime := totalTime + tags.time;
        itemsWithTime := itemsWithTime + 1;
      }
      items := items[num := items[num].(tags := Some(tags))];
    }

    /** plist_set_title_tags */
    method SetTitleTags(num: nat, title: string)
      requires Valid() && num < |items|
      modifies this
      ensures Valid() && items == old(items)[num := old(items)[num].(titleTags := title)] && tree == old(tree)
    {
      hide Count, Indexed;
      CountUpdate(items, num, items[num].(titleTags := title));
      IndexUpdate(items, tree, num, items[num].(titleTags := title));
      items := items[num := items[num].(titleTags := title)];
    }

    /** plist_set_item_time: a deleted item must not get a new time. */
    method SetItemTime(num: nat, time: int)
      requires Valid() && num < |items|
      modifies this
      ensures var was := old(items)[num];
        var tags := if was.tags.Some? then was.tags.value else NO_TAGS;
        items == old(items)[num := was.(tags := Some(tags.(time := time, timed := true)))]
      ensures Indexed(items, tree) && tree == old(tree)
      ensures Totals() <==> old(items)[num].Live() || old(items)[num].Time() == time
    {
      hide Count, Indexed;
      var tags := if items[num].tags.Some? then items[num].tags.value else NO_TAGS;
      Retime(num, tags.(time := time, timed := true));
    }

    /** plist_set_tags */
    method SetTags(num: nat, tags: Tags)
      requires Valid() && num < |items|
      modifies this
      ensures items == old(items)[num := old(items)[num].(tags := Some(tags))]
      ensures Indexed(items, tree) && tree == old(tree)
      ensures Totals() <==> old(items)[num].Live() || old(items)[num].Time() == tags.time
    {
      hide Count, Indexed;
      Retime(num, tags);
    }

    /** plist_set_file: the index stays right exactly when `Renamable` holds. */
    method SetFile(num: nat, f: string)
      requires Valid() && num < |items|
      modifies this
      ensures items == old(items)[num := old(items)[num].(file := f)]
      ensures Totals()
      ensures Indexed(items, tree) <==> Renamable(old(items), old(tree), num, f)
    {
      hide Count, Indexed, Renamable;
      CountUpdate(items, num, items[num].(file := f));
      RenameIndex(items, tree, num, f);
      if items[num].file != "" {
        tree := tree - {items[num].file};
      }
      items := items[num := items[num].(file := f)];
      tree := tree[f := num];
    }

    /** plist_clear */
    method Clear()
      modifies this
      ensures Valid() && items == [] && tree == map[]
    {
      items, notDeleted, tree, totalTime, itemsWithTime := [], 0, map[], 0, 0;
    }

    /** plist_count */
    method CountItems() returns (n: int)
      requires Valid()
      ensures n == Count(items).live
      ensures n == 0 <==> forall i :: 0 <= i < |items| ==> items[i].deleted
    {
      CountLive(items);
      n := notDeleted;
    }

    /** plist_total_time */
    method TotalTime() returns (time: int, all: bool)
      requires Valid()
      ensures time == Count(items).time
      ensures all <==> forall i :: 0 <= i < |items| && items[i].Live() ==> items[i].Time() != -1
    {
      CountTimed(items);
      all := notDeleted == itemsWithTime;
      time := totalTime;
    }

    /** plist_find_fname */
    method FindFname(f: string) returns (r: int)
      requires Valid()
      ensures -1 <= r < |items|
      ensures r >= 0 ==> items[r].Live() && items[r].file == f
      ensures (f in tree ==> tree[f] < |items|) && r == Found(items, tree, f)
      ensures f != "" || !HasLive(items, "") ==> r == Find(items, f)
    {
      hide Find, HasLive;
      if f !in tree {
        r := -1;
      } else {
        r := if items[tree[f]].Live() then tree[f] else -1;
      }
      if f != "" {
        FindUnique(items, tree, f);
      } else if !HasLive(items, "") {
        FindNone(items, "");
      }
    }

    /** plist_find_del_fname: the first live item of the name, or else the last deleted one. */
    method FindDelFname(f: string) returns (item: int)
      ensures -1 <= item < |items|
      ensures item >= 0 ==> items[item].Named() && items[item].file == f
      ensures item >= 0 && items[item].Live() ==>
                forall i :: 0 <= i < item && items[i].Live() ==> items[i].file != f
      ensures item >= 0 && items[item].deleted ==>
                !HasLive(items, f) && forall i :: item < i < |items| ==> items[i].file != f
      ensures item == -1 <==> f == "" || forall i :: 0 <= i < |items| ==> items[i].file != f
    {
      item := -1;
      for i := 0 to |items|
        invariant -1 <= item < i
        invariant item >= 0 ==> items[item].Named() && items[item].file == f
        invariant item >= 0 && items[item].Live() ==>
                    forall j :: 0 <= j < item && items[j].Live() ==> items[j].file != f
        invariant item >= 0 && items[item].deleted ==>
                    (forall j :: 0 <= j < i && items[j].file == f ==> items[j].deleted)
                    && forall j :: item < j < i ==> items[j].file != f
        invariant item == -1 <==> f == "" || forall j :: 0 <= j < i ==> items[j].file != f
      {
        if items[i].Named() && items[i].file == f {
          if item == -1 || items[item].deleted {
            item := i;
          }
        }
      }
    }

    /** plist_next */
    method Next(num: int) returns (r: int)
      requires num >= -1
      ensures r == NextOf(items, num)
    {
      var i := num + 1;
      while i < |items| && items[i].deleted
        invariant num < i && NextOf(items, num) == NextOf(items, i - 1)
      {
        i := i + 1;
      }
      r := if i < |items| then i else -1;
    }

    /** plist_prev. For -1 the result is -1, not the first item that its comment announces. */
    method Prev(num: int) returns (r: int)
      requires -1 <= num <= |items|
      ensures -1 <= r && (r < num || num == r == -1)
      ensures r >= 0 ==> items[r].Live()
      ensures forall i :: r < i < num && 0 <= i ==> items[i].deleted
    {
      r := num - 1;
      while r >= 0 && items[r].deleted
        invariant -2 <= r < num
        invariant r == -2 ==> num == -1
        invariant forall i :: r < i < num && 0 <= i ==> items[i].deleted
      {
        r := r - 1;
      }
      r := if r >= 0 then r else -1;
    }

    /** plist_last. The first item is never skipped, so that a list of deleted items only
        gives 0, not the -1 of its comment. */
    method Last() returns (i: int)
      ensures -1 <= i < |items|
      ensures i == -1 <==> items == []
      ensures forall j :: i < j < |items| ==> items[j].deleted
      ensures i >= 0 ==> (items[i].Live() <==> exists j :: 0 <= j < |items| && items[j].Live())
    {
      i := |items| - 1;
      while i > 0 && items[i].deleted
        invariant -1 <= i < |items| && (i == -1 ==> items == [])
        invariant forall j :: i < j < |items| ==> items[j].deleted
      {
        i := i - 1;
      }
    }

    /** plist_swap_files */
    method SwapFiles(f: string, g: string)
      requires Valid()
      modifies this
      ensures Valid()
      ensures f in old(tree) && g in old(tree) ==>
                items == Swapped(old(items), old(tree)[f], old(tree)[g])
                && tree == old(tree)[f := old(tree)[g]][g := old(tree)[f]]
      ensures f !in old(tree) || g !in old(tree) ==> items == old(items) && tree == old(tree)
    {
      hide Count, Swapped;
      if f in tree && g in tree {
        SwapKeeps(items, tree[f], tree[g]);
        IndexSwap(items, tree, f, g);
        items := Swapped(items, tree[f], tree[g]);
        tree := tree[f := tree[g]][g := tree[f]];
      }
    }

    /** plist_swap_first_fname: the item that the index has under `f` comes first. */
    method SwapFirstFname(f: string)
      requires Valid()
      modifies this
      ensures Totals()
      ensures f in old(tree) ==> old(tree)[f] < |old(items)|
      ensures var i := Found(old(items), old(tree), f);
        && items == (if i <= 0 then old(items) else Swapped(old(items), 0, i))
        && (Indexed(items, tree) <==> FirstSwappable(old(items), i))
        && (f != "" || !HasLive(old(items), "") ==> i == Find(old(items), f))
    {
      hide Count, Find, HasLive, Indexed, FirstSwappable;
      InIndex(items, tree);
      var i := FindFname(f);
      NotMoved(items, i);
      if i != -1 && i != 0 {
        FirstIndex(items, tree, f);
        SwapKeeps(items, 0, i);
        tree := tree - {f};
        tree := tree - {items[0].file};
        items := Swapped(items, 0, i);
        tree := tree[items[0].file := 0];
        tree := tree[items[i].file := i];
      }
    }

    /** plist_shuffle over the draws `rs` of rand(). */
    method Shuffle(rs: seq<nat>)
      requires Valid() && |rs| >= |items|
      modifies this
      ensures items == Shuffled(old(items), |old(items)|, rs)
      ensures Totals() && multiset(items) == multiset(old(items))
      ensures Indexed(items, tree) <==> LastOfName(items)
      ensures Unshadowed(old(items)) ==> Unshadowed(items) && Indexed(items, tree)
    {
      hide Count, Swapped, Shuffled, Indexed, Reindexed, LastOfName, Unshadowed;
      ReindexedNone();
      var was, n, t := items, |items|, map[];
      var xs := was;
      ShuffleKeeps(items, n, rs);
      var i := n - 1;
      while i > 0
        invariant -1 <= i < n && |xs| == n && unchanged(this)
        invariant Shuffled(was, n, rs) == Shuffled(xs, i + 1, rs)
      {
        ShuffledStep(xs, i + 1, rs);
        xs := Swapped(xs, i, rs[i] % (i + 1));
        i := i - 1;
      }
      ShuffledShort(xs, i + 1, rs);
      for k := 0 to n
        invariant unchanged(this) && t == Reindexed(xs[..k])
      {
        assert xs[..k + 1] == xs[..k] + [xs[k]];
        ReindexedStep(xs[..k], xs[k]);
        t := t[xs[k].file := k];
      }
      assert xs[..n] == xs;
      items, tree := xs, t;
      ReindexedRight(items);
      UnshadowedLast(items);
    }

    /** plist_sort_fname, given the names of the index in the order that the index keeps them.
        A live item without a name is lost when the list has any live item. */
    method SortFname(keys: seq<string>, ghost less: (string, string) -> bool)
      requires Valid() && StrictOrder(less) && Ascending(less, keys)
      requires forall f :: f in keys <==> f in tree
      modifies this
      ensures Valid()
      ensures Count(old(items)).live == 0 ==> items == old(items)
      ensures Count(old(items)).live != 0 ==>
                InRange(Listed(old(items), old(tree), keys), |old(items)|)
                && items == At(old(items), Listed(old(items), old(tree), keys))
    {
      hide Count, Listed, StrictOrder, Ascending, Indexed, Reindexed;
      SortedIndexed(items, tree, keys, less);
      ListedNone(items, tree);
      ReindexedNone();
      if notDeleted == 0 {
        return;
      }
      var was, index, pos := items, tree, [];
      for k := 0 to |keys|
        invariant pos == Listed(was, index, keys[..k])
      {
        assert keys[k] in keys;
        ListedStep(was, index, keys[..k], keys[k]);
        assert keys[..k + 1] == keys[..k] + [keys[k]];
        if was[index[keys[k]]].Live() {
          pos := pos + [index[keys[k]]];
        }
      }
      assert keys[..|keys|] == keys;
      var sorted, t, time, timed := At(was, pos), map[], 0, 0;
      CountNone();
      for k := 0 to |sorted|
        invariant t == Reindexed(sorted[..k])
        invariant Tally(k, time, timed) == Count(sorted[..k])
      {
        assert sorted[..k + 1] == sorted[..k] + [sorted[k]];
        ReindexedStep(sorted[..k], sorted[k]);
        CountAppend(sorted[..k], sorted[k]);
        t := t[sorted[k].file := k];
        if sorted[k].Time() != -1 {
          time, timed := time + sorted[k].Time(), timed + 1;
        }
      }
      assert sorted[..|sorted|] == sorted;
      items, tree, totalTime, itemsWithTime, notDeleted := sorted, t, time, timed, |sorted|;
    }

    /** plist_cat */
    method Cat(b: Plist)
      requires this != b && Valid() && b.Valid()
      requires forall i :: 0 <= i < |b.items| && b.items[i].Live() ==> b.items[i].Named()
      modifies this
      ensures Valid() && items == Catted(old(items), b.items)
    {
      hide Count, Weight, Indexed, Find, HasLive;
      for i := 0 to |b.items|
        invariant Valid() && items == Catted(old(items), b.items[..i])
      {
        assert b.items[..i + 1] == b.items[..i] + [b.items[i]];
        CattedStep(old(items), b.items[..i], b.items[i]);
        if b.items[i].deleted {
          continue;
        }
        var at := FindFname(b.items[i].file);
        if at == -1 {
          var pos := AddFromItem(b.items[i]);
        }
      }
      assert b.items[..|b.items|] == b.items;
    }

    /** plist_remove_common_items */
    method RemoveCommon(b: Plist)
      requires this != b && Valid() && b.Valid()
      requires forall i :: 0 <= i < |items| && items[i].Live() ==> items[i].Named()
      modifies this
      ensures Valid() && tree == old(tree) && items == Without(old(items), b.items)
    {
      hide Count, Weight, Indexed, Find, HasLive;
      var n := |items|;
      for i := 0 to n
        invariant Valid() && tree == old(tree) && |items| == n
        invariant forall k :: 0 <= k < i ==> items[k] == Without(old(items), b.items)[k]
        invariant forall k :: i <= k < n ==> items[k] == old(items)[k]
      {
        if items[i].Live() {
          var at := b.FindFname(items[i].file);
          if at != -1 {
            Delete(i);
          }
        }
      }
    }

    /** plist_discard_tags */
    method DiscardTags()
      requires Valid()
      modifies this
      ensures Valid() && tree == old(tree) && items == Untagged(old(items))
    {
      hide Count, Weight;
      var xs, n := items, |items|;
      for i := 0 to n
        invariant |xs| == n && unchanged(this)
        invariant forall k :: 0 <= k < i ==> xs[k] == Untagged(items)[k]
        invariant forall k :: i <= k < n ==> xs[k] == items[k]
      {
        if xs[i].Live() {
          xs := xs[i := xs[i].(tags := None)];
        }
      }
      UntaggedCount(items);
      UntaggedIndexed(items, tree);
      assert xs == Untagged(items);
      items, totalTime, itemsWithTime := xs, 0, 0;
    }
  }
}
