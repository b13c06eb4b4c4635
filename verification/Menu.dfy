/** The menu of src/ui/curses/menu.cpp: its items, the search map, the mark and the viewport. */
module Menu {
  import opened Wrappers

  class Item {
    const file: string   // "" for none
    const title: string
    var num: int

    constructor (title: string, file: string, num: int)
      ensures this.title == title && this.file == file && this.num == num
    {
      this.title, this.file, this.num := title, file, num;
    }
  }

  datatype Request = Up | Down | PageUp | PageDown | Top | Bottom

  datatype SavedState = SavedState(top: int, selected: int)

  /** The selected row exists and is among the `height` rows that are shown. */
  predicate Visible(count: nat, height: int, top: int, selected: int) {
    && height > 0 && 0 <= top <= selected < top + height
    && (if count == 0 then selected == 0 else selected < count)
  }

  /** The rows exist, whether or not the selected one is among those shown. */
  predicate Exists(count: nat, height: int, top: int, selected: int) {
    height > 0 && 0 <= top && 0 <= selected && (if count == 0 then selected == 0 else selected < count)
  }

  function Min(a: int, b: int): int { if a < b then a else b }

  function Max(a: int, b: int): int { if a < b then b else a }

  ghost function FilesOf(items: seq<Item>): (r: seq<string>)
    ensures |r| == |items| && forall i :: 0 <= i < |r| ==> r[i] == items[i].file
  {
    seq(|items|, i requires 0 <= i < |items| => items[i].file)
  }

  ghost function MarkedIn(items: seq<Item>, marked: int): Option<string> {
    if 0 <= marked < |items| then Some(items[marked].file) else None
  }

  /** Where position `i` moves when two rows change places. */
  function Crossed(i: int, a: int, b: int): int {
    if i == a then b else if i == b then a else i
  }

  lemma RowsCrossed(items: seq<Item>, a: int, b: int, marked: int, selected: int)
    requires 0 <= a < |items| && 0 <= b < |items| && -1 <= marked < |items| && 0 <= selected < |items|
    ensures var now := items[a := items[b]][b := items[a]];
      && MarkedIn(now, Crossed(marked, a, b)) == MarkedIn(items, marked) && -1 <= Crossed(marked, a, b) < |items|
      && 0 <= Crossed(selected, a, b) < |items| && now[Crossed(selected, a, b)] == items[selected]
  {
  }

  /** Where position `i` moves when `idx` is taken out. */
  function Moved(i: int, idx: int): int {
    if i > idx then i - 1 else i
  }

  lemma GapClosed(items: seq<Item>, idx: int, marked: int, selected: int)
    requires 0 <= idx < |items| && -1 <= marked < |items| && 0 <= selected < |items|
    requires forall i :: 0 <= i < |items| && i != idx ==> items[i].file != items[idx].file
    ensures MarkedIn(Without(items, idx), if marked == idx then -1 else Moved(marked, idx)) ==
            if MarkedIn(items, marked) == Some(items[idx].file) then None else MarkedIn(items, marked)
    ensures var to := Moved(selected, idx);
      selected != idx ==> to < |items| - 1 && Without(items, idx)[to] == items[selected]
  {
  }

  function Without<T>(s: seq<T>, k: int): (r: seq<T>)
    requires 0 <= k < |s|
    ensures |r| == |s| - 1
    ensures forall i :: 0 <= i < |r| ==> r[i] == if i < k then s[i] else s[i + 1]
  {
    s[..k] + s[k + 1..]
  }

  /** Whether a saved state fits a menu of `count` items: a top row that exists must show the
      selected row, or the last one if the selected one does not exist; without such a top row
      the last screen is shown, which must have the selected row, if that exists. */
  predicate Restorable(st: SavedState, height: int, count: nat) {
    var selects := 0 <= st.selected < count;
    count == 0 ||
    (if 0 <= st.top < count then
       if selects then st.top <= st.selected < st.top + height else count - 1 < st.top + height
     else selects ==> st.selected >= count - height)
  }

  lemma OneRowMore(count: nat, height: int, top: int, selected: int)
    requires Visible(count, height, top, selected)
    ensures Visible(count + 1, height, top, selected)
  {
  }

  lemma MarkStays(items: seq<Item>, mi: Item, marked: int)
    requires -1 <= marked < |items|
    ensures MarkedIn(items + [mi], marked) == MarkedIn(items, marked)
  {
  }

  /** The row that a request selects. */
  function Target(req: Request, count: int, height: int, selected: int): int {
    match req
    case Down => Min(selected + 1, count - 1)
    case Up => Max(selected - 1, 0)
    case PageDown => Min(selected + height - 1, count - 1)
    case PageUp => Max(selected - (height - 1), 0)
    case Top => 0
    case Bottom => count - 1
  }

  /** Paging goes to the furthest row that fits on one screen with the selected one. */
  lemma PagesFurthest(count: int, height: int, selected: int, row: int)
    requires 0 <= selected < count && 0 < height && 0 <= row < count
    ensures var t := Target(PageDown, count, height, selected);
      selected <= t < count && t - selected < height && (row - selected < height ==> row <= t)
    ensures var t := Target(PageUp, count, height, selected);
      0 <= t <= selected && selected - t < height && (selected - row < height ==> t <= row)
  {
  }

  /** Up undoes Down except on the last row, and Down undoes Up except on the first, which stay. */
  lemma UpUndoesDown(count: int, height: int, selected: int, row: int)
    requires 0 <= selected < count && 0 <= row < count
    ensures var d := Target(Down, count, height, selected);
      if selected == count - 1 then d == selected else d > selected && Target(Up, count, height, d) == selected
    ensures var u := Target(Up, count, height, selected);
      if selected == 0 then u == selected else u < selected && Target(Down, count, height, u) == selected
    ensures 0 <= Target(Top, count, height, selected) <= row <= Target(Bottom, count, height, selected) < count
  {
  }

  /** Whether a request leaves the selected row among those shown: it moves the view there, or the
      row was shown already, or the move leads to a row that is. */
  predicate Shows(req: Request, count: nat, height: int, top: int, selected: int) {
    if count == 0 then Visible(count, height, top, selected)
    else match req
      case Top => true
      case Bottom => true
      case Down => if selected == count - 1 then Visible(count, height, top, selected) else top <= selected + 1
      case Up => if selected == 0 then Visible(count, height, top, selected) else selected - 1 < top + height
      case PageDown =>
        if selected == count - 1 then Visible(count, height, top, selected)
        else if selected + height - 1 >= count - 1 then true
        else if top + height - 1 <= count - height then Visible(count, height, top, selected)
        else count - height <= selected + height - 1
      case PageUp =>
        if selected == 0 then Visible(count, height, top, selected)
        else if selected - height + 1 <= 0 then true
        else if top >= height - 1 then Visible(count, height, top, selected)
        else selected - height + 1 < height
  }

  /** The top row once `row` is made visible: the view stays if it shows the row. */
  function Brought(row: int, count: int, height: int, top: int): int {
    if top <= row < top + height then top else Max(Min(row - height / 2, count - height), 0)
  }

  /** A view that moves has the row in its middle, or is at an end of the list; no row stays empty that
      need not. */
  lemma BroughtToTheMiddle(row: int, count: int, height: int, top: int)
    requires 0 <= row < count && 0 < height && 0 <= top
    ensures var r := Brought(row, count, height, top);
      && 0 <= r <= row < r + height
      && (r != top ==> r + height <= count || r == 0)
      && (r != top ==> row - r == height / 2 || r == 0 || r + height == count)
  {
  }

  /** The top row after a request. */
  function View(req: Request, count: int, height: int, top: int, selected: int): int {
    var row := Target(req, count, height, selected);
    match req
    case Top => 0
    case Bottom => Max(count - height, 0)
    case Down =>
      if selected >= count - 1 || row < top + height then top else Max(Min(row - height / 2, count - height), 0)
    case Up => if selected <= 0 || top <= row then top else Max(row - height / 2, 0)
    case PageDown =>
      if selected >= count - 1 then top
      else if row < count - 1 then Max(Min(top + height - 1, count - height), 0) else Max(count - height, 0)
    case PageUp => if selected <= 0 then top else if row > 0 then Max(top - (height - 1), 0) else 0
  }

  /** From a selection that is in view: a line's step moves the view only to bring the row in, to the
      middle; a page's keeps the row's place on the screen, but at the ends of the list. */
  lemma ViewFollows(count: nat, height: int, top: int, selected: int)
    requires Visible(count, height, top, selected) && top + height <= count
    ensures var row := Target(Down, count, height, selected);
      View(Down, count, height, top, selected) == Brought(row, count, height, top)
    ensures var row := Target(Up, count, height, selected);
      View(Up, count, height, top, selected) == Brought(row, count, height, top)
    ensures var r, row := View(PageDown, count, height, top, selected), Target(PageDown, count, height, selected);
      row - r == selected - top || r == count - height
    ensures var r, row := View(PageUp, count, height, top, selected), Target(PageUp, count, height, selected);
      row - r == selected - top || r == 0
  {
  }

  lemma VisibleShows(req: Request, count: nat, height: int, top: int, selected: int)
    requires Visible(count, height, top, selected)
    ensures Shows(req, count, height, top, selected) && Exists(count, height, top, selected)
  {
  }

  /** On the last row Down and PageDown do nothing, nor do Up and PageUp on the first. */
  lemma StaysAtEnd(req: Request, count: nat, height: int, top: int, selected: int)
    requires Exists(count, height, top, selected) && count > 0
    requires if req == Down || req == PageDown then selected == count - 1
             else (req == Up || req == PageUp) && selected == 0
    ensures Target(req, count, height, selected) == selected && View(req, count, height, top, selected) == top
    ensures Shows(req, count, height, top, selected) <==> Visible(count, height, top, selected)
  {
  }

  lemma GoesToEnd(count: nat, height: int, top: int, selected: int)
    requires Exists(count, height, top, selected) && count > 0
    ensures Target(Top, count, height, selected) == 0 && View(Top, count, height, top, selected) == 0
    ensures Target(Bottom, count, height, selected) == count - 1
    ensures View(Bottom, count, height, top, selected) == Max(count - height, 0)
    ensures Visible(count, height, 0, 0) && Visible(count, height, Max(count - height, 0), count - 1)
    ensures Shows(Top, count, height, top, selected) && Shows(Bottom, count, height, top, selected)
  {
  }

  lemma InRange(req: Request, count: int, height: int, selected: int)
    requires 0 <= selected < count && 0 < height
    ensures 0 <= Target(req, count, height, selected) < count
  {
  }

  lemma NothingShown(req: Request, height: int, top: int, selected: int)
    ensures Shows(req, 0, height, top, selected) <==> Visible(0, height, top, selected)
  {
  }

  lemma SwapMembers<T>(s: seq<T>, a: int, b: int)
    requires 0 <= a < |s| && 0 <= b < |s|
    ensures forall x :: x in s <==> x in s[a := s[b]][b := s[a]]
  {
    var t := s[a := s[b]][b := s[a]];
    forall x | x in s ensures x in t {
      var i :| 0 <= i < |s| && s[i] == x;
      assert t[if i == a then b else if i == b then a else i] == x;
    }
  }

  class Menu {
    var items: seq<Item>
    var tree: map<string, Item>
    var topIdx: int
    var selectedIdx: int
    var markedIdx: int
    var height: int

    /** Each item knows its position, and each file is found. */
    ghost predicate Listed()
      reads this`items, this`tree, items
    {
      && (forall i :: 0 <= i < |items| ==> items[i].num == i)
      && (forall i :: 0 <= i < |items| && items[i].file != "" ==>
            items[i].file in tree && tree[items[i].file] == items[i])
      && (forall f :: f in tree ==> f != "" && tree[f] in items && tree[f].file == f)
    }

    /** The menu is right but for the selection, which may be out of view. */
    ghost predicate Sane()
      reads this, items
    {
      Listed() && -1 <= markedIdx < |items| && Exists(|items|, height, topIdx, selectedIdx)
    }

    ghost predicate Valid()
      reads this, items
    {
      && Listed()
      && -1 <= markedIdx < |items|
      && Visible(|items|, height, topIdx, selectedIdx)
    }

    ghost function Files(): seq<string>
      reads this
    {
      FilesOf(items)
    }

    /** The file that is marked. */
    ghost function Marked(): Option<string>
      reads this
    {
      MarkedIn(items, markedIdx)
    }

    constructor (height: int)
      requires height > 0
      ensures Valid() && items == [] && Marked() == None && this.height == height
    {
      items, tree := [], map[];
      topIdx, selectedIdx, markedIdx, this.height := 0, 0, -1, height;
    }

    /** menu_add. The search map stays right exactly when the item comes without a file or
        with one that the menu does not have. */
    method Add(title: string, file: Option<string>) returns (mi: Item)
      requires Valid()
      modifies this
      ensures fresh(mi) && items == old(items) + [mi] && mi.title == title && mi.num == |old(items)|
      ensures Files() == old(Files()) + [if file.Some? then file.value else ""]
      ensures tree == if file.Some? then old(tree)[file.value := mi] else old(tree)
      ensures Valid() <==> file.None? || (file.value != "" && file.value !in old(Files()))
      ensures Marked() == old(Marked()) && selectedIdx == old(selectedIdx)
      ensures topIdx == old(topIdx) && height == old(height)
    {
      hide Visible, MarkedIn, Exists, Shows;
      mi := new Item(title, if file.Some? then file.value else "", |items|);
      InFiles();
      var was := items;
      items := items + [mi];
      assert Files() == old(Files()) + [mi.file];
      OneRowMore(|was|, height, topIdx, selectedIdx);
      assert MarkedIn(items, markedIdx) == MarkedIn(was, markedIdx) by { MarkStays(was, mi, markedIdx); }
      assert forall i :: 0 <= i < |was| ==> items[i] == was[i];
      if file.Some? {
        tree := tree[file.value := mi];
        if file.value == "" {
          assert "" in tree && !Listed();
        } else if file.value in old(Files()) {
          ghost var i :| 0 <= i < |was| && old(Files())[i] == file.value;
          assert items[i].file == file.value && items[i] != mi && !Listed();
        } else {
          assert items[|was|] == mi;
          assert Listed();
        }
      }
    }

    lemma InFiles()
      requires Listed()
      ensures forall f :: f in tree ==> f in Files()
    {
      forall f | f in tree ensures f in Files() {
        var k :| 0 <= k < |items| && items[k] == tree[f];
        assert Files()[k] == f;
      }
    }

    /** Whether a search finds the file; items without one are not found. */
    ghost predicate Has(file: string)
      reads this
    {
      file != "" && file in Files()
    }

    /** menu_find */
    method Find(file: string) returns (mi: Item?)
      requires Listed()
      ensures mi == null <==> !Has(file)
      ensures mi != null ==> mi in items && mi.file == file && 0 <= mi.num < |items| && items[mi.num] == mi
    {
      if file !in tree {
        mi := null;
        assert forall i :: 0 <= i < |items| ==> Files()[i] == items[i].file;
      } else {
        mi := tree[file];
        var i :| 0 <= i < |items| && items[i] == mi;
        assert Files()[i] == file;
      }
    }

    method LineDown()
      requires Exists(|items|, height, topIdx, selectedIdx) && selectedIdx < |items| - 1
      modifies this`topIdx, this`selectedIdx
      ensures selectedIdx == Target(Down, |items|, height, old(selectedIdx))
      ensures Visible(|items|, height, Max(topIdx, 0), selectedIdx)
              <==> Shows(Down, |items|, height, old(topIdx), old(selectedIdx))
      ensures Max(topIdx, 0) == View(Down, |items|, height, old(topIdx), old(selectedIdx))
    {
      selectedIdx := selectedIdx + 1;
      if selectedIdx >= topIdx + height {
        topIdx := selectedIdx - height / 2;
        if topIdx > |items| - height {
          topIdx := |items| - height;
        }
      }
    }

    method LineUp()
      requires Exists(|items|, height, topIdx, selectedIdx) && selectedIdx > 0
      modifies this`topIdx, this`selectedIdx
      ensures selectedIdx == Target(Up, |items|, height, old(selectedIdx))
      ensures Visible(|items|, height, Max(topIdx, 0), selectedIdx)
              <==> Shows(Up, |items|, height, old(topIdx), old(selectedIdx))
      ensures Max(topIdx, 0) == View(Up, |items|, height, old(topIdx), old(selectedIdx))
    {
      selectedIdx := selectedIdx - 1;
      if topIdx > selectedIdx {
        topIdx := selectedIdx - height / 2;
      }
    }

    method ScreenDown()
      requires Exists(|items|, height, topIdx, selectedIdx) && selectedIdx < |items| - 1
      modifies this`topIdx, this`selectedIdx
      ensures selectedIdx == Target(PageDown, |items|, height, old(selectedIdx))
      ensures Visible(|items|, height, Max(topIdx, 0), selectedIdx)
              <==> Shows(PageDown, |items|, height, old(topIdx), old(selectedIdx))
      ensures Max(topIdx, 0) == View(PageDown, |items|, height, old(topIdx), old(selectedIdx))
    {
      if selectedIdx + height - 1 < |items| - 1 {
        selectedIdx := selectedIdx + (height - 1);
        topIdx := topIdx + (height - 1);
        if topIdx > |items| - height {
          topIdx := |items| - height;
        }
      } else {
        selectedIdx := |items| - 1;
        topIdx := |items| - height;
      }
    }

    method ScreenUp()
      requires Exists(|items|, height, topIdx, selectedIdx) && selectedIdx > 0
      modifies this`topIdx, this`selectedIdx
      ensures selectedIdx == Target(PageUp, |items|, height, old(selectedIdx))
      ensures Visible(|items|, height, Max(topIdx, 0), selectedIdx)
              <==> Shows(PageUp, |items|, height, old(topIdx), old(selectedIdx))
      ensures Max(topIdx, 0) == View(PageUp, |items|, height, old(topIdx), old(selectedIdx))
    {
      if selectedIdx - height + 1 > 0 {
        selectedIdx := selectedIdx - (height - 1);
        topIdx := topIdx - (height - 1);
      } else {
        selectedIdx := 0;
        topIdx := 0;
      }
    }

    /** menu_driver: where each request moves the selection, also one that is out of view, and
        whether it is in view then. */
    method Driver(req: Request)
      requires Sane()
      modifies this`topIdx, this`selectedIdx
      ensures Sane() && (old(Valid()) ==> Valid())
      ensures Valid() <==> Shows(req, |items|, height, old(topIdx), old(selectedIdx))
      ensures |items| == 0 ==> selectedIdx == old(selectedIdx) && topIdx == old(topIdx)
      ensures |items| > 0 ==> selectedIdx == Target(req, |items|, height, old(selectedIdx))
                              && topIdx == View(req, |items|, height, old(topIdx), old(selectedIdx))
    {
      hide Listed, Shows, View, Visible, Target;
      if Valid() {
        VisibleShows(req, |items|, height, topIdx, selectedIdx);
      }
      NothingShown(req, height, topIdx, selectedIdx);
      if |items| == 0 {
        return;
      }
      InRange(req, |items|, height, selectedIdx);
      GoesToEnd(|items|, height, topIdx, selectedIdx);
      if (if req == Down || req == PageDown then selectedIdx == |items| - 1
          else (req == Up || req == PageUp) && selectedIdx == 0) {
        StaysAtEnd(req, |items|, height, topIdx, selectedIdx);
      }
      if req == Down && selectedIdx < |items| - 1 {
        LineDown();
      } else if req == Up && selectedIdx > 0 {
        LineUp();
      } else if req == PageDown && selectedIdx < |items| - 1 {
        ScreenDown();
      } else if req == PageUp && selectedIdx > 0 {
        ScreenUp();
      } else if req == Top {
        selectedIdx := 0;
        topIdx := 0;
      } else if req == Bottom {
        selectedIdx := |items| - 1;
        topIdx := selectedIdx - height + 1;
      }
      if topIdx < 0 {
        topIdx := 0;
      }
    }

    /** make_item_visible, also for a selection that is out of view */
    method MakeItemVisible(mi: Item)
      requires Listed() && mi in items && height > 0 && 0 <= topIdx && 0 <= selectedIdx < |items|
      modifies this`topIdx, this`selectedIdx
      ensures Visible(|items|, height, topIdx, selectedIdx)
      ensures topIdx <= mi.num < topIdx + height
      ensures selectedIdx == if topIdx <= old(selectedIdx) < topIdx + height then old(selectedIdx) else mi.num
      ensures topIdx == Brought(mi.num, |items|, height, old(topIdx))
    {
      if mi.num < topIdx || mi.num >= topIdx + height {
        topIdx := mi.num - height / 2;
        if topIdx > |items| - height {
          topIdx := |items| - height;
        }
        if topIdx < 0 {
          topIdx := 0;
        }
      }
      if selectedIdx < topIdx || selectedIdx >= topIdx + height {
        selectedIdx := mi.num;
      }
    }

    /** menu_setcurritem */
    method SetCurrItem(mi: Item)
      requires Listed() && mi in items && -1 <= markedIdx < |items| && height > 0 && 0 <= topIdx
      modifies this`topIdx, this`selectedIdx
      ensures Valid() && selectedIdx == mi.num && topIdx == Brought(mi.num, |items|, height, old(topIdx))
    {
      selectedIdx := mi.num;
      MakeItemVisible(mi);
    }

    /** menu_setcurritem_file */
    method SelectFile(file: string)
      requires Valid()
      modifies this`topIdx, this`selectedIdx
      ensures Valid()
      ensures Has(file) ==> items[selectedIdx].file == file
                            && topIdx == Brought(selectedIdx, |items|, height, old(topIdx))
      ensures !Has(file) ==> selectedIdx == old(selectedIdx) && topIdx == old(topIdx)
    {
      var mi := Find(file);
      if mi != null {
        SetCurrItem(mi);
      }
    }

    /** menu_setcurritem_title: the first item of the title from the top row on */
    method SelectTitle(title: string)
      requires Valid()
      modifies this`topIdx, this`selectedIdx
      ensures Valid()
      ensures (exists i :: old(topIdx) <= i < |items| && items[i].title == title) ==>
                selectedIdx >= old(topIdx) && items[selectedIdx].title == title
                && topIdx == Brought(selectedIdx, |items|, height, old(topIdx))
                && forall i :: old(topIdx) <= i < selectedIdx ==> items[i].title != title
      ensures !(exists i :: old(topIdx) <= i < |items| && items[i].title == title) ==>
                selectedIdx == old(selectedIdx) && topIdx == old(topIdx)
    {
      var i := topIdx;
      while i < |items|
        invariant topIdx == old(topIdx) <= i && selectedIdx == old(selectedIdx) && Valid()
        invariant forall k :: topIdx <= k < i && k < |items| ==> items[k].title != title
      {
        if items[i].title == title {
          SetCurrItem(items[i]);
          return;
        }
        i := i + 1;
      }
    }

    /** menu_make_visible */
    method MakeVisible(file: string)
      requires Valid()
      modifies this`topIdx, this`selectedIdx
      ensures Valid()
      ensures !Has(file) ==> selectedIdx == old(selectedIdx) && topIdx == old(topIdx)
      ensures Has(file) ==> exists i :: topIdx <= i < topIdx + height && i < |items| && items[i].file == file
                                        && topIdx == Brought(i, |items|, height, old(topIdx))
                                        && selectedIdx == if topIdx <= old(selectedIdx) < topIdx + height
                                                          then old(selectedIdx) else i
    {
      var mi := Find(file);
      if mi != null {
        MakeItemVisible(mi);
      }
    }

    /** menu_update_size: the selection is in view afterwards unless it was above the view. */
    method UpdateSize(newHeight: int)
      requires Sane() && newHeight > 0
      modifies this
      ensures Sane() && height == newHeight && topIdx == old(topIdx)
      ensures selectedIdx == Min(old(selectedIdx), topIdx + newHeight - 1)
      ensures Valid() <==> topIdx <= old(selectedIdx)
      ensures items == old(items) && tree == old(tree) && markedIdx == old(markedIdx)
    {
      height := newHeight;
      if selectedIdx >= topIdx + height {
        selectedIdx := topIdx + height - 1;
        if selectedIdx >= |items| {
          assert false;   // the selection has only moved up
        }
      }
    }

    /** menu_get_state: the state can be restored under this height, whatever the items. */
    method GetState() returns (st: SavedState)
      requires Valid()
      ensures st == SavedState(topIdx, selectedIdx) && forall count: nat :: Restorable(st, height, count)
    {
      st := SavedState(topIdx, selectedIdx);
    }

    /** menu_set_state, for any state: the selection is valid and visible exactly when the
        state is restorable. */
    method SetState(st: SavedState)
      requires Sane()
      modifies this`topIdx, this`selectedIdx
      ensures Sane()
      ensures Valid() <==> Restorable(st, height, |items|)
      ensures selectedIdx == if 0 <= st.selected < |items| then st.selected else Max(|items| - 1, 0)
      ensures topIdx == if 0 <= st.top < |items| then st.top else if |items| == 0 then 0 else Max(|items| - height, 0)
    {
      selectedIdx := st.selected;
      if selectedIdx < 0 || selectedIdx >= |items| {
        selectedIdx := if |items| == 0 then 0 else |items| - 1;
      }
      topIdx := st.top;
      if topIdx < 0 || topIdx >= |items| {
        topIdx := if |items| == 0 then 0 else |items| - height;
        if topIdx < 0 {
          topIdx := 0;
        }
      }
    }

    /** menu_mark_item */
    method MarkItem(file: string)
      requires Valid()
      modifies this`markedIdx
      ensures Valid()
      ensures Marked() == if Has(file) then Some(file) else old(Marked())
    {
      var mi := Find(file);
      if mi != null {
        markedIdx := mi.num;
      }
    }

    /** menu_unmark_item */
    method UnmarkItem()
      requires Valid()
      modifies this`markedIdx
      ensures Valid() && Marked() == None
    {
      markedIdx := -1;
    }

    /** menu_renumber_items */
    method RenumberItems()
      requires forall i, j :: 0 <= i < j < |items| ==> items[i] != items[j]
      modifies items
      ensures forall i :: 0 <= i < |items| ==> items[i].num == i
    {
      for i := 0 to |items|
        invariant forall j :: 0 <= j < i ==> items[j].num == j
      {
        items[i].num := i;
      }
    }

    /** The first half of menu_delete. */
    method RemoveAt(idx: int)
      requires Listed() && 0 <= idx < |items| && items[idx].file != ""
      modifies this`items, this`tree, items
      ensures Listed() && items == Without(old(items), idx)
    {
      ghost var was := items;
      tree := tree - {items[idx].file};
      items := items[..idx] + items[idx + 1..];
      assert items == Without(was, idx);
      RenumberItems();
      forall f | f in tree ensures tree[f] in items {
        var k :| 0 <= k < |was| && was[k] == tree[f];
        assert items[if k < idx then k else k - 1] == was[k];
      }
    }

    /** menu_delete, reached through menu_del_item: the mark stays with its file, and the
        selection with its item unless that one is deleted. */
    method DelItem(file: string) returns (ghost k: int)
      requires Valid() && Has(file)   // as menu_del_item asserts
      modifies this, items
      ensures Valid() && height == old(height)
      ensures 0 <= k < |old(items)| && old(items)[k].file == file && items == Without(old(items), k)
      ensures old(selectedIdx) != k ==> items[selectedIdx] == old(items)[old(selectedIdx)]
      ensures old(selectedIdx) == k ==> selectedIdx == Max(0, Min(k, |items| - 1))
      ensures topIdx == if old(topIdx) == k then Max(0, Min(k, |items| - 1)) else Moved(old(topIdx), k)
      ensures Marked() == if old(Marked()) == Some(file) then None else old(Marked())
    {
      hide Listed, Visible, Without, MarkedIn, Moved;
      InRows();
      var mi := Find(file);
      var idx := mi.num;
      k := idx;
      OnlyOne(idx);
      GapClosed(items, idx, markedIdx, selectedIdx);
      MarkInRange(idx);
      RemoveAt(idx);
      CloseGap(idx);
    }

    lemma MarkInRange(idx: int)
      requires 0 <= idx < |items| && -1 <= markedIdx < |items|
      ensures -1 <= (if markedIdx == idx then -1 else Moved(markedIdx, idx)) < |Without(items, idx)|
    {
    }

    lemma InRows()
      requires Visible(|items|, height, topIdx, selectedIdx)
      ensures 0 <= selectedIdx && (|items| > 0 ==> selectedIdx < |items|)
    {
    }

    /** The second half of menu_delete. */
    method CloseGap(idx: int)
      requires Visible(|items| + 1, height, topIdx, selectedIdx) && -1 <= markedIdx <= |items| && 0 <= idx <= |items|
      modifies this`topIdx, this`selectedIdx, this`markedIdx
      ensures Visible(|items|, height, topIdx, selectedIdx)
      ensures markedIdx == if old(markedIdx) == idx then -1 else Moved(old(markedIdx), idx)
      ensures old(selectedIdx) != idx ==> selectedIdx == Moved(old(selectedIdx), idx)
      ensures old(selectedIdx) == idx ==> selectedIdx == Max(0, Min(idx, |items| - 1))
      ensures topIdx == if old(topIdx) == idx then Max(0, Min(idx, |items| - 1)) else Moved(old(topIdx), idx)
    {
      if markedIdx == idx {
        markedIdx := -1;
      } else if markedIdx > idx {
        markedIdx := markedIdx - 1;
      }
      if selectedIdx == idx {
        if selectedIdx >= |items| {
          selectedIdx := if |items| == 0 then 0 else |items| - 1;
        }
      } else if selectedIdx > idx {
        selectedIdx := selectedIdx - 1;
      }
      if topIdx == idx {
        if topIdx >= |items| {
          topIdx := if |items| == 0 then 0 else |items| - 1;
        }
      } else if topIdx > idx {
        topIdx := topIdx - 1;
      }
      if topIdx < 0 {
        assert false;   // it was not negative before
      }
    }

    /** No two items have the same file. */
    lemma OnlyOne(idx: int)
      requires Listed() && 0 <= idx < |items| && items[idx].file != ""
      ensures forall i :: 0 <= i < |items| && i != idx ==> items[i].file != items[idx].file
    {
    }

    /** The first half of menu_items_swap. */
    method SwapRows(mi1: Item, mi2: Item)
      requires Listed() && mi1 in items && mi2 in items && mi1 != mi2
      modifies this`items, mi1, mi2
      ensures Listed() && items == old(items)[old(mi1.num) := mi2][old(mi2.num) := mi1]
    {
      var idx1, idx2 := mi1.num, mi2.num;
      SwapMembers(items, idx1, idx2);
      items := items[idx1 := mi2][idx2 := mi1];
      items[idx1].num := idx1;
      items[idx2].num := idx2;
    }

    /** menu_items_swap */
    method ItemsSwap(mi1: Item, mi2: Item)
      requires Valid() && mi1 in items && mi2 in items && mi1 != mi2
      modifies this, mi1, mi2
      ensures Listed() && -1 <= markedIdx < |items| && |items| == |old(items)|
      ensures items == old(items)[old(mi1.num) := mi2][old(mi2.num) := mi1]
      ensures Marked() == old(Marked())
      ensures 0 <= selectedIdx < |items| && items[selectedIdx] == old(items[selectedIdx])
      ensures topIdx == old(topIdx) && height == old(height)
    {
      hide Listed, MarkedIn, Visible;
      var idx1, idx2 := mi1.num, mi2.num;
      Placed(mi1);
      Placed(mi2);
      InRows();
      RowsCrossed(items, idx1, idx2, markedIdx, selectedIdx);
      SwapRows(mi1, mi2);
      if selectedIdx == idx1 {
        selectedIdx := idx2;
      } else if selectedIdx == idx2 {
        selectedIdx := idx1;
      }
      if markedIdx == idx1 {
        markedIdx := idx2;
      } else if markedIdx == idx2 {
        markedIdx := idx1;
      }
    }

    lemma Placed(mi: Item)
      requires Listed() && mi in items
      ensures 0 <= mi.num < |items| && items[mi.num] == mi
    {
    }

    /** menu_swap_items: the two files change places; the mark and the selection stay with
        their items, and the selection comes into view. */
    method SwapItems(file1: string, file2: string)
      requires Valid()
      modifies this, items
      ensures Valid() && height == old(height)
      ensures old(Has(file1)) && old(Has(file2)) && file1 != file2 ==>
                exists i, j :: 0 <= i < |old(items)| && 0 <= j < |old(items)|
                  && old(Files())[i] == file1 && old(Files())[j] == file2
                  && Files() == old(Files())[i := file2][j := file1]
                  && topIdx == Brought(selectedIdx, |items|, height, old(topIdx))
      ensures !old(Has(file1)) || !old(Has(file2)) || file1 == file2 ==>
                items == old(items) && topIdx == old(topIdx) && selectedIdx == old(selectedIdx)
      ensures Marked() == old(Marked())
      ensures |items| > 0 ==> items[selectedIdx] == old(items[selectedIdx])
    {
      var mi1 := Find(file1);
      if mi1 == null {
        return;
      }
      var mi2 := Find(file2);
      if mi2 == null || mi1 == mi2 {
        return;
      }
      ghost var i, j := mi1.num, mi2.num;
      ItemsSwap(mi1, mi2);
      assert FilesOf(items) == FilesOf(old(items))[i := file2][j := file1];
      SetCurrItem(items[selectedIdx]);
    }
  }
}
