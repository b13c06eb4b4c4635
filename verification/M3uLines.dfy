/** What a playlist file means: which files a text names, line by line. */
module M3uLines {
  import opened FileTags
  import opened M3u
  import opened M3uRoundTrip
  import opened Paths
  import opened Plist
  import opened Wrappers

  // ---------- names ----------

  /** The file that a line names, if it names one. */
  function Naming(line: string, cwd: string): (r: Option<string>)
    requires |cwd| > 0 && cwd[0] == '/'
    ensures r.Some? ==> r.value != ""
  {
    if (line != "" && line[0] == '#') || |line| > PATH_MAX then None else MadePath(cwd, Stripped(line))
  }

  /** The files that the lines of a text name, in their order. */
  function Listing(rest: string, cwd: string): (r: seq<Item>)
    requires |cwd| > 0 && cwd[0] == '/'
    ensures forall i :: 0 <= i < |r| ==> r[i] == Bare(r[i].file) && r[i].Named()
    decreases |rest|
  {
    if rest == "" then []
    else
      var f := Naming(Chomped(Body(rest).0), cwd);
      (if f.Some? then [Bare(f.value)] else []) + Listing(Body(rest).1, cwd)
  }

  /** Loading a file without its tags is joining the files that its lines name: each that is not
      there yet comes last, in order, once; only a name that cannot be resolved ends it. */
  lemma {:induction false} LoadsLikeCat(items: seq<Item>, rest: string, cwd: string)
    requires |cwd| > 0 && cwd[0] == '/'
    ensures var r := Loaded(items, false, rest, false, cwd);
      && (r.turn == Again(false) || r.turn == Fatal)
      && (r.turn != Fatal ==> r.items == Catted(items, Listing(rest, cwd)))
    decreases |rest|
  {
    hide Body, Chomped, LineLoaded, Naming, Catted;
    NothingCatted(items);
    if rest != "" {
      var line := Chomped(Body(rest).0);
      var f := Naming(line, cwd);
      PlainLine(items, line, cwd);
      var r := LineLoaded(items, false, line, false, cwd);
      if r.turn.Again? {
        LoadsLikeCat(r.items, Body(rest).1, cwd);
        var x := if f.Some? then [Bare(f.value)] else [];
        CattedTwice(items, x, Listing(Body(rest).1, cwd));
      }
    }
  }

  lemma NothingCatted(items: seq<Item>)
    ensures Catted(items, []) == items
  {
  }

  lemma {:induction false} CattedTwice(a: seq<Item>, b: seq<Item>, c: seq<Item>)
    ensures Catted(Catted(a, b), c) == Catted(a, b + c)
  {
    hide Catted, Find;
    if c == [] {
      NothingCatted(Catted(a, b));
      assert b + c == b;
    } else {
      var front, x := c[..|c| - 1], c[|c| - 1];
      CattedTwice(a, b, front);
      CattedStep(Catted(a, b), front, x);
      CattedStep(a, b + front, x);
      assert c == front + [x] && b + c == b + front + [x];
    }
  }

  lemma PlainLine(items: seq<Item>, line: string, cwd: string)
    requires |cwd| > 0 && cwd[0] == '/'
    ensures var r, f := LineLoaded(items, false, line, false, cwd), Naming(line, cwd);
      && (r.turn == Again(false) || r.turn == Fatal)
      && (r.turn != Fatal ==> r.items == Catted(items, if f.Some? then [Bare(f.value)] else []))
  {
    hide Resolve, Stripped, Find, Catted;
    NothingCatted(items);
    var f := Naming(line, cwd);
    if f.Some? {
      CattedStep(items, [], Bare(f.value));
      assert [] + [Bare(f.value)] == [Bare(f.value)];
      assert items + [] == items;
    }
  }

  /** Spaces and tabs behind a name do not matter, and nothing else is taken away. */
  lemma BlanksAtTheEnd(line: string, blanks: string)
    requires line != "" && line[|line| - 1] !in " \t"
    requires forall i :: 0 <= i < |blanks| ==> blanks[i] in " \t"
    ensures Stripped(line + blanks) == line
  {
    StrippedUnique(line + blanks, line);
  }

  // ---------- with tags ----------

  /** While an item waits for its name it is the last one, live and nameless. */
  ghost predicate Waits(items: seq<Item>, waits: bool) {
    waits ==> items != [] && items[|items| - 1].Live() && !items[|items| - 1].Named()
  }

  /** With tags or without, a file that is loaded to its end adds the names of its lines and no
      others, and loses none. */
  lemma {:induction false} LoadsNames(items: seq<Item>, waits: bool, rest: string, withTags: bool, cwd: string,
                                       f: string)
    requires |cwd| > 0 && cwd[0] == '/' && f != ""
    requires Waits(items, waits)
    ensures var r := Loaded(items, waits, rest, withTags, cwd);
      r.turn.Again? ==> (HasLive(r.items, f) <==> HasLive(items, f) || HasLive(Listing(rest, cwd), f))
    decreases |rest|
  {
    hide Body, Chomped, LineLoaded, Naming, HasLive;
    NothingLive(f);
    if rest != "" {
      var line := Chomped(Body(rest).0);
      var g := Naming(line, cwd);
      LineNames(items, waits, line, withTags, cwd, f);
      var r := LineLoaded(items, waits, line, withTags, cwd);
      if r.turn.Again? {
        var more := Listing(Body(rest).1, cwd);
        LoadsNames(r.items, r.turn.waits, Body(rest).1, withTags, cwd, f);
        if g.Some? {
          HasLiveCons(Bare(g.value), more, f);
        } else {
          assert [] + more == more;
        }
      }
    }
  }

  lemma NothingLive(f: string)
    ensures !HasLive([], f)
  {
  }

  lemma HasLiveCons(x: Item, items: seq<Item>, f: string)
    ensures HasLive([x] + items, f) <==> (x.Live() && x.file == f) || HasLive(items, f)
  {
    var now := [x] + items;
    assert forall i :: 0 <= i < |items| ==> now[i + 1] == items[i];
    if HasLive(items, f) {
      var i :| 0 <= i < |items| && items[i].Live() && items[i].file == f;
      assert now[i + 1].Live();
    }
    if x.Live() && x.file == f {
      assert now[0].Live();
    }
  }

  lemma LineNames(items: seq<Item>, waits: bool, line: string, withTags: bool, cwd: string, f: string)
    requires |cwd| > 0 && cwd[0] == '/' && f != ""
    requires Waits(items, waits)
    ensures var r, g := LineLoaded(items, waits, line, withTags, cwd), Naming(line, cwd);
      r.turn.Again? ==>
        && (HasLive(r.items, f) <==> HasLive(items, f) || (g.Some? && f == g.value))
        && Waits(r.items, r.turn.waits)
  {
    hide Resolve, Stripped, Find, HasLive, Comma, StrTol;
    if Starts(line, EXTINF) && withTags {
      assert line[0] == '#';
      var r := InfoLoaded(items, waits, line);
      if r.turn.Again? {
        HasLiveAppend(items, r.items[|items|], f);
        assert r.items == items + [r.items[|items|]];
      }
    } else if line != "" && line[0] == '#' {
    } else {
      NameNames(items, waits, line, cwd, f);
    }
  }

  lemma NameNames(items: seq<Item>, waits: bool, line: string, cwd: string, f: string)
    requires |cwd| > 0 && cwd[0] == '/' && f != "" && (line == "" || line[0] != '#')
    requires Waits(items, waits)
    ensures var r, g := NameLoaded(items, waits, line, cwd), Naming(line, cwd);
      r.turn.Again? ==>
        && (HasLive(r.items, f) <==> HasLive(items, f) || (g.Some? && f == g.value))
        && !r.turn.waits
  {
    hide Resolve, Stripped, Find, HasLive;
    var g := Naming(line, cwd);
    if waits {
      var front, last := items[..|items| - 1], items[|items| - 1];
      assert items == front + [last];
      HasLiveAppend(front, last, f);
      HasLiveAppend(front, last.(deleted := true), f);
      assert items[|items| - 1 := last.(deleted := true)] == front + [last.(deleted := true)];
      if g.Some? {
        HasLiveAppend(front, last.(file := g.value), f);
        assert items[|items| - 1 := last.(file := g.value)] == front + [last.(file := g.value)];
      }
    } else if g.Some? {
      HasLiveAppend(items, Bare(g.value), f);
    }
  }

  // ---------- #EXTINF lines ----------

  /** Where the title begins after a comma at `k` behind a time of at most nine characters, or none. */
  predicate TitleAfter(text: string, k: nat) {
    k < |text| && k <= 9 && text[k] == ',' && ',' !in text[..k] && StrTol(text[..k]).1 == ""
  }

  /** An #EXTINF line makes an item wait for its name exactly when none waits yet and there is a
      comma behind a number or nothing; it has the title and the time of the line. Any other such
      line ends the loading, and the item that waits is dropped. */
  lemma InfoIff(items: seq<Item>, waits: bool, text: string, cwd: string)
    requires (waits ==> items != []) && |cwd| > 0 && cwd[0] == '/'
    ensures var r := LineLoaded(items, waits, EXTINF + text, true, cwd);
      && (r.turn == Again(true) <==> !waits && exists k: nat :: TitleAfter(text, k))
      && (r.turn == Again(true) || r.turn == Err)
      && (r.turn == Err ==>
            r.items == if waits then items[|items| - 1 := items[|items| - 1].(deleted := true)] else items)
    ensures forall k: nat :: TitleAfter(text, k) && !waits ==>
      var r := LineLoaded(items, waits, EXTINF + text, true, cwd).items;
      && |r| == |items| + 1 && items <= r
      && r[|items|].Live() && !r[|items|].Named() && r[|items|].titleTags == text[k + 1..] && r[|items|].titleFile == ""
      && (r[|items|].tags.Some? <==> k > 0)
      && (k > 0 ==> r[|items|].tags.value == NO_TAGS.(time := StrTol(text[..k]).0, timed := true))
  {
    hide StrTol, Comma;
    assert (EXTINF + text)[|EXTINF|..] == text;
    forall k: nat | TitleAfter(text, k) ensures Comma(text) == k {
      assert forall i :: 0 <= i < k ==> text[..k][i] == text[i];
    }
    var k := Comma(text);
    assert k < |text| && k <= 9 && StrTol(text[..k]).1 == "" ==> TitleAfter(text, k);
  }

  // ---------- saving ----------

  /** What comes back of an item: its file, and with tags its title, that of its tags if they have one,
      and its time, which is 0 without tags. */
  lemma RestoredItem(x: Item)
    ensures Restored(x, false) == Item(x.file, "", "", None, false)
    ensures var y := Restored(x, true);
      && y.file == x.file && y.Live() && y.titleFile == "" && y.tags == Some(NO_TAGS.(time := y.Time(), timed := true))
      && y.titleTags == (if x.tags.None? || x.titleTags == "" then x.titleFile else x.titleTags)
      && y.Time() == (if x.tags.None? then 0 else x.Time())
  {
  }

  /** The positions of the live items, in order. */
  ghost predicate LivePlaces(items: seq<Item>, pos: seq<nat>) {
    && InRange(pos, |items|) && (forall i, j :: 0 <= i < j < |pos| ==> pos[i] < pos[j])
    && forall i :: 0 <= i < |items| ==> (i in pos <==> items[i].Live())
  }

  /** And they come back in order, the live ones and no others. */
  lemma {:induction false} RestoredInOrder(items: seq<Item>, withTags: bool) returns (pos: seq<nat>)
    ensures LivePlaces(items, pos) && |AllRestored(items, withTags)| == |pos|
    ensures forall k :: 0 <= k < |pos| ==>
              pos[k] < |items| && AllRestored(items, withTags)[k] == Restored(items[pos[k]], withTags)
  {
    hide Restored, LivePlaces;
    if items == [] {
      pos := [];
      NoPlaces();
    } else {
      var rest := RestoredInOrder(items[1..], withTags);
      var moved := MovedOn(rest);
      pos := (if items[0].deleted then [] else [0]) + moved;
      PlacesMoved(items, rest, moved);
    }
  }

  lemma NoPlaces()
    ensures LivePlaces([], [])
  {
  }

  lemma PlacesMoved(items: seq<Item>, rest: seq<nat>, moved: seq<nat>)
    requires items != [] && LivePlaces(items[1..], rest)
    requires |moved| == |rest| && forall k :: 0 <= k < |rest| ==> moved[k] == rest[k] + 1
    requires 0 !in moved && forall i: nat :: i + 1 in moved <==> i in rest
    ensures LivePlaces(items, (if items[0].deleted then [] else [0]) + moved)
  {
    var pos := (if items[0].deleted then [] else [0]) + moved;
    forall i | 0 <= i < |items| ensures i in pos <==> items[i].Live() {
      assert i in pos <==> (i == 0 && items[0].Live()) || i in moved;
      if i > 0 {
        assert items[i] == items[1..][i - 1] && (i - 1) + 1 in moved <==> i - 1 in rest;
      }
    }
  }

  lemma MovedOn(pos: seq<nat>) returns (moved: seq<nat>)
    ensures |moved| == |pos| && forall k :: 0 <= k < |pos| ==> moved[k] == pos[k] + 1
    ensures 0 !in moved && forall i: nat :: i + 1 in moved <==> i in pos
  {
    moved := seq(|pos|, k requires 0 <= k < |pos| => pos[k] + 1);
    forall i: nat | i in pos ensures i + 1 in moved {
      var k :| 0 <= k < |pos| && pos[k] == i;
      assert moved[k] == i + 1;
    }
  }

  /** The file begins with a header exactly when tags may be saved, and the rest does not depend on it. */
  lemma HeaderFirst(items: seq<Item>, strip: nat, withTags: bool)
    requires Strippable(items, strip)
    ensures Saved(items, strip, true, withTags) == "#EXTM3U\r\n" + Saved(items, strip, false, withTags)
  {
  }

  // ---------- numbers ----------

  /** A number may stand behind spaces and a sign. */
  lemma NumberRead(spaces: string, sign: string, n: nat, rest: string)
    requires AllSpaces(spaces) && sign in ["", "+", "-"] && (rest == "" || !Digit(rest[0]))
    ensures StrTol(spaces + sign + Decimal(n) + rest) == (if sign == "-" then -(n as int) else n, rest)
  {
    hide SkipSpaces, Digits, Decimal;
    var digits := Decimal(n) + rest;
    assert digits[0] == Decimal(n)[0] && !Space(digits[0]);
    DigitsBack(n, rest);
    SpacesSkipped(spaces, sign + digits);
    assert spaces + sign + Decimal(n) + rest == spaces + (sign + digits);
    assert sign != "" ==> (sign + digits)[1..] == digits;
    assert "" + digits == digits;
  }

  /** And a text without one is left whole. */
  lemma NoNumberRead(spaces: string, sign: string, rest: string)
    requires AllSpaces(spaces) && sign in ["", "+", "-"] && (rest == "" || !Digit(rest[0]))
    requires sign == "" && rest != "" ==> !Space(rest[0]) && rest[0] != '+' && rest[0] != '-'
    ensures StrTol(spaces + sign + rest) == (0, spaces + sign + rest)
  {
    hide SkipSpaces, Digits;
    SpacesSkipped(spaces, sign + rest);
    assert spaces + sign + rest == spaces + (sign + rest);
    assert sign != "" ==> (sign + rest)[1..] == rest;
    assert "" + rest == rest;
  }

  predicate AllSpaces(s: string) {
    forall i :: 0 <= i < |s| ==> s[i] in " \t\n\r" || s[i] as int in {11, 12}
  }

  lemma {:induction false} SpacesSkipped(spaces: string, t: string)
    requires AllSpaces(spaces) && (t == "" || !Space(t[0]))
    ensures SkipSpaces(spaces + t) == t
  {
    if spaces == "" {
      assert spaces + t == t;
    } else {
      SpacesSkipped(spaces[1..], t);
      assert (spaces + t)[1..] == spaces[1..] + t;
    }
  }
}
