/** Saving and loading M3U playlists (src/library/playlist_file.cpp). */
module M3u {
  import opened FileTags
  import opened Paths
  import opened Plist
  import opened Wrappers

  predicate Blank(c: char) {
    c == ' ' || c == '\t'
  }

  /** strip_string: a string of blanks keeps its first one. */
  function Stripped(s: string): (r: string)
    ensures r <= s
    ensures s != "" ==> r != ""
    ensures |r| > 1 ==> !Blank(r[|r| - 1])
    ensures forall i :: |r| <= i < |s| ==> Blank(s[i])
  {
    if |s| > 1 && Blank(s[|s| - 1]) then Stripped(s[..|s| - 1]) else s
  }

  method StripString(str: string) returns (r: string)
    ensures r == Stripped(str)
  {
    var c, lastNonWhite := 0, 0;
    while c < |str|
      invariant lastNonWhite <= c <= |str| && (c > 0 ==> lastNonWhite < c)
      invariant lastNonWhite > 0 ==> !Blank(str[lastNonWhite])
      invariant forall i :: lastNonWhite < i < c ==> Blank(str[i])
    {
      if !Blank(str[c]) {
        lastNonWhite := c;
      }
      c := c + 1;
    }
    r := if c > lastNonWhite then str[..lastNonWhite + 1] else str;
    StrippedUnique(str, r);
  }

  lemma {:induction false} StrippedUnique(s: string, r: string)
    requires r <= s && (s != "" ==> r != "") && (|r| > 1 ==> !Blank(r[|r| - 1]))
    requires forall i :: |r| <= i < |s| ==> Blank(s[i])
    ensures r == Stripped(s)
    decreases |s|
  {
    if |s| > 1 && Blank(s[|s| - 1]) {
      assert r[|r| - 1] == s[|r| - 1];
      StrippedUnique(s[..|s| - 1], r);
    }
  }

  /** make_path */
  function MadePath(cwd: string, path: string): (r: Option<string>)
    requires |cwd| > 0 && cwd[0] == '/'
    ensures r.Some? ==> r.value != ""
  {
    Resolve(if path == "" || path[0] != '/' then cwd else "/", 2 * PATH_MAX, path)
  }

  // ---------- numbers ----------

  /** isspace */
  predicate Space(c: char) {
    c == ' ' || '\t' <= c <= '\r'
  }

  predicate Digit(c: char) {
    '0' <= c <= '9'
  }

  function SkipSpaces(s: string): (r: string)
    ensures r == "" || !Space(r[0])
  {
    if s != "" && Space(s[0]) then SkipSpaces(s[1..]) else s
  }

  /** The number that the digits at the beginning continue from `n`, and what follows them. */
  function Digits(s: string, n: nat): (nat, string) {
    if s != "" && Digit(s[0]) then Digits(s[1..], 10 * n + (s[0] as int - '0' as int)) else (n, s)
  }

  /** strtol in base 10, on a text too short to overflow: the number, and the text from where it
      ends, which is all of it when it has none. */
  function StrTol(s: string): (int, string) {
    var t := SkipSpaces(s);
    var u := if t != "" && (t[0] == '-' || t[0] == '+') then t[1..] else t;
    if u == "" || !Digit(u[0]) then (0, s)
    else
      var n := Digits(u, 0);
      var value: int := n.0;
      (if t[0] == '-' then -value else value, n.1)
  }

  function Decimal(n: nat): (r: string)
    ensures r != "" && forall i :: 0 <= i < |r| ==> Digit(r[i])
  {
    if n < 10 then [('0' as int + n) as char] else Decimal(n / 10) + [('0' as int + n % 10) as char]
  }

  /** What "%d" prints. */
  function Shown(n: int): string {
    if n < 0 then "-" + Decimal(-n) else Decimal(n)
  }

  // ---------- loading ----------

  const EXTINF: string := "#EXTINF:"

  /** The size of the buffer for the time of an #EXTINF line. */
  const TIME_TEXT: nat := 10

  /** The position of the first comma, or the length when there is none. */
  function Comma(s: string): (r: nat)
    ensures r <= |s| && (r < |s| ==> s[r] == ',')
    ensures forall i :: 0 <= i < r ==> s[i] != ','
  {
    if s == "" || s[0] == ',' then 0
    else
      var r := Comma(s[1..]);
      assert forall i :: 0 < i <= r ==> s[i - 1..][1..] == s[i..] && (i < r + 1 ==> s[i] == s[1..][i - 1]);
      1 + r
  }

  /** How loading goes on after a line: with the next one, an item perhaps waiting for its file
      name; not, for the line is broken; or not, for the program gives up. */
  datatype Turn = Again(waits: bool) | Err | Fatal

  datatype Loading = Loading(items: seq<Item>, turn: Turn)

  /** An item that has a title and perhaps a time but no file name yet. */
  function Titled(title: string, time: Option<int>): Item {
    Item("", title, "", if time.Some? then Some(NO_TAGS.(time := time.value, timed := true)) else None, false)
  }

  /** The list without the item that waits for its file name. */
  function Dropped(items: seq<Item>, waits: bool): (r: seq<Item>)
    requires waits ==> items != []
    ensures |r| == |items|
  {
    var last := |items| - 1;
    if waits then items[last := items[last].(deleted := true)] else items
  }

  /** The effect of an #EXTINF line when tags are loaded. */
  function InfoLoaded(items: seq<Item>, waits: bool, line: string): (r: Loading)
    requires waits ==> items != []
    requires Starts(line, EXTINF)
    ensures r.turn == Again(true) ==> !waits && |r.items| == |items| + 1 && items <= r.items
    ensures r.turn != Again(true) ==> r == Loading(Dropped(items, waits), Err)
  {
    var text := line[|EXTINF|..];
    var comma := Comma(text);
    if waits || comma == |text| || comma >= TIME_TEXT || StrTol(text[..comma]).1 != "" then
      Loading(Dropped(items, waits), Err)
    else
      var time := if comma == 0 then None else Some(StrTol(text[..comma]).0);
      Loading(items + [Titled(text[comma + 1..], time)], Again(true))
  }

  /** The effect of a line that names a file. */
  function NameLoaded(items: seq<Item>, waits: bool, line: string, cwd: string): (r: Loading)
    requires waits ==> items != []
    requires |cwd| > 0 && cwd[0] == '/'
    ensures r.turn == Again(false) || r == Loading(items, Fatal)
  {
    var last := |items| - 1;
    if |line| > PATH_MAX then Loading(Dropped(items, waits), Again(false))
    else
      var path := MadePath(cwd, Stripped(line));
      if path.None? then Loading(items, Fatal)
      else if Find(items, path.value) != -1 then Loading(Dropped(items, waits), Again(false))
      else if waits then Loading(items[last := items[last].(file := path.value)], Again(false))
      else Loading(items + [Bare(path.value)], Again(false))
  }

  /** The effect of any line, the option SavePlaylistTags being `withTags`. */
  function LineLoaded(items: seq<Item>, waits: bool, line: string, withTags: bool, cwd: string): (r: Loading)
    requires waits ==> items != []
    requires |cwd| > 0 && cwd[0] == '/'
    ensures r.turn == Again(true) ==> r.items != []
  {
    if Starts(line, EXTINF) && withTags then InfoLoaded(items, waits, line)
    else if line != "" && line[0] == '#' then Loading(items, Again(waits))
    else NameLoaded(items, waits, line, cwd)
  }

  /** The effect of all lines of `rest`. */
  function Loaded(items: seq<Item>, waits: bool, rest: string, withTags: bool, cwd: string): (r: Loading)
    requires waits ==> items != []
    requires |cwd| > 0 && cwd[0] == '/'
    decreases |rest|
  {
    if rest == "" then Loading(items, Again(waits))
    else
      var r := LineLoaded(items, waits, Chomped(Body(rest).0), withTags, cwd);
      if r.turn.Again? then Loaded(r.items, r.turn.waits, Body(rest).1, withTags, cwd) else r
  }

  /** The waiting item, if any, is the last one, and the index does not lead to it. */
  ghost predicate Waiting(items: seq<Item>, tree: map<string, nat>, waits: bool, last: int) {
    waits ==>
      && items != [] && last == |items| - 1 && items[last].Live() && items[last].file == ""
      && ("" in tree ==> tree[""] != last)
  }

  /** What the waiting item adds to the number of live items. */
  function Pending(waits: bool): int {
    if waits then 1 else 0
  }

  lemma Renames(items: seq<Item>, tree: map<string, nat>, last: int, f: string)
    requires Waiting(items, tree, true, last) && f != "" && !HasLive(items, f)
    ensures Renamable(items, tree, last, f)
  {
  }

  /** plist_load_m3u on an open file. What it returns counts the items that got a name. */
  method LoadM3u(plist: Plist, file: Reader, withTags: bool, cwd: string) returns (added: int, turn: Turn)
    requires plist.Valid() && |cwd| > 0 && cwd[0] == '/'
    modifies plist, file
    ensures plist.Valid()
    ensures Loading(plist.items, turn) == Loaded(old(plist.items), false, old(file.rest), withTags, cwd)
    ensures turn != Fatal ==>
              added == Count(plist.items).live - Count(old(plist.items)).live - Pending(turn == Again(true))
  {
    hide Body, Chomped, LineLoaded, Plist.Valid, Count, Waiting;
    ghost var goal := Loaded(plist.items, false, file.rest, withTags, cwd);
    var waits, last := false, -1;
    NoneWaits(plist.items, plist.tree, last);
    added := 0;
    while true
      invariant plist.Valid() && Waiting(plist.items, plist.tree, waits, last) && (waits ==> plist.items != [])
      invariant added == Count(plist.items).live - Count(old(plist.items)).live - Pending(waits)
      invariant Loaded(plist.items, waits, file.rest, withTags, cwd) == goal
      decreases |file.rest|
    {
      var line := file.ReadLine();
      if line.None? {
        return added, Again(waits);
      }
      var n;
      n, last, turn := LoadLine(plist, line.value, withTags, waits, last, cwd);
      added := added + n;
      if !turn.Again? {
        return added, turn;
      }
      waits := turn.waits;
    }
  }

  lemma NoneWaits(items: seq<Item>, tree: map<string, nat>, last: int)
    ensures Waiting(items, tree, false, last)
  {
  }

  /** One turn of the loop in plist_load_m3u. */
  method LoadLine(plist: Plist, line: string, withTags: bool, waits: bool, lastAdded: int, cwd: string)
    returns (added: int, last: int, turn: Turn)
    requires plist.Valid() && Waiting(plist.items, plist.tree, waits, lastAdded)
    requires |cwd| > 0 && cwd[0] == '/'
    modifies plist
    ensures plist.Valid()
    ensures (waits ==> old(plist.items) != [])
            && Loading(plist.items, turn) == LineLoaded(old(plist.items), waits, line, withTags, cwd)
    ensures turn.Again? ==> Waiting(plist.items, plist.tree, turn.waits, last) && (turn.waits ==> plist.items != [])
    ensures turn != Fatal ==>
              added + Pending(turn == Again(true)) - Pending(waits)
              == Count(plist.items).live - Count(old(plist.items)).live
  {
    hide Find, HasLive, Stripped, Count, Indexed, InfoLoaded, NameLoaded, Comma, StrTol;
    added, last := 0, lastAdded;
    if Starts(line, EXTINF) {
      assert line[0] == '#';
      if !withTags {
        return 0, lastAdded, Again(waits);
      }
      last, turn := LoadInfo(plist, line, waits, lastAdded);
      return 0, last, turn;
    }
    if line != "" && line[0] == '#' {
      return 0, lastAdded, Again(waits);
    }
    added, turn := LoadName(plist, line, waits, lastAdded, cwd);
  }

  /** An #EXTINF line when tags are loaded. */
  method LoadInfo(plist: Plist, line: string, waits: bool, lastAdded: int) returns (last: int, turn: Turn)
    requires plist.Valid() && Waiting(plist.items, plist.tree, waits, lastAdded)
    requires Starts(line, EXTINF)
    modifies plist
    ensures plist.Valid()
    ensures (waits ==> old(plist.items) != [])
            && Loading(plist.items, turn) == InfoLoaded(old(plist.items), waits, line)
    ensures turn.Again? ==> turn.waits && Waiting(plist.items, plist.tree, true, last)
    ensures Count(plist.items).live - Count(old(plist.items)).live == Pending(turn == Again(true)) - Pending(waits)
  {
    hide Count, Indexed, StrTol, Comma;
    last := lastAdded;
    if waits {
      CountUpdate(plist.items, last, plist.items[last].(deleted := true));
      plist.Delete(last);
      return last, Err;
    }
    var text := line[|EXTINF|..];
    var comma := Comma(text);
    if comma == |text| {
      return last, Err;
    }
    var timeText := text[..comma];
    if |timeText| >= TIME_TEXT {
      return last, Err;
    }
    var time := StrTol(timeText);
    if time.1 != "" {
      return last, Err;
    }
    ghost var was := plist.items;
    InIndex(plist.items, plist.tree);
    last := plist.Add(Option.None);
    plist.SetTitleTags(last, text[comma + 1..]);
    if timeText != "" {
      plist.SetItemTime(last, time.0);
    }
    CountAppend(was, plist.items[last]);
    assert plist.items == was + [plist.items[last]];
    turn := Again(true);
  }

  /** A line that names a file. */
  method LoadName(plist: Plist, line: string, waits: bool, lastAdded: int, cwd: string)
    returns (added: int, turn: Turn)
    requires plist.Valid() && Waiting(plist.items, plist.tree, waits, lastAdded)
    requires |cwd| > 0 && cwd[0] == '/'
    modifies plist
    ensures plist.Valid()
    ensures (waits ==> old(plist.items) != [])
            && Loading(plist.items, turn) == NameLoaded(old(plist.items), waits, line, cwd)
    ensures turn != Fatal ==> added - Pending(waits) == Count(plist.items).live - Count(old(plist.items)).live
  {
    hide Find, HasLive, Stripped, Count, Indexed, Resolve, Renamable;
    ghost var was := plist.items;
    added, turn := 0, Again(false);
    var text := StripString(line);
    if |line| <= PATH_MAX {
      var path := ResolvePath(if text == "" || text[0] != '/' then cwd else "/", 2 * PATH_MAX, text);
      if path.None? {
        return 0, Fatal;
      }
      var at := plist.FindFname(path.value);
      if at == -1 {
        if waits {
          CountUpdate(was, lastAdded, was[lastAdded].(file := path.value));
          Renames(was, plist.tree, lastAdded, path.value);
          plist.SetFile(lastAdded, path.value);
        } else {
          CountAppend(was, Bare(path.value));
          var i := plist.Add(Option.Some(path.value));
        }
        added := 1;
      } else if waits {
        CountUpdate(was, lastAdded, was[lastAdded].(deleted := true));
        plist.Delete(lastAdded);
      }
    } else if waits {
      CountUpdate(was, lastAdded, was[lastAdded].(deleted := true));
      plist.Delete(lastAdded);
    }
  }

  // ---------- saving ----------

  const NEWLINE: string := "\r\n"

  function SavedTime(x: Item): int {
    if x.tags.Some? then x.tags.value.time else 0
  }

  function SavedTitle(x: Item): string {
    if x.tags.Some? && x.titleTags != "" then x.titleTags else x.titleFile
  }

  /** The lines of one item, without the first `strip` characters of its name. */
  function LinesOf(x: Item, strip: nat, withTags: bool): string
    requires strip <= |x.file|
  {
    (if withTags then EXTINF + Shown(SavedTime(x)) + "," + SavedTitle(x) + NEWLINE else "")
    + x.file[strip..] + NEWLINE
  }

  ghost predicate Strippable(items: seq<Item>, strip: nat) {
    forall i :: 0 <= i < |items| && items[i].Live() ==> strip <= |items[i].file|
  }

  ghost function Lines(items: seq<Item>, strip: nat, withTags: bool): string
    requires Strippable(items, strip)
  {
    if items == [] then ""
    else (if items[0].deleted then "" else LinesOf(items[0], strip, withTags)) + Lines(items[1..], strip, withTags)
  }

  /** What plist_save_m3u writes, the option SavePlaylistTags being `header`. */
  ghost function Saved(items: seq<Item>, strip: nat, header: bool, withTags: bool): string
    requires Strippable(items, strip)
  {
    (if header then "#EXTM3U" + NEWLINE else "") + Lines(items, strip, withTags)
  }

  /** A file open for writing, of which the next `left` prints succeed. A print that fails may have
      written a part. */
  class Writer {
    var text: string
    var left: nat
    const closes: bool

    constructor (left: nat, closes: bool)
      ensures text == "" && this.left == left && this.closes == closes
    {
      text, this.left, this.closes := "", left, closes;
    }

    method Print(s: string, part: nat) returns (ok: bool)
      modifies this
      ensures ok <==> old(left) > 0
      ensures ok ==> text == old(text) + s && left == old(left) - 1
      ensures !ok ==> old(text) <= text <= old(text) + s && left == 0
    {
      ok := left > 0;
      if ok {
        text, left := text + s, left - 1;
      } else {
        text := text + s[..if part < |s| then part else |s|];
      }
    }
  }

  /** How many prints it takes to save. */
  function Prints(items: seq<Item>, withTags: bool): nat {
    if items == [] then 0
    else (if items[0].deleted then 0 else if withTags then 2 else 1) + Prints(items[1..], withTags)
  }

  /** The two prints of one item. */
  method SaveItem(x: Item, file: Writer, strip: nat, withTags: bool, part: nat) returns (ok: bool)
    requires x.Live() && strip <= |x.file|
    modifies file
    ensures ok <==> old(file.left) >= Prints([x], withTags)
    ensures ok ==> file.text == old(file.text) + LinesOf(x, strip, withTags)
                   && file.left == old(file.left) - Prints([x], withTags)
    ensures !ok ==> file.left == 0
  {
    hide Shown;
    ghost var was := file.text;
    ok := true;
    if withTags {
      ok := file.Print(EXTINF + Shown(SavedTime(x)) + "," + SavedTitle(x) + NEWLINE, part);
    }
    if ok {
      ok := file.Print(x.file[strip..] + NEWLINE, part);
    }
    if ok {
      var info := if withTags then EXTINF + Shown(SavedTime(x)) + "," + SavedTitle(x) + NEWLINE else "";
      Joined(was, info, x.file[strip..] + NEWLINE);
      Joined(info, x.file[strip..], NEWLINE);
      assert was + "" == was;
    }
  }

  /** plist_save_m3u on an open file: it reports success exactly when every print and the closing
      succeed, and then the text is the one specified; `past` says that a name had fewer
      characters than there were to strip, and was read past its end. */
  method SaveM3u(plist: Plist, file: Writer, strip: nat, header: bool, withTags: bool, part: nat)
    returns (result: bool, past: bool)
    requires file.text == ""
    modifies file
    ensures past ==> !Strippable(plist.items, strip) && !result
    ensures Strippable(plist.items, strip) ==>
              && (result <==>
                    file.closes
                    && old(file.left) >= (if header then 1 else 0) + Prints(plist.items, withTags))
              && (result ==> file.text == Saved(plist.items, strip, header, withTags))
    ensures result ==> Strippable(plist.items, strip)
  {
    hide LinesOf, Lines, Prints, Strippable;
    result, past := false, false;
    ghost var items, n := plist.items, |plist.items|;
    ghost var needed := (if header then 1 else 0) + Prints(items, withTags);
    if header {
      var ok := file.Print("#EXTM3U" + NEWLINE, part);
      if !ok {
        return;
      }
      assert "" + ("#EXTM3U" + NEWLINE) == "#EXTM3U" + NEWLINE;
    }
    AtStart(items, strip);
    for i := 0 to |plist.items|
      invariant plist.items == items && Strippable(items[..i], strip)
      invariant Strippable(items, strip) ==>
                  Strippable(items[i..], strip) &&
                  file.text + Lines(items[i..], strip, withTags) == Saved(items, strip, header, withTags)
      invariant old(file.left) - file.left == needed - Prints(items[i..], withTags)
    {
      AtItem(items, i, strip, withTags, file.text);
      if !plist.items[i].deleted {
        if |plist.items[i].file| < strip {
          return false, true;
        }
        var ok := SaveItem(plist.items[i], file, strip, withTags, part);
        if !ok {
          return;
        }
      }
    }
    AtEnd(items, strip, withTags);
    assert file.text + "" == file.text && items[..n] == items;
    result := file.closes;
  }

  lemma AtStart(items: seq<Item>, strip: nat)
    ensures items[0..] == items && Strippable(items[..0], strip)
  {
  }

  lemma AtItem(items: seq<Item>, i: nat, strip: nat, withTags: bool, text: string)
    requires i < |items| && Strippable(items[..i], strip)
    ensures Strippable(items[..i + 1], strip) <==> items[i].Live() ==> strip <= |items[i].file|
    ensures Strippable(items, strip) ==>
              && Strippable(items[i..], strip) && Strippable(items[i + 1..], strip)
              && (items[i].Live() ==> strip <= |items[i].file|)
              && text + Lines(items[i..], strip, withTags) ==
                 (if items[i].deleted then text else text + LinesOf(items[i], strip, withTags))
                 + Lines(items[i + 1..], strip, withTags)
    ensures Prints(items[i..], withTags) ==
            (if items[i].deleted then 0 else Prints([items[i]], withTags)) + Prints(items[i + 1..], withTags)
  {
    hide LinesOf;
    var rest := items[i..];
    assert rest[0] == items[i] && rest[1..] == items[i + 1..] && [items[i]][1..] == [];
    assert items[..i + 1] == items[..i] + [items[i]];
    if Strippable(items, strip) {
      assert forall k :: 0 <= k < |rest| ==> rest[k] == items[i + k];
      var more := Lines(rest[1..], strip, withTags);
      if items[i].deleted {
        assert "" + more == more;
      } else {
        Joined(text, LinesOf(items[i], strip, withTags), more);
      }
    }
  }

  lemma AtEnd(items: seq<Item>, strip: nat, withTags: bool)
    ensures Prints(items[|items|..], withTags) == 0 && Strippable(items[|items|..], strip)
    ensures Lines(items[|items|..], strip, withTags) == ""
  {
  }

  /** Whether the name of every live item begins with `dir`. */
  ghost predicate Under(items: seq<Item>, dir: string) {
    forall i :: 0 <= i < |items| && items[i].Live() ==> Starts(items[i].file, dir)
  }

  /** How many characters plist_save strips when it saves relative paths. */
  ghost function Offset(items: seq<Item>, dir: string): nat {
    if Under(items, dir) then |dir| + 1 else 0
  }

  /** plist_save into the directory `dir`; no writer stands for a file that cannot be opened. */
  method Save(plist: Plist, dir: string, file: Writer?, relative: bool, header: bool, withTags: bool, part: nat)
    returns (result: bool, past: bool)
    requires file != null ==> file.text == ""
    modifies file
    ensures var strip := if relative then Offset(plist.items, dir) else 0;
      && (past ==> !Strippable(plist.items, strip) && !result)
      && (Strippable(plist.items, strip) ==>
            && (result <==>
                  file != null && file.closes
                  && old(if file == null then 0 else file.left)
                     >= (if header then 1 else 0) + Prints(plist.items, withTags))
            && (result ==> file.text == Saved(plist.items, strip, header, withTags)))
      && (result ==> Strippable(plist.items, strip))
  {
    hide Saved, Prints;
    var offset := 0;
    if relative {
      offset := |dir| + 1;
      for i := 0 to |plist.items|
        invariant offset == |dir| + 1
        invariant forall k :: 0 <= k < i && plist.items[k].Live() ==> Starts(plist.items[k].file, dir)
      {
        if !plist.items[i].deleted && !Starts(plist.items[i].file, dir) {
          offset := 0;
          break;
        }
      }
    }
    if file == null {
      return false, false;
    }
    result, past := SaveM3u(plist, file, offset, header, withTags, part);
  }

  /** A name is read past its end exactly when it is the directory that is stripped of it. */
  lemma StrippableIff(items: seq<Item>, dir: string)
    ensures Strippable(items, Offset(items, dir)) <==>
            !Under(items, dir) || forall i :: 0 <= i < |items| && items[i].Live() ==> items[i].file != dir
  {
  }
}
