/** Saving a playlist and loading it again (src/library/playlist_file.cpp): what comes back, with
    and without tags and with absolute and relative paths. */
module M3uRoundTrip {
  import opened M3u
  import opened Paths
  import opened Plist
  import opened Wrappers

  // ---------- numbers ----------

  /** Reading the digits of a number gives it back. */
  lemma {:induction false} DigitsBack(n: nat, rest: string)
    requires rest == "" || !Digit(rest[0])
    ensures Digits(Decimal(n) + rest, 0) == (n, rest)
  {
    DigitsGoOn(n, rest);
    assert Digits(rest, n) == (n, rest);
  }

  lemma {:induction false} DigitsGoOn(n: nat, rest: string)
    ensures Digits(Decimal(n) + rest, 0) == Digits(rest, n)
    decreases n
  {
    var d := [('0' as int + n % 10) as char];
    assert (d + rest)[1..] == rest;
    if n < 10 {
      assert Decimal(n) == d;
    } else {
      DigitsGoOn(n / 10, d + rest);
      assert Decimal(n / 10) + d + rest == Decimal(n / 10) + (d + rest);
    }
  }

  /** strtol reads back what "%d" prints, and a comma is not part of it. */
  lemma ShownReadBack(n: int)
    ensures StrTol(Shown(n)) == (n, "") && Shown(n) != ""
    ensures forall i :: 0 <= i < |Shown(n)| ==> Shown(n)[i] != ','
  {
    hide Digits, Decimal;
    var digits := Decimal(if n < 0 then -n else n);
    DigitsBack(if n < 0 then -n else n, "");
    assert digits + "" == digits;
    if n < 0 {
      assert ("-" + digits)[1..] == digits;
    }
  }

  // ---------- lines ----------

  predicate OneLine(s: string) {
    '\n' !in s && '\0' !in s
  }

  /** The effect of a text that begins with a line. */
  lemma LineFirst(items: seq<Item>, waits: bool, line: string, after: string, withTags: bool, cwd: string)
    requires OneLine(line) && (waits ==> items != []) && |cwd| > 0 && cwd[0] == '/'
    ensures var r := LineLoaded(items, waits, line, withTags, cwd);
      Loaded(items, waits, line + NEWLINE + after, withTags, cwd)
      == if r.turn.Again? then Loaded(r.items, r.turn.waits, after, withTags, cwd) else r
  {
    hide Body, LineLoaded;
    var rest := line + NEWLINE + after;
    assert rest == (line + "\r") + "\n" + after;
    WholeLine(line + "\r", after);
    assert (line + "\r")[..|line|] == line;
  }

  /** How many items have a name, or will never get one. */
  function Fixed(items: seq<Item>, waits: bool): int {
    |items| - Pending(waits)
  }

  /** A line keeps what is fixed and fixes at most one item more; a comment none. */
  lemma LineAdds(items: seq<Item>, waits: bool, line: string, withTags: bool, cwd: string)
    requires (waits ==> items != []) && |cwd| > 0 && cwd[0] == '/'
    ensures var r, n := LineLoaded(items, waits, line, withTags, cwd), Fixed(items, waits);
      && |r.items| >= |items| && r.items[..n] == items[..n]
      && (r.turn.Again? ==> n <= Fixed(r.items, r.turn.waits) <= n + if Starts(line, "#") then 0 else 1)
  {
    hide Find, Stripped, Resolve, Comma, StrTol;
  }

  lemma {:induction false} LoadingKeeps(items: seq<Item>, waits: bool, rest: string, withTags: bool, cwd: string)
    requires (waits ==> items != []) && |cwd| > 0 && cwd[0] == '/'
    ensures var r, n := Loaded(items, waits, rest, withTags, cwd), Fixed(items, waits);
      |r.items| >= |items| && r.items[..n] == items[..n]
    decreases |rest|
  {
    hide LineLoaded, Chomped;
    if rest != "" {
      var line, n := Chomped(Body(rest).0), Fixed(items, waits);
      var r := LineLoaded(items, waits, line, withTags, cwd);
      LineAdds(items, waits, line, withTags, cwd);
      if r.turn.Again? {
        LoadingKeeps(r.items, r.turn.waits, Body(rest).1, withTags, cwd);
        var last, m := Loaded(r.items, r.turn.waits, Body(rest).1, withTags, cwd), Fixed(r.items, r.turn.waits);
        assert last.items[..n] == last.items[..m][..n] && r.items[..n] == r.items[..m][..n];
      }
    }
  }

  // ---------- names ----------

  /** Names that the format can carry: normalised absolute paths of bounded length, without a
      newline or NUL and with no blank at the end. */
  ghost predicate Savable(f: string) {
    Normal(f) && |f| <= PATH_MAX && OneLine(f) && !Blank(f[|f| - 1])
  }

  /** Directories that a playlist can be saved in. */
  ghost predicate Directory(dir: string) {
    dir == "/" || Normal(dir)
  }

  /** Whether a name that is stripped of `dir` and of the character behind it leads back: it has a
      slash there, and what follows is not taken for a comment. */
  predicate Rejoins(f: string, dir: string) {
    Starts(f, dir + "/") && |f| > |dir| + 1 && f[|dir| + 1] != '#'
  }

  /** How names are stripped: not at all, or of the directory that all of them begin with. */
  ghost predicate Stripping(f: string, strip: nat, dir: string) {
    strip == 0 || (Directory(dir) && strip == |dir| + 1 && Starts(f, dir) && f != dir)
  }

  predicate NameComesBack(f: string, strip: nat, dir: string) {
    strip != 0 ==> Rejoins(f, dir)
  }

  lemma Relative(f: string, dir: string)
    requires Savable(f) && Directory(dir) && Rejoins(f, dir)
    ensures var t := f[|dir| + 1..]; t[0] != '/' && MadePath(dir, t) == Some(f)
  {
    hide Walk, PlainAt;
    var t, g := f[|dir| + 1..], f + "/";
    NoSecondSlash(f, dir);
    SplitAt(f, dir);
    assert f == dir + "/" + t && dir + "/" + t + "/" == g;
    CopiesPlain(g, 0, dir, 2 * PATH_MAX);
    assert g[0..] == g && g[..|g| - 1] == f;
  }

  lemma SplitAt(f: string, dir: string)
    requires Starts(f, dir + "/")
    ensures f == dir + "/" + f[|dir| + 1..]
  {
    assert f[..|dir| + 1] == dir + "/";
  }

  lemma NoSecondSlash(f: string, dir: string)
    requires Normal(f) && Rejoins(f, dir)
    ensures f[|dir| + 1] != '/'
  {
    var g, k := f + "/", |dir|;
    assert f[k] == (dir + "/")[k] && PlainAt(g, k);
    TwoSlashes(g[k..]);
    assert g[k..][0] == '/' && g[k..][1] == f[k + 1];
  }

  lemma TwoSlashes(s: string)
    requires |s| >= 2
    ensures Starts(s, "//") <==> s[0] == '/' && s[1] == '/'
  {
    assert "//" <= s <==> s[..2] == "//";
  }

  /** A path that is resolved gets shorter, unless it stays as it is. */
  lemma {:induction false} WalkShortens(f: string, buf: string, len: nat, size: nat)
    requires |buf| > 0 && buf[0] == '/' && len <= |buf| <= len + 1 && (f == "" ==> len > 0)
    requires f != "" ==> (f[0] == '/' || len > 0) && f[|f| - 1] == '/'
    ensures var w := Walk(f, buf, len, size);
      w.Some? ==>
        && |w.value| <= len + |f|
        && (|w.value| == len + |f| ==> w.value == buf[..len] + f)
        && (f != "" ==> w.value[|w.value| - 1] == '/')
    decreases |f|
  {
    hide LastSlash, Walk;
    if f == "" {
      WalkEnd(buf, len, size);
      assert buf[..len] + "" == buf[..len];
    } else {
      assert f[0..] == f;
      WalkStep(f, 0, buf, len, size);
      if Starts(f, "/../") {
        var slash := if LastSlash(buf) <= 0 then 1 else LastSlash(buf);
        WalkShortens(f[3..], buf[..slash], slash, size);
      } else if Starts(f, "/./") {
        WalkShortens(f[2..], buf, len, size);
      } else if Starts(f, "//") {
        WalkShortens(f[1..], buf, len, size);
      } else if len != size - 1 {
        var next := buf[..len] + [f[0]];
        WalkShortens(f[1..], next, len + 1, size);
        OneCopied(f, buf, len);
        if f[1..] == "" {
          WalkEnd(next, len + 1, size);
        }
      }
    }
  }

  lemma OneCopied(f: string, buf: string, len: nat)
    requires f != "" && len <= |buf|
    ensures var next := buf[..len] + [f[0]]; next[..len + 1] + f[1..] == buf[..len] + f
    ensures var next := buf[..len] + [f[0]]; next[..len + 1] == next && (f[1..] == "" ==> f == [f[0]])
  {
  }

  lemma ResolveShortens(buf: string, file: string)
    requires Directory(buf)
    ensures var r := Resolve(buf, 2 * PATH_MAX, file);
      r.Some? ==> |r.value| <= |buf| + 1 + |file|
                  && (|r.value| == |buf| + 1 + |file| ==> r.value == buf + "/" + file)
  {
    hide Walk, Normal, Trimmed;
    DirectoryBegins(buf);
    var path, size := buf + "/" + file + "/", 2 * PATH_MAX;
    assert |path| == |buf| + |file| + 2 && path[|path| - 1] == '/';
    if |path| < size {
      DirectoryShortens(buf, path, size);
      var w := Walk(path, buf, 0, size);
      if w.Some? {
        SlashTrimmed(w.value);
        assert path[..|path| - 1] == buf + "/" + file;
      }
    }
  }

  lemma DirectoryShortens(buf: string, path: string, size: nat)
    requires Directory(buf) && buf + "/" <= path && EndsIn(path, '/') && size > 1
    ensures |buf| > 0 && buf[0] == '/' && path[0] == '/'
    ensures var w := Walk(path, buf, 0, size);
      w.Some? ==> |w.value| <= |path| && (|w.value| == |path| ==> w.value == path) && EndsIn(w.value, '/')
  {
    hide Walk, Normal;
    DirectoryBegins(buf);
    assert path[0] == (buf + "/")[0];
    if buf == "/" {
      WalkShortens(path, buf, 0, size);
      assert buf[..0] + path == path;
    } else {
      FirstCopied(buf, path, size);
      WalkShortens(path[1..], "/", 1, size);
      assert "/"[..1] + path[1..] == path;
    }
  }

  lemma DirectoryBegins(dir: string)
    requires Directory(dir)
    ensures |dir| > 0 && dir[0] == '/'
  {
  }

  lemma SlashTrimmed(w: string)
    requires w != "" && EndsIn(w, '/')
    ensures Trimmed(w) == if |w| > 1 then w[..|w| - 1] else w
  {
  }

  lemma FirstCopied(buf: string, path: string, size: nat)
    requires Normal(buf) && buf + "/" <= path && EndsIn(path, '/') && size > 1
    ensures Walk(path, buf, 0, size) == Walk(path[1..], "/", 1, size)
  {
    hide Walk, LastSlash;
    var g := buf + "/";
    assert PlainAt(g, 0) && g[0..] == g && path[..|g|] == g && path[0..] == path;
    assert Starts(path, "/../") ==> Starts(g, "/../");
    assert Starts(path, "/./") ==> Starts(g, "/./");
    assert Starts(path, "//") ==> Starts(g, "//");
    WalkStep(path, 0, buf, 0, size);
    assert buf[..0] + [path[0]] == "/";
  }

  /** A name whose directory does not end where the part to strip does leads elsewhere. */
  lemma Elsewhere(f: string, dir: string)
    requires Directory(dir) && Starts(f, dir) && f != dir && !Starts(f, dir + "/")
    ensures MadePath(dir, f[|dir| + 1..]) != Some(f)
  {
    hide Resolve, PlainAt;
    var t := f[|dir| + 1..];
    assert f == f[..|dir| + 1] + t;
    assert f[|dir|] != '/' by {
      assert f[..|dir| + 1] == dir + [f[|dir|]];
    }
    if t == "" || t[0] != '/' {
      ResolveShortens(dir, t);
      assert (dir + "/" + t)[|dir|] == '/';
    } else {
      ResolveShortens("/", t);
      assert ("/" + "/" + t)[1] == '/';
      assert |f| == 2 + |t| ==> |dir| == 1 && f[1] != '/';
    }
  }

  /** The line of a name that comes back. */
  lemma NameBack(items: seq<Item>, waits: bool, f: string, strip: nat, withTags: bool, dir: string)
    requires Savable(f) && Stripping(f, strip, dir) && NameComesBack(f, strip, dir) && |dir| > 0 && dir[0] == '/'
    requires (waits ==> items != []) && !HasLive(items, f)
    ensures LineLoaded(items, waits, f[strip..], withTags, dir) ==
            Loading(if waits then items[|items| - 1 := items[|items| - 1].(file := f)]
                    else items + [Bare(f)], Again(false))
  {
    hide Find, Resolve;
    var t := f[strip..];
    assert t != "" && t[0] != '#';
    StrippedUnique(t, t);
    if strip == 0 {
      NormalStays(f);
    } else {
      Relative(f, dir);
    }
  }

  /** Whether the item that was to follow the `kept` first ones, under the name `f`, is not
      there. */
  ghost predicate Missed(r: Loading, kept: int, f: string) {
    r.turn.Again? ==>
      || Fixed(r.items, r.turn.waits) <= kept
      || (r.turn == Again(false) && 0 <= kept < |r.items| && !(r.items[kept].Live() && r.items[kept].file == f))
  }

  lemma CommentOrElsewhere(f: string, dir: string)
    requires Normal(f) && Starts(f, dir) && f != dir && !Rejoins(f, dir)
    ensures Starts(f[|dir| + 1..], "#") || !Starts(f, dir + "/")
  {
    hide PlainAt;
    if Starts(f, dir + "/") {
      assert f[..|dir| + 1] == dir + "/" && f[|f| - 1] != '/';
      assert f[|dir| + 1..][0] == f[|dir| + 1];
    }
  }

  /** The line of a name that does not come back. */
  lemma NameLost(items: seq<Item>, waits: bool, f: string, strip: nat, withTags: bool, dir: string)
    requires Savable(f) && Stripping(f, strip, dir) && !NameComesBack(f, strip, dir) && |dir| > 0 && dir[0] == '/'
    requires waits ==> items != []
    ensures Missed(LineLoaded(items, waits, f[strip..], withTags, dir), Fixed(items, waits), f)
  {
    hide Find, Resolve, Normal, Comma, StrTol, Rejoins;
    var t := f[strip..];
    LineAdds(items, waits, t, withTags, dir);
    if !Starts(t, "#") {
      CommentOrElsewhere(f, dir);
      StrippedUnique(t, t);
      Elsewhere(f, dir);
    }
  }

  // ---------- items ----------

  function InfoLine(x: Item): string {
    EXTINF + Shown(SavedTime(x)) + "," + SavedTitle(x)
  }

  /** Whether the time of an item fits into the buffer that it is read into. */
  predicate Fits(x: Item) {
    |Shown(SavedTime(x))| < TIME_TEXT
  }

  /** What the item `x` is when it is loaded again. */
  function Restored(x: Item, withTags: bool): Item {
    if withTags then Titled(SavedTitle(x), Some(SavedTime(x))).(file := x.file)
    else Bare(x.file)
  }

  /** The live items, as they are when they are loaded again. */
  function AllRestored(items: seq<Item>, withTags: bool): (r: seq<Item>)
    ensures |r| <= |items|
  {
    if items == [] then []
    else (if items[0].deleted then [] else [Restored(items[0], withTags)]) + AllRestored(items[1..], withTags)
  }

  lemma InfoBack(items: seq<Item>, x: Item)
    ensures Starts(InfoLine(x), EXTINF)
    ensures InfoLoaded(items, false, InfoLine(x)) ==
            if Fits(x) then Loading(items + [Titled(SavedTitle(x), Some(SavedTime(x)))], Again(true))
            else Loading(items, Err)
  {
    hide StrTol, Shown;
    var time, title := Shown(SavedTime(x)), SavedTitle(x);
    ShownReadBack(SavedTime(x));
    var text := time + "," + title;
    assert InfoLine(x) == EXTINF + text && (EXTINF + text)[|EXTINF|..] == text;
    assert text[|time|] == ',' && forall i :: 0 <= i < |time| ==> text[i] == time[i];
    assert Comma(text) == |time|;
    assert text[..|time|] == time && text[|time| + 1..] == title;
  }

  lemma InfoIsOneLine(x: Item)
    requires OneLine(SavedTitle(x))
    ensures OneLine(InfoLine(x))
  {
    var n := SavedTime(x);
    var digits := Decimal(if n < 0 then -n else n);
    assert forall c :: c in digits ==> Digit(c);
    assert forall c :: c in Shown(n) ==> c == '-' || c in digits;
  }

  ghost predicate AllSavable(items: seq<Item>, strip: nat, dir: string) {
    forall i :: 0 <= i < |items| && items[i].Live() ==>
      Savable(items[i].file) && OneLine(SavedTitle(items[i])) && Stripping(items[i].file, strip, dir)
  }

  /** Whether the lines of an item give it back, with its title and time or without. */
  predicate ComesBack(x: Item, strip: nat, dir: string, tagged: bool) {
    (tagged ==> Fits(x)) && NameComesBack(x.file, strip, dir)
  }

  lemma LinesSplit(x: Item, strip: nat, saved: bool, after: string)
    requires strip <= |x.file|
    ensures LinesOf(x, strip, saved) + after ==
            if saved then InfoLine(x) + NEWLINE + (x.file[strip..] + NEWLINE + after)
            else x.file[strip..] + NEWLINE + after
  {
  }

  lemma StrippedName(f: string, strip: nat, dir: string)
    requires Savable(f) && Stripping(f, strip, dir)
    ensures strip <= |f| && OneLine(f[strip..]) && f != ""
  {
  }

  lemma InfoOrComment(items: seq<Item>, x: Item, withTags: bool, cwd: string)
    requires |cwd| > 0 && cwd[0] == '/'
    ensures Starts(InfoLine(x), EXTINF)
    ensures LineLoaded(items, false, InfoLine(x), withTags, cwd) ==
            if withTags then InfoLoaded(items, false, InfoLine(x)) else Loading(items, Again(false))
  {
    hide InfoLoaded, NameLoaded, Shown;
    assert InfoLine(x)[0] == '#';
  }

  /** The effect of the lines of one item: it is appended, with title and time if they are both
      saved and loaded, or it is missing. */
  lemma ItemLines(done: seq<Item>, x: Item, after: string, strip: nat, saved: bool, withTags: bool, dir: string)
    requires Savable(x.file) && OneLine(SavedTitle(x)) && Stripping(x.file, strip, dir) && |dir| > 0 && dir[0] == '/'
    requires !HasLive(done, x.file)
    ensures strip <= |x.file|
    ensures var r := Loaded(done, false, LinesOf(x, strip, saved) + after, withTags, dir);
      if ComesBack(x, strip, dir, saved && withTags) then
        r == Loaded(done + [Restored(x, saved && withTags)], false, after, withTags, dir)
      else
        exists q: Loading ::
          && Missed(q, |done|, x.file) && (q.turn.Again? && q.turn.waits ==> q.items != [])
          && r == if q.turn.Again? then Loaded(q.items, q.turn.waits, after, withTags, dir) else q
  {
    hide Savable, HasLive, OneLine, Loaded, LineLoaded, InfoLoaded, Shown, Stripping, NameComesBack, LinesOf;
    var f, tagged := x.file, saved && withTags;
    StrippedName(f, strip, dir);
    LinesSplit(x, strip, saved, after);
    var now := if tagged then done + [Titled(SavedTitle(x), Some(SavedTime(x)))] else done;
    if saved {
      InfoIsOneLine(x);
      InfoBack(done, x);
      InfoOrComment(done, x, withTags, dir);
      LineFirst(done, false, InfoLine(x), f[strip..] + NEWLINE + after, withTags, dir);
    }
    if tagged && !Fits(x) {
      assert Missed(Loading(done, Err), |done|, f);
    } else {
      LineFirst(now, tagged, f[strip..], after, withTags, dir);
      if NameComesBack(f, strip, dir) {
        if tagged {
          HasLiveAppend(done, now[|done|], f);
          assert now[|done| := now[|done|].(file := f)] == done + [Restored(x, true)];
        }
        NameBack(now, tagged, f, strip, withTags, dir);
      } else {
        NameLost(now, tagged, f, strip, withTags, dir);
        assert Missed(LineLoaded(now, tagged, f[strip..], withTags, dir), |done|, f);
      }
    }
  }

  /** No live item of `items` has a name that is live in `done`. */
  ghost predicate Apart(done: seq<Item>, items: seq<Item>) {
    forall i :: 0 <= i < |items| && items[i].Live() ==> !HasLive(done, items[i].file)
  }

  ghost predicate AllComeBack(items: seq<Item>, strip: nat, dir: string, tagged: bool) {
    forall i :: 0 <= i < |items| && items[i].Live() ==> ComesBack(items[i], strip, dir, tagged)
  }

  lemma StillApart(done: seq<Item>, items: seq<Item>, x: Item)
    requires items != [] && Apart(done, items) && Distinct(items) && items[0].Live() && x.file == items[0].file
    ensures Apart(done + [x], items[1..])
  {
    hide HasLive;
    forall i | 0 <= i < |items[1..]| && items[1..][i].Live() ensures !HasLive(done + [x], items[1..][i].file) {
      assert items[1..][i] == items[i + 1];
      HasLiveAppend(done, x, items[1..][i].file);
    }
  }

  lemma SavableRest(items: seq<Item>, strip: nat, dir: string)
    requires AllSavable(items, strip, dir)
    ensures Strippable(items, strip)
    ensures items != [] ==> AllSavable(items[1..], strip, dir)
    ensures items != [] && items[0].Live() ==>
              Savable(items[0].file) && OneLine(SavedTitle(items[0])) && Stripping(items[0].file, strip, dir)
  {
    hide Savable, OneLine;
    forall i | 0 <= i < |items| && items[i].Live() ensures strip <= |items[i].file| {
      StrippedName(items[i].file, strip, dir);
    }
    assert forall i :: 0 <= i < |items| - 1 ==> items[1..][i] == items[i + 1];
  }

  lemma Rest(done: seq<Item>, items: seq<Item>, strip: nat, dir: string, tagged: bool)
    requires items != [] && Apart(done, items) && Distinct(items)
    ensures Apart(done, items[1..]) && Distinct(items[1..])
    ensures items[0].Live() ==> !HasLive(done, items[0].file)
    ensures AllComeBack(items, strip, dir, tagged) <==>
            (items[0].Live() ==> ComesBack(items[0], strip, dir, tagged)) && AllComeBack(items[1..], strip, dir, tagged)
  {
    hide ComesBack, HasLive;
    assert forall i :: 0 <= i < |items[1..]| ==> items[1..][i] == items[i + 1];
    assert items == [items[0]] + items[1..];
  }

  /** The lines of saved items fix at most one item each. */
  lemma {:induction false} LinesAdd(now: seq<Item>, waits: bool, items: seq<Item>, strip: nat, saved: bool,
                                    withTags: bool, dir: string)
    requires (waits ==> now != []) && AllSavable(items, strip, dir) && |dir| > 0 && dir[0] == '/'
    ensures Strippable(items, strip)
    ensures var r := Loaded(now, waits, Lines(items, strip, saved), withTags, dir);
      r.turn.Again? ==>
        Fixed(r.items, r.turn.waits) <= Fixed(now, waits) + |AllRestored(items, saved && withTags)|
    decreases |items|
  {
    hide AllSavable, Savable, OneLine, Loaded, LinesOf, Restored, LineLoaded, Stripping, InfoLine;
    SavableRest(items, strip, dir);
    if items == [] {
      NothingLoaded(now, waits, withTags, dir);
    } else if items[0].deleted {
      assert "" + Lines(items[1..], strip, saved) == Lines(items[1..], strip, saved);
      LinesAdd(now, waits, items[1..], strip, saved, withTags, dir);
    } else {
      var x, after := items[0], Lines(items[1..], strip, saved);
      var name := x.file[strip..];
      StrippedName(x.file, strip, dir);
      LinesSplit(x, strip, saved, after);
      var q := Loading(now, Again(waits));
      if saved {
        InfoIsOneLine(x);
        InfoIsComment(x);
        q := LineLoaded(now, waits, InfoLine(x), withTags, dir);
        LineAdds(now, waits, InfoLine(x), withTags, dir);
        LineFirst(now, waits, InfoLine(x), name + NEWLINE + after, withTags, dir);
      }
      if q.turn.Again? {
        var r := LineLoaded(q.items, q.turn.waits, name, withTags, dir);
        LineAdds(q.items, q.turn.waits, name, withTags, dir);
        LineFirst(q.items, q.turn.waits, name, after, withTags, dir);
        if r.turn.Again? {
          LinesAdd(r.items, r.turn.waits, items[1..], strip, saved, withTags, dir);
        }
      }
    }
  }

  lemma InfoIsComment(x: Item)
    ensures Starts(InfoLine(x), "#")
  {
    hide Shown;
    assert InfoLine(x)[0] == '#';
  }

  lemma NothingLoaded(items: seq<Item>, waits: bool, withTags: bool, cwd: string)
    requires (waits ==> items != []) && |cwd| > 0 && cwd[0] == '/'
    ensures Loaded(items, waits, "", withTags, cwd) == Loading(items, Again(waits))
  {
  }

  lemma RestoredName(x: Item, tagged: bool)
    ensures Restored(x, tagged).file == x.file && Restored(x, tagged).Live()
  {
  }

  /** An item that is missing is still missing at the end. */
  lemma StaysMissed(q: Loading, done: seq<Item>, x: Item, more: seq<Item>, items: seq<Item>, strip: nat,
                    saved: bool, withTags: bool, dir: string)
    requires AllSavable(items, strip, dir) && |dir| > 0 && dir[0] == '/'
    requires Missed(q, |done|, x.file) && x.Live() && (q.turn.Again? && q.turn.waits ==> q.items != [])
    requires |more| == |AllRestored(items, saved && withTags)|
    ensures Strippable(items, strip)
    ensures var r := if q.turn.Again?
                     then Loaded(q.items, q.turn.waits, Lines(items, strip, saved), withTags, dir) else q;
      r != Loading(done + ([x] + more), Again(false))
  {
    hide AllSavable, Loaded, Lines, AllRestored;
    SavableRest(items, strip, dir);
    if q.turn.Again? {
      LinesAdd(q.items, q.turn.waits, items, strip, saved, withTags, dir);
      LoadingKeeps(q.items, q.turn.waits, Lines(items, strip, saved), withTags, dir);
      var r, n := Loaded(q.items, q.turn.waits, Lines(items, strip, saved), withTags, dir),
                  Fixed(q.items, q.turn.waits);
      if n > |done| {
        assert r.items[|done|] == r.items[..n][|done|] == q.items[..n][|done|];
        assert (done + ([x] + more))[|done|] == x;
      }
    }
  }

  lemma {:induction false} ItemsBack(done: seq<Item>, items: seq<Item>, strip: nat, saved: bool, withTags: bool,
                                     dir: string)
    requires AllSavable(items, strip, dir) && Apart(done, items) && Distinct(items) && |dir| > 0 && dir[0] == '/'
    ensures Strippable(items, strip)
    ensures var r, tagged := Loaded(done, false, Lines(items, strip, saved), withTags, dir), saved && withTags;
      r == Loading(done + AllRestored(items, tagged), Again(false)) <==> AllComeBack(items, strip, dir, tagged)
    decreases |items|
  {
    hide AllSavable, Apart, Distinct, Savable, OneLine, HasLive, Loaded, LinesOf, Restored, ComesBack, Missed;
    var tagged := saved && withTags;
    SavableRest(items, strip, dir);
    if items == [] {
      assert done + [] == done;
      NothingLoaded(done, false, withTags, dir);
    } else {
      Rest(done, items, strip, dir, tagged);
      var after, more := Lines(items[1..], strip, saved), AllRestored(items[1..], tagged);
      if items[0].deleted {
        assert "" + after == after && [] + more == more;
        ItemsBack(done, items[1..], strip, saved, withTags, dir);
      } else {
        var x := Restored(items[0], tagged);
        RestoredName(items[0], tagged);
        ItemLines(done, items[0], after, strip, saved, withTags, dir);
        if ComesBack(items[0], strip, dir, tagged) {
          StillApart(done, items, x);
          ItemsBack(done + [x], items[1..], strip, saved, withTags, dir);
          assert done + ([x] + more) == done + [x] + more;
        } else {
          var q: Loading :|
            && Missed(q, |done|, items[0].file) && (q.turn.Again? && q.turn.waits ==> q.items != [])
            && Loaded(done, false, LinesOf(items[0], strip, saved) + after, withTags, dir)
               == if q.turn.Again? then Loaded(q.items, q.turn.waits, after, withTags, dir) else q;
          StaysMissed(q, done, x, more, items[1..], strip, saved, withTags, dir);
        }
      }
    }
  }

  // ---------- playlists ----------

  lemma {:induction false} DecimalLength(n: nat, digits: nat, bound: nat)
    requires digits > 0 && bound == PowerOfTen(digits)
    ensures |Decimal(n)| <= digits <==> n < bound
    decreases digits
  {
    if digits > 1 && n >= 10 {
      DecimalLength(n / 10, digits - 1, PowerOfTen(digits - 1));
    }
  }

  function PowerOfTen(k: nat): (r: nat)
    ensures r > 0
  {
    if k == 0 then 1 else 10 * PowerOfTen(k - 1)
  }

  /** The times that fit into the buffer. */
  lemma FittingTimes(x: Item)
    ensures Fits(x) <==> -100_000_000 < SavedTime(x) < 1_000_000_000
  {
    hide Decimal;
    var n := SavedTime(x);
    assert PowerOfTen(8) == 100_000_000 && PowerOfTen(9) == 1_000_000_000;
    DecimalLength(if n < 0 then -n else n, if n < 0 then 8 else 9, if n < 0 then 100_000_000 else 1_000_000_000);
  }

  lemma HeaderSkipped(items: seq<Item>, strip: nat, header: bool, saved: bool, withTags: bool, dir: string)
    requires Strippable(items, strip) && |dir| > 0 && dir[0] == '/'
    ensures Loaded([], false, Saved(items, strip, header, saved), withTags, dir)
            == Loaded([], false, Lines(items, strip, saved), withTags, dir)
  {
    hide Loaded, Lines, NameLoaded, InfoLoaded;
    if header {
      var line := "#EXTM3U";
      assert line[4] != EXTINF[4];
      LineFirst([], false, line, Lines(items, strip, saved), withTags, dir);
    } else {
      assert "" + Lines(items, strip, saved) == Lines(items, strip, saved);
    }
  }

  /** How many characters are stripped of every name. */
  ghost function Strip(items: seq<Item>, dir: string, relative: bool): nat {
    if relative then Offset(items, dir) else 0
  }

  /** Saving a playlist and loading it into an empty one from the directory `dir` gives back its
      live files in order, with titles and times if these are both saved and loaded, exactly when
      every time then fits into nine characters and, if names are stripped, every name goes on
      behind the directory with a slash and no number sign. */
  lemma SaveLoadRoundTrip(items: seq<Item>, dir: string, relative: bool, header: bool, saved: bool, withTags: bool)
    requires |dir| > 0 && dir[0] == '/' && (relative ==> Directory(dir))
    requires Distinct(items)
    requires forall i :: 0 <= i < |items| && items[i].Live() ==>
      Savable(items[i].file) && OneLine(SavedTitle(items[i])) && (relative ==> items[i].file != dir)
    ensures Strippable(items, Strip(items, dir, relative))
    ensures var strip, tagged := Strip(items, dir, relative), saved && withTags;
      Loaded([], false, Saved(items, strip, header, saved), withTags, dir)
      == Loading(AllRestored(items, tagged), Again(false))
      <==>
      && (tagged ==> forall i :: 0 <= i < |items| && items[i].Live() ==>
            -100_000_000 < SavedTime(items[i]) < 1_000_000_000)
      && (relative && Under(items, dir) ==> forall i :: 0 <= i < |items| && items[i].Live() ==>
            Rejoins(items[i].file, dir))
  {
    hide Savable, OneLine, Loaded, Lines, Saved, Rejoins, Distinct, Fits;
    var strip, tagged := Strip(items, dir, relative), saved && withTags;
    assert AllSavable(items, strip, dir);
    SavableRest(items, strip, dir);
    HeaderSkipped(items, strip, header, saved, withTags, dir);
    assert Apart([], items);
    ItemsBack([], items, strip, saved, withTags, dir);
    assert [] + AllRestored(items, tagged) == AllRestored(items, tagged);
    forall i | 0 <= i < |items| && items[i].Live()
      ensures Fits(items[i]) <==> -100_000_000 < SavedTime(items[i]) < 1_000_000_000
    {
      FittingTimes(items[i]);
    }
  }

  /** The line of a name that is stripped of its directory gives the name, to a list without it,
      exactly when it rejoins. */
  lemma StrippedReturns(items: seq<Item>, waits: bool, f: string, withTags: bool, dir: string)
    requires Savable(f) && Directory(dir) && Starts(f, dir) && f != dir
    requires (waits ==> items != [] && items[|items| - 1].Live()) && !HasLive(items, f)
    ensures |dir| + 1 <= |f| && |dir| > 0 && dir[0] == '/'
    ensures HasLive(LineLoaded(items, waits, f[|dir| + 1..], withTags, dir).items, f) <==> Rejoins(f, dir)
  {
    hide Savable, Normal, Rejoins, Resolve, Find, StrTol, Comma, HasLive;
    DirectoryBegins(dir);
    var t := f[|dir| + 1..];
    NamedNotEmpty(f);
    if Rejoins(f, dir) {
      NameBack(items, waits, f, |dir| + 1, withTags, dir);
      GivesName(items, waits, f);
    } else {
      StrippedLine(f, dir);
      LineGivesOther(items, waits, f, t, withTags, dir);
    }
  }

  lemma NamedNotEmpty(f: string)
    requires Savable(f)
    ensures f != ""
  {
  }

  lemma GivesName(items: seq<Item>, waits: bool, f: string)
    requires waits ==> items != [] && items[|items| - 1].Live()
    ensures HasLive(if waits then items[|items| - 1 := items[|items| - 1].(file := f)] else items + [Bare(f)], f)
  {
    var now := if waits then items[|items| - 1 := items[|items| - 1].(file := f)] else items + [Bare(f)];
    assert now[|now| - 1].Live();
  }

  lemma StrippedLine(f: string, dir: string)
    requires Savable(f) && Directory(dir) && Starts(f, dir) && f != dir && !Rejoins(f, dir)
    ensures var t := f[|dir| + 1..]; Starts(t, "#") || MadePath(dir, Stripped(t)) != Some(f)
  {
    hide Resolve, PlainAt, Rejoins;
    CommentOrElsewhere(f, dir);
    var t := f[|dir| + 1..];
    if !Starts(t, "#") {
      StrippedUnique(t, t);
      Elsewhere(f, dir);
    }
  }

  lemma LineGivesOther(items: seq<Item>, waits: bool, f: string, t: string, withTags: bool, dir: string)
    requires (waits ==> items != []) && !HasLive(items, f) && f != "" && |dir| > 0 && dir[0] == '/'
    requires Starts(t, "#") || MadePath(dir, Stripped(t)) != Some(f)
    ensures !HasLive(LineLoaded(items, waits, t, withTags, dir).items, f)
  {
    hide Resolve, Find, StrTol, Comma, Stripped;
  }

  /** So no file below the root directory is given back by the line that it is saved as when paths
      are relative to the root. */
  lemma RelativeToTheRoot(items: seq<Item>, waits: bool, f: string, withTags: bool)
    requires Savable(f) && (waits ==> items != [] && items[|items| - 1].Live()) && !HasLive(items, f)
    ensures |f| >= 2 && Starts(f, "/") && !HasLive(LineLoaded(items, waits, f[2..], withTags, "/").items, f)
  {
    hide HasLive, LineLoaded, Savable;
    NeverRejoins(f);
    StrippedReturns(items, waits, f, withTags, "/");
  }

  lemma NeverRejoins(f: string)
    requires Savable(f)
    ensures |f| >= 2 && Starts(f, "/") && f != "/" && !Rejoins(f, "/")
  {
    var g := f + "/";
    assert PlainAt(g, 0) && g[0..] == g;
    assert Starts(f, "//") ==> Starts(g, "//");
  }

  /** For every directory and every name: a file whose name begins with a number sign is lost
      when it is saved alone with a relative path. */
  lemma NumberSignIsLost(x: Item, dir: string, header: bool)
    requires Directory(dir) && x.Live() && Savable(x.file) && Starts(x.file, dir + "/#")
    ensures Under([x], dir) && Strippable([x], |dir| + 1)
    ensures Loaded([], false, Saved([x], |dir| + 1, header, false), false, dir) == Loading([], Again(false))
  {
    hide Loaded, LineLoaded, Savable, PlainAt, OneLine, LinesOf;
    var f, strip := x.file, |dir| + 1;
    var t := f[strip..];
    assert f[..strip + 1] == dir + "/#" && f[strip] == t[0] && Starts(f, dir) && f != dir;
    assert Strippable([x], strip);
    StrippedName(f, strip, dir);
    HeaderSkipped([x], strip, header, false, false, dir);
    LinesSplit(x, strip, false, "");
    assert Lines([x], strip, false) == t + NEWLINE + "";
    LineFirst([], false, t, "", false, dir);
    CommentSkipped(t, dir);
    NothingLoaded([], false, false, dir);
  }

  lemma CommentSkipped(line: string, cwd: string)
    requires line != "" && line[0] == '#' && |cwd| > 0 && cwd[0] == '/'
    ensures LineLoaded([], false, line, false, cwd) == Loading([], Again(false))
  {
  }

  // ---------- totals ----------

  lemma {:induction false} CountCons(x: Item, items: seq<Item>)
    ensures Count([x] + items) == Weight(x).Plus(Count(items))
    decreases |items|
  {
    hide Weight;
    if items == [] {
      assert [x] + items == [] + [x];
      CountAppend([], x);
    } else {
      var n := |items| - 1;
      CountCons(x, items[..n]);
      CountAppend([x] + items[..n], items[n]);
      assert [x] + items == [x] + items[..n] + [items[n]];
    }
  }

  /** With titles and times, the loaded list has as many live items as the saved one and the same
      total time; but the items without a time are as many only if every live item has tags: an
      item without them is saved with the time 0. */
  lemma {:induction false} TotalsBack(items: seq<Item>)
    ensures var r := Count(AllRestored(items, true));
      && r.live == Count(items).live && r.time == Count(items).time && r.timed >= Count(items).timed
      && (r.timed == Count(items).timed <==> forall i :: 0 <= i < |items| && items[i].Live() ==> items[i].tags.Some?)
  {
    hide Count;
    if items == [] {
      CountNone();
    } else {
      var x, rest, more := items[0], items[1..], AllRestored(items[1..], true);
      TotalsBack(rest);
      assert items == [x] + rest;
      CountCons(x, rest);
      if x.deleted {
        assert [] + more == more;
      } else {
        CountCons(Restored(x, true), more);
      }
      assert forall i :: 0 <= i < |rest| ==> rest[i] == items[i + 1];
    }
  }
}
