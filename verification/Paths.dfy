/** Reading lines and resolving paths (src/library/files.cpp). A string is what a C string can
    hold; `None` stands for a call of fatal(). */
module Paths {
  import opened Wrappers

  const PATH_MAX: nat := 4096

  // ---------- lines ----------

  /** READ_LINE_INIT_SIZE */
  const CHUNK_SIZE: nat := 256

  /** How much one fgets takes: up to and including a newline, at most 255 characters. */
  function Gets(rest: string, limit: nat): (k: nat)
    ensures k <= |rest| && k <= limit
    ensures limit > 0 && rest != "" ==> k > 0
    ensures forall i :: 0 <= i < k - 1 ==> rest[i] != '\n'
    ensures k == |rest| || k == limit || (k > 0 && rest[k - 1] == '\n')
  {
    if limit == 0 || rest == "" then 0
    else if rest[0] == '\n' then 1
    else
      var k := Gets(rest[1..], limit - 1);
      assert forall i :: 0 < i < k ==> rest[i] == rest[1..][i - 1];
      1 + k
  }

  /** The part before the first NUL. */
  function CString(s: string): (r: string)
    ensures r <= s && '\0' !in r
    ensures '\0' !in s ==> r == s
  {
    if s == "" || s[0] == '\0' then ""
    else
      assert s == [s[0]] + s[1..];
      [s[0]] + CString(s[1..])
  }

  predicate EndsIn(s: string, c: char) {
    |s| > 0 && s[|s| - 1] == c
  }

  /** The loop of read_line: the line without its newline, and what follows it. */
  function Body(rest: string): (r: (string, string))
    ensures rest != "" ==> |r.1| < |rest|
    ensures '\0' !in r.0
    decreases |rest|
  {
    if rest == "" then ("", "")
    else
      var k := Gets(rest, CHUNK_SIZE - 1);
      var c := CString(rest[..k]);
      if EndsIn(c, '\n') then (c[..|c| - 1], rest[k..])
      else
        var more := Body(rest[k..]);
        (c + more.0, more.1)
  }

  function Chomped(s: string): string {
    if EndsIn(s, '\r') then s[..|s| - 1] else s
  }

  /** A file open for reading. */
  class Reader {
    var rest: string

    constructor (text: string)
      ensures rest == text
    {
      rest := text;
    }

    method FGets(size: nat) returns (buf: Option<string>)
      requires size > 1
      modifies this
      ensures old(rest) == "" ==> buf == None && rest == ""
      ensures old(rest) != "" ==>
                var k := Gets(old(rest), size - 1); buf == Some(CString(old(rest)[..k])) && rest == old(rest)[k..]
    {
      if rest == "" {
        return None;
      }
      var k := Gets(rest, size - 1);
      buf := Some(CString(rest[..k]));
      rest := rest[k..];
    }

    /** read_line */
    method ReadLine() returns (line: Option<string>)
      modifies this
      ensures old(rest) == "" ==> line == None && rest == ""
      ensures old(rest) != "" ==> line == Some(Chomped(Body(old(rest)).0)) && rest == Body(old(rest)).1
    {
      hide CString, Gets, Body, Chomped;
      ghost var all := rest;
      var text, gotData := "", false;
      while true
        invariant gotData || (rest == all && text == "")
        invariant text + Body(rest).0 == Body(all).0 && Body(rest).1 == Body(all).1
        invariant gotData ==> all != ""
        decreases |rest|
      {
        BodyStep(rest);
        var buf := FGets(CHUNK_SIZE);
        if buf.None? {
          assert text + "" == text;
          break;
        }
        gotData := true;
        if EndsIn(buf.value, '\n') {
          text := text + buf.value[..|buf.value| - 1];
          assert text == Body(all).0;
          break;
        }
        Joined(text, buf.value, Body(rest).0);
        text := text + buf.value;
      }
      if !gotData {
        return None;
      }
      line := Some(Chomped(text));
    }
  }

  lemma Joined(a: string, b: string, c: string)
    ensures a + (b + c) == (a + b) + c
  {
  }

  lemma BodyStep(rest: string)
    ensures Body("") == ("", "")
    ensures rest != "" ==>
              var k := Gets(rest, CHUNK_SIZE - 1);
              var c := CString(rest[..k]);
              k > 0 && Body(rest) == if EndsIn(c, '\n') then (c[..|c| - 1], rest[k..])
                                     else (c + Body(rest[k..]).0, Body(rest[k..]).1)
  {
  }

  lemma GetsOfLine(line: string, after: string, limit: nat)
    requires '\n' !in line && limit > 0
    ensures Gets(line + "\n" + after, limit) == if |line| < limit then |line| + 1 else limit
  {
    var rest := line + "\n" + after;
    assert rest[|line|] == '\n';
    assert forall i :: 0 <= i < |line| ==> rest[i] == line[i] && line[i] in line;
  }

  /** However long a line is, the chunks make the whole of it. */
  lemma {:induction false} WholeLine(line: string, after: string)
    requires '\n' !in line && '\0' !in line
    ensures Body(line + "\n" + after) == (line, after)
    decreases |line|
  {
    hide Gets, CString, Body;
    var rest, limit := line + "\n" + after, CHUNK_SIZE - 1;
    BodyStep(rest);
    GetsOfLine(line, after, limit);
    if |line| < limit {
      assert rest[..|line| + 1] == line + "\n" && rest[|line| + 1..] == after;
      NoNul(line + "\n");
    } else {
      assert rest[..limit] == line[..limit] && rest[limit..] == line[limit..] + "\n" + after;
      assert forall i :: 0 <= i < limit ==> line[..limit][i] in line;
      assert forall c :: c in line[limit..] ==> c in line;
      NoNul(line[..limit]);
      assert line[..limit][limit - 1] in line;
      WholeLine(line[limit..], after);
      assert line[..limit] + line[limit..] == line;
    }
  }

  /** The last line may end without a newline. */
  lemma {:induction false} LastLine(line: string)
    requires '\n' !in line && '\0' !in line
    ensures Body(line) == (line, "")
    decreases |line|
  {
    hide CString, Body;
    BodyStep(line);
    if line != "" {
      var k := Gets(line, CHUNK_SIZE - 1);
      assert line[..k][k - 1] in line;
      assert forall c :: c in line[..k] || c in line[k..] ==> c in line;
      NoNul(line[..k]);
      LastLine(line[k..]);
      assert line[..k] + line[k..] == line;
    }
  }

  /** Of a line that ends in a carriage return that one character is taken away, and no other. */
  lemma CarriageReturn(line: string)
    ensures Chomped(line + "\r") == line
    ensures Chomped(line) != line <==> exists front :: line == front + "\r"
  {
    if EndsIn(line, '\r') {
      assert line == line[..|line| - 1] + "\r";
    }
  }

  lemma NoNul(s: string)
    requires '\0' !in s
    ensures CString(s) == s
  {
  }

  // ---------- paths ----------

  predicate Starts(f: string, prefix: string) {
    prefix <= f
  }

  function LastSlash(s: string): (r: int)
    ensures -1 <= r < |s|
    ensures r >= 0 ==> s[r] == '/'
    ensures forall i :: r < i < |s| ==> s[i] != '/'
  {
    if s == "" then -1 else if s[|s| - 1] == '/' then |s| - 1 else LastSlash(s[..|s| - 1])
  }

  /** The loop of resolve_path: `f` is left to process, `buf` is the buffer's string and `len`
      the number of characters put there. */
  function Walk(f: string, buf: string, len: nat, size: nat): (r: Option<string>)
    requires |buf| > 0 && buf[0] == '/' && len <= |buf| && (f == "" ==> len > 0)
    requires f != "" ==> f[0] == '/' || len > 0
    requires f != "" ==> f[|f| - 1] == '/'
    ensures r.Some? ==> r.value != ""
    decreases |f|
  {
    if f == "" then Some(buf[..len])
    else if Starts(f, "/../") then
      var slash := if LastSlash(buf) <= 0 then 1 else LastSlash(buf);
      Walk(f[3..], buf[..slash], slash, size)
    else if Starts(f, "/./") then Walk(f[2..], buf, len, size)
    else if Starts(f, "//") then Walk(f[1..], buf, len, size)
    else if len == size - 1 then None
    else Walk(f[1..], buf[..len] + [f[0]], len + 1, size)
  }

  /** The end of resolve_path: no dot and no slash at the end. */
  function Trimmed(buf: string): (r: string)
    ensures buf != "" ==> r != ""
  {
    var b := if |buf| >= 2 && EndsIn(buf, '.') && buf[|buf| - 2] == '/' then buf[..|buf| - 1] else buf;
    if |b| > 1 && EndsIn(b, '/') then b[..|b| - 1] else b
  }

  function Resolve(buf: string, size: nat, file: string): (r: Option<string>)
    requires |buf| > 0 && buf[0] == '/'
    ensures r.Some? ==> r.value != ""
  {
    var path := buf + "/" + file + "/";
    if |path| >= 2 * PATH_MAX then None
    else
      var w := Walk(path, buf, 0, size);
      if w.None? then None else Some(Trimmed(w.value))
  }

  /** resolve_path, on the buffer's string. */
  method ResolvePath(buf0: string, size: nat, file: string) returns (r: Option<string>)
    requires |buf0| > 0 && buf0[0] == '/' && size > 1
    ensures r == Resolve(buf0, size, file)
  {
    hide LastSlash, Walk, Starts;
    var path := buf0 + "/" + file + "/";
    if |path| >= 2 * PATH_MAX {
      return None;
    }
    var f, buf, len := 0, buf0, 0;
    while f < |path|
      invariant f <= |path| && |buf| > 0 && buf[0] == '/' && len <= |buf|
      invariant f == |path| ==> len > 0
      invariant f < |path| ==> path[f] == '/' || len > 0
      invariant Walk(path, buf0, 0, size) == Walk(path[f..], buf, len, size)
    {
      WalkStep(path, f, buf, len, size);
      if Starts(path[f..], "/../") {
        var slash := LastSlash(buf);
        if slash <= 0 {
          buf := buf[..1];
          len := 1;
        } else {
          buf := buf[..slash];
          len := slash;
        }
        f := f + 3;
      } else if Starts(path[f..], "/./") {
        f := f + 2;
      } else if Starts(path[f..], "//") {
        f := f + 1;
      } else if len == size - 1 {
        return None;
      } else {
        buf := buf[..len] + [path[f]];
        len := len + 1;
        f := f + 1;
      }
    }
    WalkEnd(buf, len, size);
    assert path[f..] == "";
    r := Some(Trimmed(buf[..len]));
  }

  /** One turn of the loop. */
  lemma WalkStep(path: string, n: nat, buf: string, len: nat, size: nat)
    requires |buf| > 0 && buf[0] == '/' && len <= |buf| && n < |path| && path[|path| - 1] == '/'
    requires path[n] == '/' || len > 0
    ensures Starts(path[n..], "/../") ==>
              var slash := if LastSlash(buf) <= 0 then 1 else LastSlash(buf);
              n + 3 < |path| && path[n + 3] == '/'
              && Walk(path[n..], buf, len, size) == Walk(path[n + 3..], buf[..slash], slash, size)
    ensures !Starts(path[n..], "/../") && Starts(path[n..], "/./") ==>
              n + 2 < |path| && path[n + 2] == '/'
              && Walk(path[n..], buf, len, size) == Walk(path[n + 2..], buf, len, size)
    ensures !Starts(path[n..], "/../") && !Starts(path[n..], "/./") && Starts(path[n..], "//") ==>
              n + 1 < |path| && path[n + 1] == '/'
              && Walk(path[n..], buf, len, size) == Walk(path[n + 1..], buf, len, size)
    ensures !Starts(path[n..], "/../") && !Starts(path[n..], "/./") && !Starts(path[n..], "//") ==>
              Walk(path[n..], buf, len, size) ==
              if len == size - 1 then None else Walk(path[n + 1..], buf[..len] + [path[n]], len + 1, size)
  {
    hide LastSlash;
    var f := path[n..];
    assert f[0] == path[n] && f[1..] == path[n + 1..];
    if Starts(f, "/../") {
      assert f[3] == '/' && f[3..] == path[n + 3..];
    } else if Starts(f, "/./") {
      assert f[2] == '/' && f[2..] == path[n + 2..];
    } else if Starts(f, "//") {
      assert f[1] == '/';
    }
  }

  lemma WalkEnd(buf: string, len: nat, size: nat)
    requires |buf| > 0 && buf[0] == '/' && 0 < len <= |buf|
    ensures Walk("", buf, len, size) == Some(buf[..len])
  {
  }

  /** The loop always ends with a slash, so that the end of resolve_path takes that one away and
      never finds the dot that it looks for. */
  lemma {:induction false} EndsInSlash(f: string, buf: string, len: nat, size: nat)
    requires |buf| > 0 && buf[0] == '/' && len <= |buf| && f != "" && f[|f| - 1] == '/'
    requires f[0] == '/' || len > 0
    ensures var w := Walk(f, buf, len, size);
      w.Some? ==> EndsIn(w.value, '/') && Trimmed(w.value) == if |w.value| > 1 then w.value[..|w.value| - 1] else "/"
    decreases |f|
  {
    hide LastSlash, Walk;
    WalkStep(f, 0, buf, len, size);
    assert f[0..] == f;
    if Starts(f, "/../") {
      var slash := if LastSlash(buf) <= 0 then 1 else LastSlash(buf);
      EndsInSlash(f[3..], buf[..slash], slash, size);
    } else if Starts(f, "/./") {
      EndsInSlash(f[2..], buf, len, size);
    } else if Starts(f, "//") {
      EndsInSlash(f[1..], buf, len, size);
    } else if len != size - 1 {
      if |f| > 1 {
        EndsInSlash(f[1..], buf[..len] + [f[0]], len + 1, size);
      } else {
        WalkEnd(buf[..len] + [f[0]], len + 1, size);
      }
    }
  }

  /** An absolute path without empty, "." or ".." components or a slash at the end. */
  ghost predicate Normal(f: string) {
    && |f| >= 2 && f[0] == '/' && f[|f| - 1] != '/'
    && forall k :: 0 <= k < |f| ==> PlainAt(f + "/", k)
  }

  ghost predicate PlainAt(g: string, k: nat)
    requires k <= |g|
  {
    !Starts(g[k..], "/../") && !Starts(g[k..], "/./") && !Starts(g[k..], "//")
  }

  lemma {:induction false} CopiesPlain(g: string, k: nat, buf: string, size: nat)
    requires |g| > 0 && g[0] == '/' && g[|g| - 1] == '/' && forall i :: 0 <= i < |g| - 1 ==> PlainAt(g, i)
    requires k <= |g| && |buf| > 0 && buf[0] == '/' && k <= |buf| && buf[..k] == g[..k] && |g| < size
    ensures Walk(g[k..], buf, k, size) == Some(g)
    decreases |g| - k
  {
    if k < |g| {
      assert g[k..][0] == g[k] && g[k..][1..] == g[k + 1..];
      var next := buf[..k] + [g[k]];
      assert next == g[..k + 1] && next[..k + 1] == next;
      if k == |g| - 1 {
        assert g[k..] == "/";
      } else {
        assert PlainAt(g, k);
      }
      CopiesPlain(g, k + 1, next, size);
    } else {
      assert g[k..] == "" && g[..k] == g;
    }
  }

  lemma SlashSkipped(g: string, size: nat)
    requires |g| > 0 && g[0] == '/' && g[|g| - 1] == '/'
    ensures Walk("/" + g, "/", 0, size) == Walk(g, "/", 0, size)
  {
    var f := "/" + g;
    assert f[1..] == g && f[1] == '/' && Starts(f, "//");
  }

  lemma SlashesSkipped(g: string, size: nat)
    requires |g| > 0 && g[0] == '/' && g[|g| - 1] == '/'
    ensures Walk("/" + ("/" + g), "/", 0, size) == Walk(g, "/", 0, size)
  {
    hide Walk;
    SlashSkipped(g, size);
    SlashSkipped("/" + g, size);
  }

  /** Resolving a normal path changes nothing. */
  lemma NormalStays(f: string)
    requires Normal(f) && |f| <= PATH_MAX
    ensures Resolve("/", 2 * PATH_MAX, f) == Some(f)
  {
    hide Walk;
    var g, size := f + "/", 2 * PATH_MAX;
    assert "/" + "/" + f + "/" == "/" + ("/" + g);
    SlashesSkipped(g, size);
    CopiesPlain(g, 0, "/", size);
    assert g[0..] == g && g[..|g| - 1] == f;
  }

  // ---------- components ----------

  /** Where the first component of `f` ends. */
  function Head(f: string): (n: nat)
    requires |f| >= 2 && f[0] == '/' && EndsIn(f, '/')
    ensures 1 <= n < |f| && f[n] == '/'
    ensures forall i :: 1 <= i < n ==> f[i] != '/'
  {
    SlashFrom(f, 1)
  }

  function SlashFrom(f: string, from: nat): (n: nat)
    requires from < |f| && EndsIn(f, '/')
    ensures from <= n < |f| && f[n] == '/'
    ensures forall i :: from <= i < n ==> f[i] != '/'
    decreases |f| - from
  {
    if f[from] == '/' then from else SlashFrom(f, from + 1)
  }

  /** What stands between the slashes of a text that begins and ends with one. */
  function Components(f: string): (r: seq<string>)
    requires |f| > 0 && f[0] == '/' && EndsIn(f, '/')
    decreases |f|
  {
    if |f| == 1 then [] else [f[1..Head(f)]] + Components(f[Head(f)..])
  }

  predicate Plain(c: string) {
    c != "" && c != "." && c != ".." && '/' !in c
  }

  /** The components kept so far, and whether a ".." has ever removed the last one or found
      none to remove. */
  datatype Climb = Climb(kept: seq<string>, atRoot: bool)

  function Next(st: Climb, c: string): Climb {
    if c == "" || c == "." then st
    else if c == ".." then
      if |st.kept| <= 1 then Climb([], true) else st.(kept := st.kept[..|st.kept| - 1])
    else st.(kept := st.kept + [c])
  }

  function Climbed(st: Climb, cs: seq<string>): Climb
    decreases |cs|
  {
    if cs == [] then st else Climbed(Next(st, cs[0]), cs[1..])
  }

  /** A slash before each component. */
  function Rows(kept: seq<string>): string {
    if kept == [] then "" else Rows(kept[..|kept| - 1]) + "/" + kept[|kept| - 1]
  }

  /** The buffer while the components are taken one by one. */
  function Drawn(st: Climb): string {
    (if st.atRoot then "/" else "") + Rows(st.kept)
  }

  ghost predicate AllPlain(kept: seq<string>) {
    forall i :: 0 <= i < |kept| ==> Plain(kept[i])
  }

  lemma LastSlashAt(x: string, c: string)
    requires '/' !in c
    ensures LastSlash(x + "/" + c) == |x|
  {
    hide LastSlash;
    NoSlash(c);
    LastSlashUnique(x + "/" + c, |x|);
  }

  lemma NoSlash(c: string)
    requires '/' !in c
    ensures forall i :: 0 <= i < |c| ==> c[i] != '/'
  {
    assert forall i :: 0 <= i < |c| ==> c[i] in c;
  }

  lemma LastSlashUnique(s: string, r: nat)
    requires r < |s| && s[r] == '/' && forall i :: r < i < |s| ==> s[i] != '/'
    ensures LastSlash(s) == r
  {
    hide LastSlash;
    assert LastSlash(s) >= r;
  }

  /** Characters other than a slash are copied. */
  lemma {:induction false} CopyChars(f: string, k: nat, n: nat, b: string, size: nat)
    requires 1 <= k <= n < |f| && f[0] == '/' && EndsIn(f, '/') && f[n] == '/'
    requires forall i :: k <= i < n ==> f[i] != '/'
    requires |b| > 0 && b[0] == '/' && |b| + |f| - k <= size - 1
    ensures Walk(f[k..], b, |b|, size) == Walk(f[n..], b + f[k..n], |b| + (n - k), size)
    decreases n - k
  {
    if k == n {
      assert b + f[k..n] == b;
    } else {
      var g := f[k..];
      assert g[0] == f[k] && g[1..] == f[k + 1..];
      assert b[..|b|] == b;
      CopyChars(f, k + 1, n, b + [f[k]], size);
      assert b + [f[k]] + f[k + 1..n] == b + f[k..n];
    }
  }

  lemma HeadPatterns(f: string)
    requires |f| >= 2 && f[0] == '/' && EndsIn(f, '/')
    ensures var c := f[1..Head(f)];
      && (Starts(f, "/../") <==> c == "..") && (Starts(f, "/./") <==> c == ".") && (Starts(f, "//") <==> c == "")
  {
    var n := Head(f);
    var c := f[1..n];
    assert |f| >= 4 ==> f[..4] == [f[0], f[1], f[2], f[3]];
    assert |f| >= 3 ==> f[..3] == [f[0], f[1], f[2]];
    assert f[..2] == [f[0], f[1]];
    if |c| == 2 {
      assert c == [f[1], f[2]];
    }
    if |c| == 1 {
      assert c == [f[1]];
    }
  }

  /** The first component other than "" and "." is "..". */
  predicate BeginsUp(cs: seq<string>)
    decreases |cs|
  {
    cs != [] && (cs[0] == ".." || ((cs[0] == "" || cs[0] == ".") && BeginsUp(cs[1..])))
  }

  /** The buffer's string before a component: what was drawn, or, before anything was, the
      base, to which a ".." would then apply. */
  ghost predicate Ready(buf: string, len: nat, st: Climb, f: string)
    requires |f| > 0 && f[0] == '/' && EndsIn(f, '/')
  {
    && |buf| > 0 && buf[0] == '/' && len == |Drawn(st)|
    && (len > 0 ==> buf == Drawn(st))
    && (len == 0 ==> LastSlash(buf) == 0 || !BeginsUp(Components(f)))
  }

  lemma CopyOne(f: string, buf: string, len: nat, st: Climb, size: nat)
    requires |f| >= 2 && f[0] == '/' && EndsIn(f, '/') && Plain(f[1..Head(f)]) && AllPlain(st.kept)
    requires Ready(buf, len, st, f) && len + |f| <= size - 1
    ensures var c := f[1..Head(f)]; var t := Next(st, c);
      AllPlain(t.kept) && Ready(Drawn(t), |Drawn(t)|, t, f[Head(f)..]) && |Drawn(t)| + |f[Head(f)..]| <= size - 1
      && Walk(f, buf, len, size) == Walk(f[Head(f)..], Drawn(t), |Drawn(t)|, size)
  {
    hide LastSlash, Head, Components;
    var n := Head(f);
    var c := f[1..n];
    HeadPatterns(f);
    var b := buf[..len] + ['/'];
    assert buf[..len] == Drawn(st);
    CopyChars(f, 1, n, b, size);
    var t := Next(st, c);
    assert t.kept[..|t.kept| - 1] == st.kept;
    assert Drawn(t) == Drawn(st) + "/" + c;
    assert b + c == Drawn(t);
    FirstDrawn(t);
  }

  lemma {:induction false} FirstRow(kept: seq<string>)
    ensures kept != [] ==> Rows(kept) != "" && Rows(kept)[0] == '/'
  {
    if |kept| > 1 {
      FirstRow(kept[..|kept| - 1]);
    }
  }

  lemma FirstDrawn(st: Climb)
    ensures Drawn(st) != "" ==> Drawn(st)[0] == '/'
    ensures Drawn(st) == "" <==> !st.atRoot && st.kept == []
  {
    FirstRow(st.kept);
  }

  lemma ClimbOne(f: string, buf: string, len: nat, st: Climb, size: nat)
    requires |f| >= 2 && f[0] == '/' && EndsIn(f, '/') && f[1..Head(f)] == ".." && AllPlain(st.kept)
    requires Ready(buf, len, st, f) && len + |f| <= size - 1
    ensures var t := Next(st, "..");
      AllPlain(t.kept) && Ready(Drawn(t), |Drawn(t)|, t, f[Head(f)..]) && |Drawn(t)| + |f[Head(f)..]| <= size - 1
      && Walk(f, buf, len, size) == Walk(f[Head(f)..], Drawn(t), |Drawn(t)|, size)
  {
    hide LastSlash, Head, Components;
    ComponentsStep(f);
    HeadPatterns(f);
    var t := Next(st, "..");
    var slash := if LastSlash(buf) <= 0 then 1 else LastSlash(buf);
    assert Head(f) == 3;
    PopDrawn(buf, len, st);
    assert buf[..slash] == Drawn(t);
    FirstDrawn(t);
  }

  lemma PopDrawn(buf: string, len: nat, st: Climb)
    requires |buf| > 0 && buf[0] == '/' && len == |Drawn(st)| && AllPlain(st.kept)
    requires (len > 0 ==> buf == Drawn(st)) && (len == 0 ==> LastSlash(buf) == 0)
    ensures var slash := if LastSlash(buf) <= 0 then 1 else LastSlash(buf);
      slash <= |buf| && buf[..slash] == Drawn(Next(st, "..")) && slash <= len + 1
  {
    hide LastSlash, Plain;
    var k := |st.kept|;
    if k == 0 {
      assert st.atRoot ==> buf == "/";
      assert buf[..1] == "/";
    } else {
      DrawnLast(st);
      var t := Climb(st.kept[..k - 1], st.atRoot);
      FirstDrawn(t);
      if k == 1 {
        assert Drawn(t) == if st.atRoot then "/" else "";
        assert buf[..1] == "/";
      } else {
        assert t == Next(st, "..") && t.kept != [];
      }
    }
  }

  lemma DrawnLast(st: Climb)
    requires st.kept != [] && AllPlain(st.kept)
    ensures var t := Climb(st.kept[..|st.kept| - 1], st.atRoot);
      LastSlash(Drawn(st)) == |Drawn(t)| < |Drawn(st)| && Drawn(st)[..|Drawn(t)|] == Drawn(t)
  {
    hide LastSlash;
    var k := |st.kept|;
    var t, c := Climb(st.kept[..k - 1], st.atRoot), st.kept[k - 1];
    assert Plain(c);
    assert Drawn(st) == Drawn(t) + "/" + c;
    LastSlashAt(Drawn(t), c);
  }

  /** The loop takes the path component by component. */
  lemma {:induction false} WalkComponents(f: string, buf: string, len: nat, st: Climb, size: nat)
    requires |f| > 0 && f[0] == '/' && EndsIn(f, '/') && AllPlain(st.kept)
    requires Ready(buf, len, st, f) && len + |f| <= size - 1
    ensures var t := Climbed(st, Components(f));
      AllPlain(t.kept) && Walk(f, buf, len, size) == Some(Drawn(t) + "/")
    decreases |f|
  {
    hide Drawn, LastSlash, Head, Plain, AllPlain;
    if |f| == 1 {
      LastSlashCopied(f, buf, len, st, size);
    } else {
      var n := Head(f);
      var c, g := f[1..n], f[n..];
      assert Components(f)[1..] == Components(g);
      HeadPatterns(f);
      if c == ".." {
        ClimbOne(f, buf, len, st, size);
        var t := Next(st, c);
        WalkComponents(g, Drawn(t), |Drawn(t)|, t, size);
      } else if c == "." || c == "" {
        StillReady(f, buf, len, st);
        WalkComponents(g, buf, len, st, size);
      } else {
        HeadIsPlain(f);
        CopyOne(f, buf, len, st, size);
        var t := Next(st, c);
        WalkComponents(g, Drawn(t), |Drawn(t)|, t, size);
      }
    }
  }

  lemma HeadIsPlain(f: string)
    requires |f| >= 2 && f[0] == '/' && EndsIn(f, '/')
    ensures var c := f[1..Head(f)]; c != "" && c != "." && c != ".." ==> Plain(c)
  {
  }

  lemma ComponentsStep(f: string)
    requires |f| >= 2 && f[0] == '/' && EndsIn(f, '/')
    ensures Components(f) == [f[1..Head(f)]] + Components(f[Head(f)..])
  {
  }

  lemma StillReady(f: string, buf: string, len: nat, st: Climb)
    requires |f| >= 2 && f[0] == '/' && EndsIn(f, '/') && Ready(buf, len, st, f)
    requires f[1..Head(f)] == "." || f[1..Head(f)] == ""
    ensures Ready(buf, len, st, f[Head(f)..])
  {
    hide LastSlash, Components;
    ComponentsStep(f);
    assert Components(f)[1..] == Components(f[Head(f)..]);
  }

  lemma LastSlashCopied(f: string, buf: string, len: nat, st: Climb, size: nat)
    requires f == "/" && Ready(buf, len, st, f) && len + 1 <= size - 1
    ensures Walk(f, buf, len, size) == Some(Drawn(st) + "/")
  {
    hide LastSlash;
    assert buf[..len] == Drawn(st);
    var b := buf[..len] + ['/'];
    assert f[1..] == "" && b[..len + 1] == b && b == Drawn(st) + "/";
  }

  /** The components of a base and a path below it. */
  function ClimbOf(buf: string, file: string): Climb
    requires |buf| > 0 && buf[0] == '/'
  {
    Climbed(Climb([], false), Components(buf + "/" + file + "/"))
  }

  /** A ".." never applies to the base before anything of it was copied: the base's only slash
      is the first, or it begins with a name. */
  predicate Settled(buf: string, file: string)
    requires |buf| > 0 && buf[0] == '/'
  {
    LastSlash(buf) == 0 || !BeginsUp(Components(buf + "/" + file + "/"))
  }

  /** What resolve_path gives: the components that are left, with a doubled slash in front of
      them if a ".." has reached the root on the way. */
  lemma ResolveIs(buf: string, file: string)
    requires |buf| > 0 && buf[0] == '/' && Settled(buf, file)
    ensures var st := ClimbOf(buf, file); var path := buf + "/" + file + "/";
      && AllPlain(st.kept)
      && Resolve(buf, 2 * PATH_MAX, file) ==
         if |path| >= 2 * PATH_MAX then None
         else if st.kept == [] then Some("/")
         else Some((if st.atRoot then "/" else "") + Rows(st.kept))
  {
    hide Walk, Components, LastSlash, BeginsUp;
    var path, st := buf + "/" + file + "/", ClimbOf(buf, file);
    assert Ready(buf, 0, Climb([], false), path);
    WalkComponents(path, buf, 0, Climb([], false), |path| + 1);
    if |path| < 2 * PATH_MAX {
      WalkComponents(path, buf, 0, Climb([], false), 2 * PATH_MAX);
      FirstDrawn(st);
      var b := Drawn(st) + "/";
      assert b[..|b| - 1] == Drawn(st);
      if st.kept == [] {
        assert Drawn(st) == if st.atRoot then "/" else "";
      }
    }
  }

  /** The root and every normalised path are such bases. */
  lemma NormalIsSettled(buf: string, file: string)
    requires buf == "/" || Normal(buf)
    ensures Settled(buf, file)
  {
    hide LastSlash, BeginsUp, Components;
    if buf == "/" {
      OnlyRoot();
    } else {
      var g, path := buf + "/", buf + "/" + file + "/";
      assert PlainAt(g, 0) && g[0..] == g && path[..|g|] == g;
      assert Starts(path, "/../") ==> Starts(g, "/../");
      assert Starts(path, "/./") ==> Starts(g, "/./");
      assert Starts(path, "//") ==> Starts(g, "//");
      HeadPatterns(path);
      ComponentsStep(path);
      NotUp(path[1..Head(path)], Components(path[Head(path)..]));
    }
  }

  lemma OnlyRoot()
    ensures LastSlash("/") == 0
  {
  }

  lemma NotUp(c: string, cs: seq<string>)
    requires c != ".." && c != "." && c != ""
    ensures !BeginsUp([c] + cs)
  {
  }

  // ---------- normal results ----------

  /** At position `k` starts "//", "/./" or "/../". */
  ghost predicate Untidy(g: string, k: nat) {
    || (k + 1 < |g| && g[k] == '/' && g[k + 1] == '/')
    || (k + 2 < |g| && g[k] == '/' && g[k + 1] == '.' && g[k + 2] == '/')
    || (k + 3 < |g| && g[k] == '/' && g[k + 1] == '.' && g[k + 2] == '.' && g[k + 3] == '/')
  }

  lemma ByIndex(g: string, k: nat)
    requires k <= |g|
    ensures PlainAt(g, k) <==> !Untidy(g, k)
  {
    var s := g[k..];
    assert |s| >= 2 ==> s[..2] == [s[0], s[1]];
    assert |s| >= 3 ==> s[..3] == [s[0], s[1], s[2]];
    assert |s| >= 4 ==> s[..4] == [s[0], s[1], s[2], s[3]];
  }

  lemma OneMore(g: string, c: string, k: nat)
    requires |g| > 0 && g[|g| - 1] == '/' && Plain(c) && k < |g + c + "/"|
    requires k < |g| ==> !Untidy(g, k)
    ensures !Untidy(g + c + "/", k)
  {
    var t := g + c + "/";
    assert forall i :: 0 <= i < |c| ==> t[|g| + i] == c[i] && c[i] in c;
    assert forall i :: 0 <= i < |g| ==> t[i] == g[i];
    if k == |g| - 1 {
      assert |c| == 1 ==> c == [c[0]];
      assert |c| == 2 ==> c == [c[0], c[1]];
    }
  }

  lemma {:induction false} RowsAreTidy(kept: seq<string>, k: nat)
    requires AllPlain(kept) && k < |Rows(kept) + "/"|
    ensures !Untidy(Rows(kept) + "/", k)
  {
    hide Untidy, Plain;
    if kept == [] {
      LoneSlash(k);
    } else {
      var rest, c := kept[..|kept| - 1], kept[|kept| - 1];
      var g := Rows(rest) + "/";
      assert Rows(kept) + "/" == g + c + "/";
      if k < |g| {
        RowsAreTidy(rest, k);
      }
      OneMore(g, c, k);
    }
  }

  lemma LoneSlash(k: nat)
    ensures !Untidy("" + "/", k)
  {
  }

  lemma RowsAreNormal(kept: seq<string>)
    requires AllPlain(kept) && kept != []
    ensures Normal(Rows(kept))
  {
    hide PlainAt, Untidy;
    var r, c := Rows(kept), kept[|kept| - 1];
    FirstRow(kept);
    assert Plain(c);
    assert r[|r| - 1] == c[|c| - 1] && c[|c| - 1] in c;
    forall k | 0 <= k < |r| ensures PlainAt(r + "/", k) {
      RowsAreTidy(kept, k);
      ByIndex(r + "/", k);
    }
  }

  lemma DoubledIsNot(x: string)
    requires x != "" && x[0] == '/'
    ensures !Normal("/" + x) && "/" + x != "/"
  {
    var g := "/" + x + "/";
    assert Untidy(g, 0);
    ByIndex(g, 0);
  }

  /** The result is a normalised path or the root exactly when no ".." has reached the root on
      the way, or nothing is left. */
  lemma NormalIff(buf: string, file: string)
    requires |buf| > 0 && buf[0] == '/' && Settled(buf, file)
    ensures var st := ClimbOf(buf, file); var r := Resolve(buf, 2 * PATH_MAX, file);
      && (r.None? <==> |buf| + |file| + 2 >= 2 * PATH_MAX)
      && (r.Some? ==> (r.value == "/" || Normal(r.value) <==> !st.atRoot || st.kept == []))
  {
    hide PlainAt, Resolve, ClimbOf, Settled;
    var st := ClimbOf(buf, file);
    ResolveIs(buf, file);
    if st.kept != [] {
      LeftNormal(st);
    }
  }

  /** Without a ".." component, whatever else the base and the path contain, the result is
      normal, or the root. */
  lemma ResolvesToNormal(buf: string, file: string)
    requires |buf| > 0 && buf[0] == '/' && ".." !in Components(buf + "/" + file + "/")
    ensures var r := Resolve(buf, 2 * PATH_MAX, file); r.Some? ==> r.value == "/" || Normal(r.value)
  {
    hide Normal, Resolve, Components, LastSlash;
    NeverUp(Climb([], false), Components(buf + "/" + file + "/"));
    NormalIff(buf, file);
  }

  lemma {:induction false} NeverUp(st: Climb, cs: seq<string>)
    requires ".." !in cs
    ensures Climbed(st, cs).atRoot == st.atRoot && !BeginsUp(cs)
    decreases |cs|
  {
    if cs != [] {
      assert cs[0] in cs;
      NeverUp(Next(st, cs[0]), cs[1..]);
    }
  }

  lemma LeftNormal(st: Climb)
    requires AllPlain(st.kept) && st.kept != []
    ensures var r := (if st.atRoot then "/" else "") + Rows(st.kept);
      r == "/" || Normal(r) <==> !st.atRoot
  {
    hide Normal;
    RowsAreNormal(st.kept);
    FirstRow(st.kept);
    DoubledIsNot(Rows(st.kept));
    OnlySlash(st.kept);
    assert "" + Rows(st.kept) == Rows(st.kept);
  }

  lemma OnlySlash(kept: seq<string>)
    requires AllPlain(kept) && kept != []
    ensures |Rows(kept)| >= 2
  {
    assert Plain(kept[|kept| - 1]);
  }

  lemma ComponentsCons(c: string, rest: string)
    requires '/' !in c && |rest| > 0 && rest[0] == '/' && EndsIn(rest, '/')
    ensures Components("/" + c + rest) == [c] + Components(rest)
  {
    hide SlashFrom;
    var f := "/" + c + rest;
    assert forall i :: 1 <= i <= |c| ==> f[i] == c[i - 1] && c[i - 1] in c;
    assert f[|c| + 1] == '/';
    assert Head(f) == |c| + 1;
    assert f[1..|c| + 1] == c && f[|c| + 1..] == rest;
  }

  /** For every two names: climbing back to the root and ending there gives the root, but going
      on from there leaves a doubled slash. */
  lemma ClimbingToTheRoot(c: string, d: string)
    requires Plain(c) && Plain(d) && |c| + |d| + 8 < 2 * PATH_MAX
    ensures Resolve("/", 2 * PATH_MAX, "/" + c + "/..") == Some("/")
    ensures Resolve("/", 2 * PATH_MAX, "/" + c + "/../" + d) == Some("//" + d)
  {
    hide Resolve, Components, Plain;
    var e, up := Climb([], false), "/" + ".." + "/";
    Names(c);
    Names(d);
    assert Components("/") == [] by { Lone(); }
    assert "/" + "/" + ("/" + c + "/..") + "/" == "/" + "" + ("/" + "" + ("/" + c + up));
    ComponentsCons("..", "/");
    ComponentsCons(c, up);
    ComponentsCons("", "/" + c + up);
    ComponentsCons("", "/" + "" + ("/" + c + up));
    assert Components("/" + "/" + ("/" + c + "/..") + "/") == ["", "", c, ".."];
    ClimbedFour(c);
    NormalIsSettled("/", "/" + c + "/..");
    ResolveIs("/", "/" + c + "/..");
    var on := "/" + d + "/";
    assert "/" + "/" + ("/" + c + "/../" + d) + "/" == "/" + "" + ("/" + "" + ("/" + c + ("/" + ".." + on)));
    ComponentsCons(d, "/");
    ComponentsCons("..", on);
    ComponentsCons(c, "/" + ".." + on);
    ComponentsCons("", "/" + c + ("/" + ".." + on));
    ComponentsCons("", "/" + "" + ("/" + c + ("/" + ".." + on)));
    assert Components("/" + "/" + ("/" + c + "/../" + d) + "/") == ["", "", c, "..", d];
    ClimbedFive(c, d);
    NormalIsSettled("/", "/" + c + "/../" + d);
    ResolveIs("/", "/" + c + "/../" + d);
    OneRow(d);
  }

  lemma Names(c: string)
    ensures Plain(c) ==> '/' !in c
  {
  }

  lemma Lone()
    ensures Components("/") == []
  {
  }

  lemma OneRow(d: string)
    ensures "/" + Rows([d]) == "//" + d
  {
    assert [d][..0] == [];
  }

  lemma ClimbedFour(c: string)
    requires Plain(c)
    ensures Climbed(Climb([], false), ["", "", c, ".."]) == Climb([], true)
  {
    var e, cs := Climb([], false), ["", "", c, ".."];
    assert cs[1..] == ["", c, ".."] && cs[1..][1..] == [c, ".."] && cs[1..][1..][1..] == [".."];
    assert Climbed(e, cs) == Climbed(e, cs[1..][1..]);
    assert Climbed(e, [c, ".."]) == Climbed(Climb([c], false), [".."]);
    assert [".."][1..] == [];
  }

  lemma ClimbedFive(c: string, d: string)
    requires Plain(c) && Plain(d)
    ensures Climbed(Climb([], false), ["", "", c, "..", d]) == Climb([d], true)
  {
    var e, cs := Climb([], false), ["", "", c, "..", d];
    assert cs[1..] == ["", c, "..", d] && cs[1..][1..] == [c, "..", d] && [c, "..", d][1..] == ["..", d];
    assert Climbed(e, cs) == Climbed(e, cs[1..][1..]);
    assert Climbed(e, [c, "..", d]) == Climbed(Climb([c], false), ["..", d]);
    assert ["..", d][1..] == [d] && [d][1..] == [];
    assert Climbed(Climb([c], false), ["..", d]) == Climbed(Climb([], true), [d]);
  }
}
