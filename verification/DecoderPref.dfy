/** The decoder preferences of src/audio/decoder.cpp: how a user's list of names, with an
    asterisk for "all others", becomes a list of decoder indices. */
module DecoderPref {
  import opened Numbers

  function Lower(c: char): char {
    if 'A' <= c <= 'Z' then (c as int + 32) as char else c
  }

  /** strcasecmp says equal. */
  predicate SameName(a: string, b: string) {
    |a| == |b| && forall i :: 0 <= i < |a| ==> Lower(a[i]) == Lower(b[i])
  }

  /** lookup_decoder_by_name: the first decoder of that name, or the number of decoders. */
  function Lookup(names: seq<string>, name: string): (d: nat)
    ensures d <= |names|
    ensures d < |names| ==> SameName(names[d], name)
    ensures forall i :: 0 <= i < d ==> !SameName(names[i], name)
  {
    if names == [] then 0
    else
      var d := Lookup(names[..|names| - 1], name);
      if d < |names| - 1 || SameName(names[d], name) then d else |names|
  }

  /** The known decoders among the tokens, each at its first mention. */
  function Known(names: seq<string>, tokens: seq<string>): (r: seq<nat>)
    ensures forall i :: 0 <= i < |r| ==> r[i] < |names|
    ensures forall i, j :: 0 <= i < j < |r| ==> r[i] != r[j]
  {
    if tokens == [] then []
    else
      var k := Known(names, tokens[..|tokens| - 1]);
      var t := tokens[|tokens| - 1];
      var d := Lookup(names, t);
      if t == "*" || d == |names| || d in k then k else k + [d]
  }

  /** How many decoders are listed before the first asterisk, or -1 without one. */
  function AsteriskAt(names: seq<string>, tokens: seq<string>): (r: int)
    ensures -1 <= r <= |Known(names, tokens)|
    ensures r == -1 <==> "*" !in tokens
  {
    if tokens == [] then -1
    else
      var front := tokens[..|tokens| - 1];
      var r := AsteriskAt(names, front);
      assert tokens == front + [tokens[|tokens| - 1]];
      if r == -1 && tokens[|tokens| - 1] == "*" then |Known(names, front)| else r
  }

  /** The decoders below `n` that are not in the list, in the order of their indices. */
  function Unlisted(list: seq<nat>, n: nat): (r: seq<nat>)
    ensures forall d: nat :: d in r <==> d < n && d !in list
    ensures forall i, j :: 0 <= i < j < |r| ==> r[i] < r[j]
  {
    if n == 0 then []
    else
      var r := Unlisted(list, n - 1);
      assert forall i :: 0 <= i < |r| ==> r[i] in r;
      if n - 1 in list then r else r + [n - 1]
  }

  /** `k` times the first element moves to the end. */
  function Rotated(s: seq<nat>, k: nat): (r: seq<nat>)
    ensures |r| == |s|
  {
    if k == 0 || s == [] then s
    else
      var r := Rotated(s, k - 1);
      r[1..] + [r[0]]
  }

  /** The list that load_decoders builds. */
  function Preferred(names: seq<string>, tokens: seq<string>): seq<nat> {
    var k, a := Known(names, tokens), AsteriskAt(names, tokens);
    if a == -1 then k
    else
      var others := Unlisted(k, |names|);
      k[..a] + others + Rotated(k[a..], |others|)
  }

  /** Names are compared without regard to the case of letters, and of nothing else. */
  lemma CaseOnly(a: string, b: string)
    ensures SameName(a, b) <==>
            |a| == |b| && forall i :: 0 <= i < |a| ==>
              var c, d := a[i] as int, b[i] as int;
              c == d || (65 <= c <= 90 && d == c + 32) || (65 <= d <= 90 && c == d + 32)
  {
  }

  /** Whether token `j` lists a decoder: it names one that no token before names. */
  predicate FirstMention(names: seq<string>, tokens: seq<string>, j: nat)
    requires j < |tokens|
  {
    && tokens[j] != "*" && Lookup(names, tokens[j]) < |names|
    && forall i :: 0 <= i < j && tokens[i] != "*" ==> Lookup(names, tokens[i]) != Lookup(names, tokens[j])
  }

  /** The decoders listed are those of the first mentions, in the order of the tokens. */
  lemma {:induction false} KnownMentions(names: seq<string>, tokens: seq<string>) returns (at: seq<nat>)
    ensures |at| == |Known(names, tokens)|
    ensures forall i :: 0 <= i < |at| ==> at[i] < |tokens| && Known(names, tokens)[i] == Lookup(names, tokens[at[i]])
    ensures forall i, j :: 0 <= i < j < |at| ==> at[i] < at[j]
    ensures forall j :: 0 <= j < |tokens| ==> (j in at <==> FirstMention(names, tokens, j))
  {
    hide Lookup, FirstMention;
    if tokens == [] {
      at := [];
    } else {
      var n, front := |tokens| - 1, tokens[..|tokens| - 1];
      var d := Lookup(names, tokens[n]);
      var before := KnownMentions(names, front);
      MentionedBefore(names, tokens);
      Mentioned(names, front, before, d);
      LastMention(names, tokens);
      at := before + if tokens[n] == "*" || d == |names| || d in Known(names, front) then [] else [n];
    }
  }

  lemma MentionedBefore(names: seq<string>, tokens: seq<string>)
    requires tokens != []
    ensures forall j :: 0 <= j < |tokens| - 1 ==>
              (FirstMention(names, tokens, j) <==> FirstMention(names, tokens[..|tokens| - 1], j))
  {
    hide Lookup;
    var front := tokens[..|tokens| - 1];
    assert forall i :: 0 <= i < |front| ==> front[i] == tokens[i];
  }

  lemma LastMention(names: seq<string>, tokens: seq<string>)
    requires tokens != []
    ensures var n := |tokens| - 1; var d, front := Lookup(names, tokens[n]), tokens[..n];
      FirstMention(names, tokens, n) <==>
      tokens[n] != "*" && d < |names| && !exists j :: 0 <= j < n && front[j] != "*" && Lookup(names, front[j]) == d
  {
    hide Lookup;
    var n := |tokens| - 1;
    assert forall i :: 0 <= i < n ==> tokens[..n][i] == tokens[i];
  }

  lemma Mentioned(names: seq<string>, tokens: seq<string>, at: seq<nat>, d: nat)
    requires |at| == |Known(names, tokens)| && d <= |names|
    requires forall i :: 0 <= i < |at| ==> at[i] < |tokens| && Known(names, tokens)[i] == Lookup(names, tokens[at[i]])
    requires forall j :: 0 <= j < |tokens| ==> (j in at <==> FirstMention(names, tokens, j))
    ensures d < |names| ==>
              (d in Known(names, tokens) <==>
                 exists j :: 0 <= j < |tokens| && tokens[j] != "*" && Lookup(names, tokens[j]) == d)
  {
    hide Lookup, Known;
    if d < |names| && exists j :: 0 <= j < |tokens| && tokens[j] != "*" && Lookup(names, tokens[j]) == d {
      var j :| 0 <= j < |tokens| && tokens[j] != "*" && Lookup(names, tokens[j]) == d;
      var f := Earliest(names, tokens, j);
      var i :| 0 <= i < |at| && at[i] == f;
    }
    if d in Known(names, tokens) {
      var i :| 0 <= i < |at| && Known(names, tokens)[i] == d;
      assert at[i] in at;
    }
  }

  lemma {:induction false} Earliest(names: seq<string>, tokens: seq<string>, j: nat) returns (f: nat)
    requires j < |tokens| && tokens[j] != "*" && Lookup(names, tokens[j]) < |names|
    ensures f <= j && FirstMention(names, tokens, f) && Lookup(names, tokens[f]) == Lookup(names, tokens[j])
    decreases j
  {
    hide Lookup;
    if i: nat :| i < j && tokens[i] != "*" && Lookup(names, tokens[i]) == Lookup(names, tokens[j]) {
      f := Earliest(names, tokens, i);
    } else {
      f := j;
    }
  }

  /** The first asterisk counts, and where it stands are all that are named before it; without one
      only the decoders named are listed. */
  lemma {:induction false} FirstAsterisk(names: seq<string>, tokens: seq<string>, k: nat)
    requires k <= |tokens| && "*" !in tokens[..k] && (k < |tokens| ==> tokens[k] == "*")
    ensures k < |tokens| ==> AsteriskAt(names, tokens) == |Known(names, tokens[..k])|
    ensures k == |tokens| ==> Preferred(names, tokens) == Known(names, tokens)
  {
    hide Known, Unlisted, Rotated;
    if k == |tokens| {
      assert tokens[..k] == tokens;
    } else if k < |tokens| - 1 {
      var front := tokens[..|tokens| - 1];
      assert front[..k] == tokens[..k];
      FirstAsterisk(names, front, k);
    } else {
      assert tokens[..k] == tokens[..|tokens| - 1];
    }
  }

  // ---------- counting ----------

  ghost predicate Distinct(s: seq<nat>) {
    forall i, j :: 0 <= i < j < |s| ==> s[i] != s[j]
  }

  ghost predicate Below(s: seq<nat>, n: nat) {
    forall i :: 0 <= i < |s| ==> s[i] < n
  }

  /** Distinct numbers below `n` and the missing ones are `n` together. */
  lemma {:induction false} CountUnlisted(list: seq<nat>, n: nat)
    requires Distinct(list) && Below(list, n)
    ensures |list| + |Unlisted(list, n)| == n
    decreases n
  {
    hide Unlisted, Distinct, Below;
    UnlistedStep(list, n);
    if n == 0 {
      NothingBelowZero(list);
    } else if n - 1 in list {
      var rest := WithoutTop(list, n - 1);
      CountUnlisted(rest, n - 1);
      SameUnlisted(rest, list, n - 1);
    } else {
      BelowTop(list, n - 1);
      CountUnlisted(list, n - 1);
    }
  }

  lemma UnlistedStep(list: seq<nat>, n: nat)
    ensures Unlisted(list, 0) == []
    ensures n > 0 ==> Unlisted(list, n) == Unlisted(list, n - 1) + if n - 1 in list then [] else [n - 1]
  {
  }

  lemma NothingBelowZero(list: seq<nat>)
    requires Below(list, 0)
    ensures list == []
  {
    var first: nat := if |list| > 0 then list[0] else 0;
    assert |list| > 0 ==> first < 0;
  }

  lemma BelowTop(list: seq<nat>, n: nat)
    requires Below(list, n + 1) && n !in list
    ensures Below(list, n)
  {
    assert forall i :: 0 <= i < |list| ==> list[i] in list;
  }

  lemma WithoutTop(list: seq<nat>, n: nat) returns (rest: seq<nat>)
    requires n in list && Distinct(list) && Below(list, n + 1)
    ensures |rest| == |list| - 1 && Distinct(rest) && Below(rest, n)
    ensures forall d: nat :: d < n ==> (d in rest <==> d in list)
  {
    var i :| 0 <= i < |list| && list[i] == n;
    rest := DropAt(list, i);
    forall d: nat | d < n ensures d in rest <==> d in list {
      if d in list {
        var j :| 0 <= j < |list| && list[j] == d;
        assert rest[if j < i then j else j - 1] == d;
      }
    }
  }

  function DropAt(list: seq<nat>, i: nat): (r: seq<nat>)
    requires i < |list|
    ensures |r| == |list| - 1 && forall j :: 0 <= j < |r| ==> r[j] == list[if j < i then j else j + 1]
  {
    list[..i] + list[i + 1..]
  }

  lemma {:induction false} SameUnlisted(a: seq<nat>, b: seq<nat>, n: nat)
    requires forall d: nat :: d < n ==> (d in a <==> d in b)
    ensures Unlisted(a, n) == Unlisted(b, n)
  {
    if n > 0 {
      SameUnlisted(a, b, n - 1);
    }
  }

  // ---------- rotation ----------

  /** `t` is `s` turned left by `k` places. */
  ghost predicate Turned(s: seq<nat>, t: seq<nat>, k: nat) {
    |t| == |s| && forall j :: 0 <= j < |t| ==> t[j] == s[(j + k) % |s|]
  }

  /** Rotation is cyclic. */
  lemma {:induction false} RotatedAt(s: seq<nat>, k: nat, j: nat)
    requires j < |s|
    ensures Rotated(s, k)[j] == s[(j + k) % |s|]
  {
    if k > 0 {
      var n := |s|;
      if j + 1 < n {
        RotatedAt(s, k - 1, j + 1);
      } else {
        RotatedAt(s, k - 1, 0);
        assert (k - 1) % n == (j + k) % n by { WholeTurn(k - 1, n); }
      }
    }
  }

  lemma WholeTurn(x: nat, n: nat)
    requires n > 0
    ensures x % n == (x + n) % n
  {
    var q := x / n;
    assert x + n == n * (q + 1) + x % n;
    DivMod(x + n, n, q + 1, x % n);
  }

  /** The decoders named after the asterisk keep their order exactly when there are none, or
      when the number of the others is a multiple of theirs. */
  lemma OrderKept(s: seq<nat>, k: nat)
    requires Distinct(s)
    ensures Rotated(s, k) == s <==> s == [] || k % |s| == 0
  {
    hide Rotated;
    if s == [] {
      NothingToRotate(k);
    } else {
      RotatedAt(s, k, 0);
      if k % |s| == 0 {
        forall j | 0 <= j < |s| ensures Rotated(s, k)[j] == s[j] {
          RotatedAt(s, k, j);
          DivMod(j + k, |s|, k / |s|, j);
        }
      }
    }
  }

  lemma NothingToRotate(k: nat)
    ensures Rotated([], k) == []
  {
  }

  /** A preference with an asterisk names every decoder exactly once. */
  lemma EveryDecoderOnce(names: seq<string>, tokens: seq<string>)
    requires "*" in tokens
    ensures var r := Preferred(names, tokens);
      |r| == |names| && Distinct(r) && (forall d: nat :: d in r <==> d < |names|)
  {
    hide Known, AsteriskAt, Unlisted, Rotated, Distinct, Turned;
    var k, a := Known(names, tokens), AsteriskAt(names, tokens);
    var others := Unlisted(k, |names|);
    ListsDistinct(names, tokens);
    CountUnlisted(k, |names|);
    RotatedTurns(k[a..], |others|);
    SplicedDistinct(k, a, others, Rotated(k[a..], |others|), |names|);
  }

  /** First come the decoders named before the asterisk, then all others by index, then those
      named after it, turned by the number of the others: in the order named exactly when
      there are none or that number is a multiple of theirs. */
  lemma PreferredLayout(names: seq<string>, tokens: seq<string>)
    requires "*" in tokens
    ensures var r, k, a := Preferred(names, tokens), Known(names, tokens), AsteriskAt(names, tokens);
      var others := Unlisted(k, |names|);
      && 0 <= a && a + |others| <= |r| && r[..a] == k[..a] && r[a..a + |others|] == others
      && Turned(k[a..], r[a + |others|..], |others|)
      && (r[a + |others|..] == k[a..] <==> a == |k| || |others| % (|k| - a) == 0)
  {
    hide Known, AsteriskAt, Unlisted, Rotated, Distinct, Turned;
    var k, a := Known(names, tokens), AsteriskAt(names, tokens);
    var others := Unlisted(k, |names|);
    ListsDistinct(names, tokens);
    var named := k[a..];
    assert |named| == |k| - a;
    OrderKept(named, |others|);
    RotatedTurns(named, |others|);
    Parts(k[..a], others, Rotated(k[a..], |others|));
  }

  /** Three decoders, of which the second and the third are named after the asterisk: they change
      places. */
  lemma OrderIsLost(a: string, b: string, c: string)
    requires !SameName(a, b) && !SameName(a, c) && !SameName(b, c) && b != "*" && c != "*"
    ensures Known([a, b, c], ["*", b, c]) == [1, 2] && AsteriskAt([a, b, c], ["*", b, c]) == 0
    ensures Preferred([a, b, c], ["*", b, c]) == [0, 2, 1]
  {
    hide SameName, Rotated, Unlisted;
    var names, tokens := [a, b, c], ["*", b, c];
    SameAsItself(b);
    SameAsItself(c);
    Swapped(b, c);
    Swapped(a, b);
    assert names[..2] == [a, b] && names[..2][..1] == [a] && names[..2][..1][..0] == [];
    assert Lookup([a], b) == 1 && Lookup([a], c) == 1;
    assert Lookup([a, b], b) == 1 && Lookup([a, b], c) == 2;
    assert Lookup(names, b) == 1 && Lookup(names, c) == 2;
    assert tokens[..2] == ["*", b] && tokens[..2][..1] == ["*"] && tokens[..2][..1][..0] == [];
    assert Known(names, ["*"]) == [] && AsteriskAt(names, ["*"]) == 0;
    assert Known(names, ["*", b]) == [1] && AsteriskAt(names, ["*", b]) == 0;
    assert Known(names, tokens) == [1, 2];
    OnlyFirst();
    assert [1, 2][..0] == [] && [1, 2][0..] == [1, 2] && [] + [0] + [2, 1] == [0, 2, 1];
  }

  lemma SameAsItself(a: string)
    ensures SameName(a, a)
  {
  }

  lemma Swapped(a: string, b: string)
    ensures SameName(a, b) <==> SameName(b, a)
  {
  }

  lemma OnlyFirst()
    ensures Unlisted([1, 2], 3) == [0] && Rotated([1, 2], 1) == [2, 1]
  {
    assert Unlisted([1, 2], 0) == [] && Unlisted([1, 2], 1) == [0] && Unlisted([1, 2], 2) == [0];
    assert Rotated([1, 2], 0) == [1, 2];
  }

  lemma RotatedTurns(s: seq<nat>, k: nat)
    ensures Turned(s, Rotated(s, k), k)
  {
    forall j | 0 <= j < |s| ensures Rotated(s, k)[j] == s[(j + k) % |s|] {
      RotatedAt(s, k, j);
    }
  }

  lemma Parts(x: seq<nat>, y: seq<nat>, z: seq<nat>)
    ensures (x + y + z)[..|x|] == x && (x + y + z)[|x|..|x| + |y|] == y && (x + y + z)[|x| + |y|..] == z
  {
  }

  lemma ListsDistinct(names: seq<string>, tokens: seq<string>)
    requires "*" in tokens
    ensures var k, a := Known(names, tokens), AsteriskAt(names, tokens);
      Distinct(k) && Below(k, |names|) && Distinct(Unlisted(k, |names|)) && 0 <= a <= |k| && Distinct(k[a..])
  {
    hide Known, AsteriskAt, Unlisted;
  }

  lemma SplicedDistinct(k: seq<nat>, a: nat, others: seq<nat>, turned: seq<nat>, n: nat)
    requires a <= |k| && Distinct(k) && Below(k, n)
    requires (forall d: nat :: d in others <==> d < n && d !in k) && Distinct(others)
    requires Turned(k[a..], turned, |others|)
    ensures Distinct(k[..a] + others + turned)
    ensures forall d: nat :: d in k[..a] + others + turned <==> d < n
  {
    TurnedDistinct(k[a..], |others|, turned);
    assert forall i :: 0 <= i < |others| ==> others[i] in others;
    forall d: nat | d < n ensures d in k[..a] + others + turned {
      if d in k {
        var i :| 0 <= i < |k| && k[i] == d;
        if i < a {
          assert k[..a][i] == d;
        } else {
          assert k[a..][i - a] == d;
        }
      }
    }
  }

  /** Position `j` of a rotation by `k`, without a remainder. */
  function Shifted(j: nat, k: nat, n: nat): (r: int)
    requires j < n
    ensures 0 <= r < n
  {
    if j + k % n < n then j + k % n else j + k % n - n
  }

  lemma ShiftedRight(j: nat, k: nat, n: nat)
    requires j < n
    ensures Shifted(j, k, n) == (j + k) % n
  {
    var q := k / n;
    assert j + k == n * q + (j + k % n);
    if j + k % n < n {
      DivMod(j + k, n, q, j + k % n);
    } else {
      assert n * (q + 1) == n * q + n;
      DivMod(j + k, n, q + 1, j + k % n - n);
    }
  }

  /** A rotation has the elements of what it rotates, each once. */
  lemma TurnedDistinct(s: seq<nat>, k: nat, turned: seq<nat>)
    requires Distinct(s) && Turned(s, turned, k)
    ensures Distinct(turned) && forall d: nat :: d in turned <==> d in s
  {
    var n := |s|;
    forall j | 0 <= j < n ensures turned[j] == s[Shifted(j, k, n)] {
      ShiftedRight(j, k, n);
    }
    ShiftedDistinct(s, k, turned);
  }

  lemma ShiftedDistinct(s: seq<nat>, k: nat, turned: seq<nat>)
    requires Distinct(s) && |turned| == |s| && forall j :: 0 <= j < |s| ==> turned[j] == s[Shifted(j, k, |s|)]
    ensures Distinct(turned) && forall d: nat :: d in turned <==> d in s
  {
    var n := |s|;
    if n > 0 {
      var shift := k % n;
      forall i | 0 <= i < n ensures s[i] in turned {
        assert turned[if i >= shift then i - shift else i - shift + n] == s[i];
      }
    }
  }

  // ---------- the loader ----------

  lemma KnownStep(names: seq<string>, tokens: seq<string>, t: string)
    ensures var k := Known(names, tokens); var d := Lookup(names, t);
      Known(names, tokens + [t]) == if t == "*" || d == |names| || d in k then k else k + [d]
    ensures AsteriskAt(names, tokens + [t]) ==
            if AsteriskAt(names, tokens) == -1 && t == "*" then |Known(names, tokens)| else AsteriskAt(names, tokens)
  {
    assert (tokens + [t])[..|tokens|] == tokens;
  }

  lemma KnownNone(names: seq<string>)
    ensures Known(names, []) == [] && AsteriskAt(names, []) == -1
  {
  }

  lemma KnownFits(names: seq<string>, k: seq<nat>)
    requires Distinct(k) && forall i :: 0 <= i < |k| ==> k[i] < |names|
    ensures |k| <= |names|
  {
    CountUnlisted(k, |names|);
  }

  lemma NextToken(tokens: seq<string>, ix: nat)
    requires 1 <= ix < |tokens|
    ensures tokens[1..ix + 1] == tokens[1..ix] + [tokens[ix]]
  {
  }

  class Preference {
    const names: seq<string>   // of the decoders, by index
    const list: array<nat>
    var decoders: nat

    ghost predicate Valid()
      reads this, list
    {
      && list.Length == |names| && decoders <= |names|
      && Distinct(list[..decoders]) && forall i :: 0 <= i < decoders ==> list[i] < |names|
    }

    /** make_preference */
    constructor (names: seq<string>)
      ensures Valid() && decoders == 0 && this.names == names && fresh(list)
    {
      this.names, list, decoders := names, new nat[|names|], 0;
    }

    /** is_listed_decoder */
    method IsListed(d: nat) returns (result: bool)
      requires Valid()
      ensures result <==> d in list[..decoders]
    {
      result := false;
      var ix := 0;
      while ix < decoders
        invariant ix <= decoders && !result && d !in list[..ix]
      {
        if d == list[ix] {
          return true;
        }
        ix := ix + 1;
      }
    }

    /** lookup_decoder_by_name */
    method LookUp(name: string) returns (result: nat)
      ensures result == Lookup(names, name)
    {
      result := 0;
      while result < |names|
        invariant result <= |names| && forall i :: 0 <= i < result ==> !SameName(names[i], name)
      {
        if SameName(names[result], name) {
          break;
        }
        result := result + 1;
      }
    }

    /** load_each_decoder */
    method LoadEach(name: string)
      requires Valid()
      modifies this`decoders, list
      ensures Valid()
      ensures var k := old(list[..decoders]); var d := Lookup(names, name);
        list[..decoders] == if d == |names| || d in k then k else k + [d]
    {
      hide Lookup, SameName;
      var d := LookUp(name);
      if d == |names| {
        return;
      }
      var listed := IsListed(d);
      if listed {
        return;
      }
      KnownFits(names, list[..decoders] + [d]);
      list[decoders] := d;
      decoders := decoders + 1;
    }

    /** The first loop of load_decoders; the first token is the format's name. */
    method LoadNames(tokens: seq<string>) returns (asteriskAt: int)
      requires Valid() && decoders == 0 && |tokens| > 0
      modifies this`decoders, list
      ensures Valid() && list[..decoders] == Known(names, tokens[1..]) && asteriskAt == AsteriskAt(names, tokens[1..])
    {
      hide Lookup, Known, AsteriskAt, Distinct, SameName;
      KnownNone(names);
      ghost var seen: seq<string> := [];
      assert list[..0] == [];
      asteriskAt := -1;
      var ix := 1;
      while ix < |tokens|
        invariant 1 <= ix <= |tokens| && Valid() && seen == tokens[1..ix]
        invariant list[..decoders] == Known(names, seen)
        invariant asteriskAt == AsteriskAt(names, seen)
      {
        KnownStep(names, seen, tokens[ix]);
        NextToken(tokens, ix);
        seen := seen + [tokens[ix]];
        if tokens[ix] != "*" {
          LoadEach(tokens[ix]);
        } else if asteriskAt == -1 {
          asteriskAt := decoders;
        }
        ix := ix + 1;
      }
      assert seen == tokens[1..];
    }

    /** load_decoders */
    method LoadDecoders(tokens: seq<string>)
      requires Valid() && decoders == 0 && |tokens| > 0
      modifies this`decoders, list
      ensures decoders <= list.Length && list[..decoders] == Preferred(names, tokens[1..])
    {
      hide Lookup, Known, AsteriskAt, Unlisted, Rotated, Distinct;
      var asteriskAt := LoadNames(tokens);
      if asteriskAt != -1 {
        var others := FindOthers();
        AllCounted();
        Splice(asteriskAt, others);
      }
    }

    lemma AllCounted()
      requires Valid()
      ensures decoders + |Unlisted(list[..decoders], |names|)| == |names|
    {
      CountUnlisted(list[..decoders], |names|);
    }

    /** The loop that finds the decoders not yet listed. */
    method FindOthers() returns (others: seq<nat>)
      requires Valid()
      ensures others == Unlisted(list[..decoders], |names|)
    {
      others := [];
      for ix := 0 to |names|
        invariant others == Unlisted(list[..decoders], ix)
      {
        var listed := IsListed(ix);
        if !listed {
          others := others + [ix];
        }
      }
    }

    /** The body of the loop below: what stands at `p` moves to the end. */
    method Displace(p: nat, d: nat)
      requires p <= decoders < list.Length
      modifies this`decoders, list
      ensures decoders == old(decoders) + 1
      ensures var was := old(list[..decoders]);
        list[..decoders] == if p == |was| then was + [d] else (was + [was[p]])[p := d]
    {
      list[decoders] := list[p];
      decoders := decoders + 1;
      list[p] := d;
    }

    /** The loop that splices the others in. */
    method Splice(asteriskAt: nat, others: seq<nat>)
      requires Valid() && asteriskAt <= decoders && decoders + |others| == |names|
      modifies this`decoders, list
      ensures decoders == |names| && list.Length == |names|
      ensures var k := old(list[..decoders]);
        list[..decoders] == k[..asteriskAt] + others + Rotated(k[asteriskAt..], |others|)
    {
      hide Rotated, Distinct, Known, Lookup, Unlisted, AsteriskAt, SameName;
      ghost var n, front, named := decoders, list[..asteriskAt], list[asteriskAt..decoders];
      assert list[..decoders] == front + named;
      var dx := |others|;
      RotateNot(named);
      for ix := 0 to dx
        invariant decoders == n + ix && list.Length == |names|
        invariant list[..decoders] == front + others[..ix] + Rotated(named, ix)
      {
        RotateOnce(named, ix);
        Inserted(front, others[..ix], Rotated(named, ix), others[ix]);
        Displace(asteriskAt + ix, others[ix]);
        assert others[..ix + 1] == others[..ix] + [others[ix]];
      }
      assert others[..dx] == others;
      assert old(list[..decoders])[..asteriskAt] == front && old(list[..decoders])[asteriskAt..] == named;
    }
  }

  /** One turn of the loop: the first of what is turned moves to the end and makes place. */
  lemma Inserted(front: seq<nat>, done: seq<nat>, turned: seq<nat>, x: nat)
    ensures var before, p := front + done + turned, |front| + |done|;
      && (turned == [] ==> before + [x] == front + (done + [x]) + [])
      && (turned != [] ==>
            (before + [before[p]])[p := x] == front + (done + [x]) + (turned[1..] + [turned[0]]))
  {
  }

  lemma RotateNot(s: seq<nat>)
    ensures Rotated(s, 0) == s
  {
  }

  lemma RotateOnce(s: seq<nat>, k: nat)
    ensures Rotated(s, k + 1) == if s == [] then [] else Rotated(s, k)[1..] + [Rotated(s, k)[0]]
  {
  }
}
