/** The tags cache of src/library/tags_cache.cpp over a database modelled as a map, and the
    reading of tags by read_file_tags (src/library/files.cpp). */
module TagsCache {
  import opened Bytes
  import opened FileTags
  import opened TagsRecord
  import opened Wrappers

  /** The wanted ones of TAGS_COMMENTS and TAGS_TIME. */
  datatype Selection = Selection(comments: bool, time: bool)

  /** What a decoder's info function finds in a file. */
  datatype Contents = Contents(title: seq<Byte>, artist: seq<Byte>, album: seq<Byte>, track: int, year: int, time: int)

  const NOTHING: Contents := Contents([], [], [], -1, -1, -1)

  /** What the decoder of the file's extension finds, if there is one; what a different decoder
      that recognises the content finds, if there is one; whether the first can open the file;
      and the lengths that playing it may have measured. */
  datatype File = File(own: Option<Contents>, other: Option<Contents>, opens: bool, lengths: set<int>)
  {
    function Own(): Contents {
      if own.Some? then own.value else NOTHING
    }
  }

  /** Each file at each modification time. */
  type Library = (string, int) -> File

  predicate Has(t: Tags, sel: Selection) {
    (sel.comments ==> t.comments) && (sel.time ==> t.timed)
  }

  /** A decoder's info function: it fills in what the file has. */
  function Info(t: Tags, sel: Selection, g: Contents): Tags {
    t.(title := if sel.comments && g.title != [] then g.title else t.title,
       artist := if sel.comments && g.artist != [] then g.artist else t.artist,
       album := if sel.comments && g.album != [] then g.album else t.album,
       track := if sel.comments && g.track != -1 then g.track else t.track,
       year := if sel.comments && g.year != -1 then g.year else t.year,
       time := if sel.time && g.time != -1 then g.time else t.time)
  }

  /** Tags, and whether they are marked as those of a misnamed or of an unreadable file. */
  datatype Reading = Reading(tags: Tags, misnamed: bool, unreadable: bool)
  {
    predicate Marked() { misnamed || unreadable }
  }

  function Needed(t: Tags, sel: Selection): Selection {
    Selection(sel.comments && !t.comments, sel.time && !t.timed)
  }

  /** read_file_tags */
  function ReadFile(tags: Option<Tags>, sel: Selection, f: File): Reading {
    var t := if tags.Some? then tags.value else NO_TAGS;
    var needed := Needed(t, sel);
    if (!needed.comments && !needed.time) || f.own.None? then Reading(t, false, false)
    else
      var u := Info(t, needed, f.own.value);
      var unknown := needed.time && u.time == -1;
      var v := if unknown && f.other.Some? then Info(u, needed, f.other.value) else u;
      Reading(v.(comments := t.comments || sel.comments, timed := t.timed || sel.time),
              unknown && f.other.Some?, unknown && f.other.None? && !f.opens)
  }

  /** read_file_tags with the assertion that it makes. */
  method ReadFileTags(tags: Option<Tags>, sel: Selection, f: File) returns (r: Reading)
    requires tags.Some? ==> Clean(tags.value)
    ensures r == ReadFile(tags, sel, f)
  {
    var t := if tags.Some? then tags.value else NO_TAGS;
    r := Reading(t, false, false);
    var needed := Needed(t, sel);
    if !needed.comments && !needed.time {
      return;
    }
    if f.own.None? {
      return;
    }
    assert !(needed.comments && (t.title != [] || t.artist != [] || t.album != []));
    t := Info(t, needed, f.own.value);
    if needed.time && t.time == -1 {
      if f.other.Some? {
        t := Info(t, needed, f.other.value);
        r := r.(misnamed := true);
      } else if !f.opens {
        r := r.(unreadable := true);
      }
    }
    r := r.(tags := t.(comments := t.comments || sel.comments, timed := t.timed || sel.time));
  }

  /** read_missing_tags: `played` is what audio_get_ftime knows of the file, or -1. */
  function ReadMissing(tags: Option<Tags>, sel: Selection, f: File, played: int): Reading {
    var t := if tags.Some? then tags.value else NO_TAGS;
    if sel.time && played != -1 then
      var r := ReadFile(Option.Some(t.(time := played, timed := true)), sel.(time := false), f);
      r.(misnamed := r.misnamed || f.other.Some?)
    else ReadFile(Option.Some(t), sel, f)
  }

  method ReadMissingTags(tags: Option<Tags>, sel: Selection, f: File, played: int) returns (r: Reading)
    requires tags.Some? ==> Clean(tags.value)
    ensures r == ReadMissing(tags, sel, f, played)
  {
    var t := if tags.Some? then tags.value else NO_TAGS;
    var left, misnamed := sel, false;
    if sel.time {
      if played != -1 {
        t := t.(time := played, timed := true);
        left := left.(time := false);
        misnamed := f.other.Some?;
      }
    }
    r := ReadFileTags(Option.Some(t), left, f);
    r := r.(misnamed := r.misnamed || misnamed);
  }

  // ---------- truth ----------

  /** The filled fields are what the file's own decoder finds, or the length measured if no other
      decoder claims the file; and the others hold nothing else. */
  predicate Truthful(t: Tags, f: File) {
    var g := f.Own();
    && (t.comments ==>
          && f.own.Some?
          && t.title == g.title && t.artist == g.artist && t.album == g.album && t.track == g.track && t.year == g.year)
    && (!t.comments ==>
          && t.title == [] && t.artist == [] && t.album == []
          && t.track in {-1, g.track} && t.year in {-1, g.year})
    && (t.timed ==> f.own.Some? || t.time in f.lengths)
    && (t.time == g.time || (t.time == -1 && !t.timed) || (t.time in f.lengths && f.other.None?))
  }

  /** Equal in the selected fields. */
  predicate SameOn(sel: Selection, t: Tags, u: Tags) {
    && (sel.comments ==>
          t.title == u.title && t.artist == u.artist && t.album == u.album && t.track == u.track && t.year == u.year)
    && (sel.time ==> t.time == u.time)
  }

  /** What is read on top of truthful tags is truthful if the file is not found to be misnamed. */
  lemma ReadIsTruthful(tags: Option<Tags>, sel: Selection, f: File, played: int)
    requires tags.Some? ==> Truthful(tags.value, f)
    requires played == -1 || played in f.lengths
    ensures var r := ReadMissing(tags, sel, f, played);
      && (!r.misnamed ==> Truthful(r.tags, f))
      && (Has(r.tags, sel) <==>
            f.own.Some?
            || (!sel.comments && (sel.time ==> played != -1 || (tags.Some? && tags.value.timed))))
  {
  }

  /** The time among stored tags, or -1. */
  function TimeIn(tags: Option<Tags>): int {
    if tags.Some? then tags.value.time else -1
  }

  /** When a reading is marked: a time is to be read and another decoder recognises the content or
      the own one cannot open the file; the latter two are looked at only if the playlist does not
      know the time, nor the stored tags, nor the own decoder, but the first also if it does. */
  lemma MarkedExactly(tags: Option<Tags>, sel: Selection, f: File, played: int)
    requires tags.Some? ==> Truthful(tags.value, f) && (tags.value.timed ==> tags.value.time != -1)
    ensures ReadMissing(tags, sel, f, played).Marked() <==>
            sel.time && if played != -1 then f.other.Some?
                        else TimeIn(tags) == -1 && f.own.Some? && f.own.value.time == -1 && (f.other.Some? || !f.opens)
    ensures var r := ReadMissing(tags, sel, f, played);
      && (r.misnamed <==> r.Marked() && f.other.Some?) && (r.unreadable <==> r.Marked() && f.other.None?)
  {
  }

  lemma SettledIsTruthful(t: Tags, f: File)
    requires Truthful(t, f)
    ensures Truthful(Settled(t), f)
  {
  }

  /** The time that a fresh read gives. */
  function FreshTime(f: File, played: int): int {
    if played != -1 then played
    else if f.own.None? then -1
    else if f.own.value.time == -1 && f.other.Some? then f.other.value.time
    else f.own.value.time
  }

  lemma FreshTimeRead(f: File, sel: Selection, played: int)
    requires sel.time
    ensures ReadMissing(None, sel, f, played).tags.time == FreshTime(f, played)
  {
  }

  /** Stored tags that have the selected fields agree with a fresh read of the file, but for a time
      that has been measured differently. */
  lemma TruthAgrees(t: Tags, sel: Selection, f: File, played: int)
    requires Truthful(t, f) && Has(t, sel) && (t.timed ==> t.time != -1)
    ensures SameOn(sel, t, ReadMissing(None, sel, f, played).tags) <==> (sel.time ==> t.time == FreshTime(f, played))
  {
  }

  /** Whether the other decoder finds comments that the own one does not. */
  predicate Overrides(f: File) {
    && f.own.Some? && f.other.Some?
    && var g, h := f.own.value, f.other.value;
    || (h.title != [] && h.title != g.title) || (h.artist != [] && h.artist != g.artist)
    || (h.album != [] && h.album != g.album) || (h.track != -1 && h.track != g.track)
    || (h.year != -1 && h.year != g.year)
  }

  /** Stored comments of a misnamed file, to which a read adds the time. */
  predicate Mixes(tags: Option<Tags>, sel: Selection, f: File, played: int) {
    && sel.comments && sel.time && tags.Some? && tags.value.comments && !tags.value.timed
    && f.own.Some? && f.own.value.time == -1 && Overrides(f) && played == -1
  }

  /** A stored time that is kept, although a fresh read would give another one. */
  predicate Stale(tags: Option<Tags>, sel: Selection, f: File, played: int, hit: bool) {
    && sel.time && TimeIn(tags) != -1 && TimeIn(tags) != FreshTime(f, played)
    && (hit || (played == -1 && (tags.value.timed || f.own.None? || f.own.value.time == -1)))
  }

  lemma CommentsAgree(tags: Option<Tags>, sel: Selection, f: File, played: int)
    requires tags.Some? ==> Truthful(tags.value, f) && (tags.value.timed ==> tags.value.time != -1)
    ensures SameOn(sel.(time := false), ReadMissing(tags, sel, f, played).tags, ReadMissing(None, sel, f, played).tags)
            <==> !Mixes(tags, sel, f, played)
  {
  }

  lemma TimeAgrees(tags: Option<Tags>, sel: Selection, f: File, played: int)
    requires tags.Some? ==> Truthful(tags.value, f) && (tags.value.timed ==> tags.value.time != -1)
    ensures SameOn(sel.(comments := false), ReadMissing(tags, sel, f, played).tags,
                   ReadMissing(None, sel, f, played).tags)
            <==> !Stale(tags, sel, f, played, false)
  {
  }

  /** Reading what is missing agrees with a fresh read, unless the comments of a misnamed file
      are there already, which then stay those of the wrong decoder, or a stored time is kept. */
  lemma AgreesExactly(tags: Option<Tags>, sel: Selection, f: File, played: int)
    requires tags.Some? ==> Truthful(tags.value, f) && (tags.value.timed ==> tags.value.time != -1)
    ensures SameOn(sel, ReadMissing(tags, sel, f, played).tags, ReadMissing(None, sel, f, played).tags)
            <==> !Mixes(tags, sel, f, played) && !Stale(tags, sel, f, played, false)
  {
    hide ReadMissing, Mixes, Stale, Truthful;
    CommentsAgree(tags, sel, f, played);
    TimeAgrees(tags, sel, f, played);
  }

  /** So it goes: a misnamed file whose comments alone were read is not marked, and what the other
      decoder finds later does not replace them. */
  lemma MisnamedIsStored()
    ensures var f := File(Some(Contents([1], [], [], -1, -1, -1)), Some(Contents([2], [], [], -1, -1, 5)), true, {});
      var both, first := Selection(true, true), ReadMissing(None, Selection(true, false), f, -1);
      var stored := Some(Settled(first.tags));
      && !first.Marked() && Mixes(stored, both, f, -1)
      && ReadMissing(stored, both, f, -1).tags.title == [1] && ReadMissing(None, both, f, -1).tags.title == [2]
  {
  }

  lemma HitAgrees(tags: Option<Tags>, sel: Selection, f: File, played: int)
    requires tags.Some? && Has(tags.value, sel) && (tags.value.timed ==> tags.value.time != -1)
    ensures !Mixes(tags, sel, f, played)
    ensures Stale(tags, sel, f, played, true) <==> sel.time && tags.value.time != FreshTime(f, played)
  {
  }

  predicate Readable(f: File) {
    var g := f.Own();
    && |g.artist| < Power(SIZE_T) && |g.album| < Power(SIZE_T) && |g.title| < Power(SIZE_T)
    && InRange(INT, g.track) && InRange(INT, g.year) && InRange(INT, g.time)
    && forall n :: n in f.lengths ==> InRange(INT, n)
  }

  lemma TruthIsStorable(t: Tags, f: File, modTime: int, atime: int)
    requires Truthful(t, f) && Readable(f) && InRange(TIME_T, modTime) && InRange(TIME_T, atime)
    ensures Storable(modTime, atime, t)
  {
    assert InRange(INT, -1) && Power(SIZE_T) > 0;
    hide Power;
  }

  // ---------- the database ----------

  /** The tags stored for a file at this modification time, if the record can be read. */
  function StoredTags(db: map<string, seq<Byte>>, file: string, mtime: int): Option<Tags> {
    if file !in db then None
    else
      var r := Parse(db[file], false);
      if r.Got? && r.value.modTime == mtime then r.value.tags else None
  }

  /** The access time of a stored record, if it can be read. */
  function Atime(s: seq<Byte>): Option<int> {
    var r := Parse(s, true);
    if r.Got? then Option.Some(r.value.atime) else None
  }

  /** Tags stored at a modification time come back at that one and no other, and answer a request
      for comments if they have a title, and one for the time if it is known. */
  lemma StoredComesBack(db: map<string, seq<Byte>>, file: string, mtime: int, atime: int, t: Tags, now: int,
                        sel: Selection)
    requires Storable(mtime, atime, t) && file in db && db[file] == Record(mtime, atime, t)
    ensures StoredTags(db, file, now) == if now == mtime then Option.Some(Settled(t)) else None
    ensures Has(Settled(t), sel) <==> (sel.comments ==> t.title != []) && (sel.time ==> t.time >= 0)
  {
    hide Storable, Record, Parse;
    RecordRoundTrip(mtime, atime, t);
  }

  /** The access time stands in the second eight bytes, whatever becomes of the tags behind it. */
  lemma AtimeIsSecond(s: seq<Byte>)
    ensures Atime(s) == if |s| >= 16 then Option.Some(SignedValue(s[8..16])) else None
  {
    hide Value, Power;
  }

  /** A stored record that parses tells the truth about its file at its modification time. */
  ghost predicate TrueRecord(f: string, s: seq<Byte>, lib: Library) {
    var r := Parse(s, false);
    r.Got? ==> r.value.tags.Some? && Truthful(r.value.tags.value, lib(f, r.value.modTime))
  }

  ghost predicate TrueDb(db: map<string, seq<Byte>>, lib: Library) {
    forall f :: f in db ==> TrueRecord(f, db[f], lib)
  }

  lemma StoredIsTrue(f: string, t: Tags, modTime: int, atime: int, lib: Library)
    requires Storable(modTime, atime, t) && Truthful(t, lib(f, modTime))
    ensures TrueRecord(f, Record(modTime, atime, t), lib)
    ensures Atime(Record(modTime, atime, t)) == Option.Some(atime)
  {
    hide Parse, Record, Storable;
    RecordRoundTrip(modTime, atime, t);
    SettledIsTruthful(t, lib(f, modTime));
  }

  ghost predicate Enumerates(order: seq<string>, db: map<string, seq<Byte>>) {
    && (forall i, j :: 0 <= i < j < |order| ==> order[i] != order[j])
    && (forall f :: f in order <==> f in db)
  }

  lemma {:induction false} EnumeratesCount(order: seq<string>, keys: set<string>)
    requires forall i, j :: 0 <= i < j < |order| ==> order[i] != order[j]
    requires forall f :: f in order <==> f in keys
    ensures |order| == |keys|
  {
    if order != [] {
      var n := |order| - 1;
      assert forall f :: f in order[..n] <==> f in order && f != order[n];
      EnumeratesCount(order[..n], keys - {order[n]});
    } else {
      assert keys == {};
    }
  }

  /** The record that a walk in this order picks: the first one of the least access time. */
  ghost predicate Oldest(db: map<string, seq<Byte>>, order: seq<string>, now: int, k: int) {
    && -1 <= k < |order| && (forall i :: 0 <= i < |order| ==> order[i] in db)
    && (k == -1 ==> forall i :: 0 <= i < |order| && Atime(db[order[i]]).Some? ==> Atime(db[order[i]]).value > now)
    && (k >= 0 ==>
          && Atime(db[order[k]]).Some? && Atime(db[order[k]]).value <= now
          && (forall i :: 0 <= i < k && Atime(db[order[i]]).Some? ==>
                Atime(db[order[i]]).value > Atime(db[order[k]]).value)
          && (forall i :: k < i < |order| && Atime(db[order[i]]).Some? ==>
                Atime(db[order[i]]).value >= Atime(db[order[k]]).value))
  }

  function Max(a: int, b: int): int {
    if a < b then b else a
  }

  /** Some record is readable and not from the future. */
  ghost predicate SomeUsed(db: map<string, seq<Byte>>, now: int) {
    exists f :: f in db && Atime(db[f]).Some? && Atime(db[f]).value <= now
  }

  /** No readable record was last used before that of `f`. */
  ghost predicate LeastUsed(db: map<string, seq<Byte>>, f: string) {
    && f in db && Atime(db[f]).Some?
    && forall h :: h in db && Atime(db[h]).Some? ==> Atime(db[h]).value >= Atime(db[f]).value
  }

  lemma UsedLater(db: map<string, seq<Byte>>, clock: int, now: int)
    requires SomeUsed(db, clock) && clock <= now
    ensures SomeUsed(db, now)
  {
    hide Atime;
    var f :| f in db && Atime(db[f]).Some? && Atime(db[f]).value <= clock;
    assert Atime(db[f]).value <= now;
  }

  lemma LeastIsStored(db: map<string, seq<Byte>>, f: string)
    ensures LeastUsed(db, f) ==> f in db
  {
  }

  /** The records after at most one removal. */
  function Left(db: map<string, seq<Byte>>, victim: Option<string>): map<string, seq<Byte>> {
    if victim.Some? then db - {victim.value} else db
  }

  /** The number of records at the start, the time of the latest addition, whether the clock has
      never gone back, whether there was an addition, and whether one found nothing to remove. */
  datatype History = History(loaded: nat, clock: int, steady: bool, added: bool, overshot: bool)
  {
    function After(now: int, over: bool): History {
      History(loaded, now, steady && (added ==> now >= clock), true, overshot || over)
    }
  }

  /** The records stay few while the clock does not go back. Those loaded may be unreadable or
      from the future. */
  ghost predicate Few(db: map<string, seq<Byte>>, limit: nat, h: History) {
    && (h.added ==> SomeUsed(db, h.clock)) && (h.overshot ==> h.added)
    && (h.steady ==> |db| <= Max(limit, h.loaded) + (if h.overshot then 1 else 0))
  }

  lemma StillFew(db: map<string, seq<Byte>>, next: map<string, seq<Byte>>, limit: nat, h: History, now: int)
    requires Few(db, limit, h) && SomeUsed(next, now) && |next| <= |db| + 1
    requires SomeUsed(db, now) ==> |next| <= Max(limit, |db|)
    ensures var k := h.After(now, |next| > Max(limit, |db|));
      Few(next, limit, k) && (k.steady && h.added ==> k.overshot == h.overshot)
  {
    if h.added && now >= h.clock {
      UsedLater(db, h.clock, now);
    }
    hide SomeUsed;
  }

  /** Putting a record after at most one removal. */
  lemma PutKeeps(db: map<string, seq<Byte>>, victim: Option<string>, file: string, s: seq<Byte>, now: int, lib: Library)
    requires victim.Some? ==> victim.value in db
    requires TrueDb(db, lib) && TrueRecord(file, s, lib) && Atime(s) == Option.Some(now)
    ensures var next := Left(db, victim)[file := s];
      && TrueDb(next, lib) && SomeUsed(next, now)
      && |Left(db, victim)| == |db| - (if victim.Some? then 1 else 0)
      && |next| == |Left(db, victim)| + (if file in Left(db, victim) then 0 else 1)
      && (file in Left(db, victim) ==> file in db) && (victim.None? ==> Left(db, victim) == db)
      && forall f :: f in next && f != file ==> f in db && next[f] == db[f]
  {
    hide Atime, TrueRecord;
    var rest := Left(db, victim);
    if victim.Some? {
      assert rest.Keys == db.Keys - {victim.value};
    }
    assert rest[file := s].Keys == rest.Keys + {file};
    assert Atime(rest[file := s][file]).value <= now;
  }

  /** The walk over the next record. */
  lemma OldestStep(db: map<string, seq<Byte>>, order: seq<string>, n: nat, now: int, k: int)
    requires n < |order| && order[n] in db && -1 <= k < n && Oldest(db, order[..n], now, k)
    requires k >= 0 ==> order[k] in db && Atime(db[order[k]]).Some?
    ensures var at := Atime(db[order[n]]);
      var bound := if k == -1 then now + 1 else Atime(db[order[k]]).value;
      Oldest(db, order[..n + 1], now, if at.Some? && at.value < bound then n else k)
  {
    hide Atime;
    var more := order[..n + 1];
    assert forall i :: 0 <= i < n ==> more[i] == order[..n][i];
    assert more[n] == order[n];
  }

  lemma NoneSeen(db: map<string, seq<Byte>>, now: int)
    ensures Oldest(db, [], now, -1)
  {
  }

  method ToArray(s: seq<Byte>) returns (a: array<Byte>)
    ensures fresh(a) && a[..] == s
  {
    a := new Byte[|s|](i requires 0 <= i < |s| => s[i]);
  }

  class Cache {
    const maxItems: nat
    var nitems: int
    var db: map<string, seq<Byte>>
    ghost var history: History

    /** nitems is unknown or an upper bound, and the records stay few. */
    ghost predicate Valid(lib: Library)
      reads this
    {
      maxItems > 0 && (nitems == -1 || nitems >= |db|) && TrueDb(db, lib) && Few(db, maxItems, history)
    }

    constructor (maxItems: nat, stored: map<string, seq<Byte>>, ghost lib: Library, ghost now: int)
      requires maxItems > 0 && TrueDb(stored, lib)
      ensures Valid(lib) && db == stored && nitems == -1 && this.maxItems == maxItems
      ensures history == History(|stored|, now, true, false, false)
    {
      this.maxItems, nitems, db, history := maxItems, -1, stored, History(|stored|, now, true, false, false);
    }

    /** The walk of tags_cache_gc over the records, in the order of its cursor. */
    method FindOldest(now: int, order: seq<string>) returns (last: int, count: nat)
      requires forall i :: 0 <= i < |order| ==> order[i] in db
      ensures Oldest(db, order, now, last) && count == |order|
    {
      hide Parse, Oldest;
      last := -1;
      var lastAtime := now + 1;
      count := 0;
      NoneSeen(db, now);
      assert order[..0] == [];
      while count < |order|
        invariant count <= |order| && -1 <= last < count
        invariant Oldest(db, order[..count], now, last)
        invariant last >= 0 ==> Atime(db[order[last]]).Some?
        invariant lastAtime == if last == -1 then now + 1 else Atime(db[order[last]]).value
      {
        OldestStep(db, order, count, now, last);
        var a := ToArray(db[order[count]]);
        var r := Deserialize(a, true);
        if r.Got? && r.value.atime < lastAtime {
          lastAtime := r.value.atime;
          last := count;
        }
        count := count + 1;
      }
      assert order[..count] == order;
    }

    /** tags_cache_gc: at most one record is removed, one of least access time; and one is
        removed exactly when the count is not known to be under the limit, the walk finds as
        many records as the limit or more, and some record is readable and not from the
        future. */
    method Gc(now: int, order: seq<string>) returns (ghost victim: Option<string>)
      requires Enumerates(order, db)
      modifies this`nitems, this`db
      ensures victim.Some? <==> !(0 <= old(nitems) < maxItems) && |old(db)| >= maxItems
                                && SomeUsed(old(db), now)
      ensures db == Left(old(db), victim)
      ensures victim.Some? ==> LeastUsed(old(db), victim.value)
      ensures nitems == if 0 <= old(nitems) < maxItems then old(nitems) else |db|
    {
      hide Atime;
      victim := None;
      if 0 <= nitems < maxItems {
        return;
      }
      var last, count := FindOldest(now, order);
      EnumeratesCount(order, db.Keys);
      assert forall f :: f in db ==> f in order;
      nitems := count;
      if last != -1 {
        if count >= maxItems {
          victim := Option.Some(order[last]);
          assert (db - {order[last]}).Keys == db.Keys - {order[last]};
          db := db - {order[last]};
          nitems := nitems - 1;
        }
      }
    }

    /** The effect of tags_cache_add on the database. */
    method Put(file: string, s: seq<Byte>, now: int, order: seq<string>, ghost lib: Library)
      requires Enumerates(order, db) && TrueDb(db, lib) && maxItems > 0 && (nitems == -1 || nitems >= |db|)
      requires TrueRecord(file, s, lib) && Atime(s) == Option.Some(now)
      modifies this`nitems, this`db
      ensures TrueDb(db, lib) && SomeUsed(db, now) && (nitems == -1 || nitems >= |db|)
      ensures file in db && db[file] == s
      ensures forall f :: f in db && f != file ==> f in old(db) && db[f] == old(db)[f]
      ensures |db| <= Max(maxItems, |old(db)|) <==> |old(db)| < maxItems || SomeUsed(old(db), now) || file in old(db)
      ensures |db| <= |old(db)| + 1
    {
      hide Atime, TrueRecord, TrueDb, SomeUsed, LeastUsed, Enumerates, Left;
      ghost var victim := Gc(now, order);
      if victim.Some? {
        LeastIsStored(old(db), victim.value);
      }
      PutKeeps(old(db), victim, file, s, now, lib);
      db := db[file := s];
      if nitems >= 0 {
        nitems := nitems + 1;
      }
    }

    /** tags_cache_add. The records outgrow the larger of the limit and their number exactly when
        it puts a new file into a cache that is full of unreadable records and records from the
        future; while the clock does not go back, by one at most and only in the first addition. */
    method Add(file: string, t: Tags, mtime: int, now: int, order: seq<string>, ghost lib: Library)
      requires Valid(lib) && Enumerates(order, db)
      requires Storable(mtime, now, t) && Truthful(t, lib(file, mtime))
      modifies this
      ensures Valid(lib) && history == old(history).After(now, |db| > Max(maxItems, |old(db)|))
      ensures file in db && db[file] == Record(mtime, now, t)
      ensures forall f :: f in db && f != file ==> f in old(db) && db[f] == old(db)[f]
      ensures |db| <= Max(maxItems, |old(db)|) <==> |old(db)| < maxItems || SomeUsed(old(db), now) || file in old(db)
      ensures |db| <= |old(db)| + 1
      ensures history.steady && old(history).added ==> history.overshot == old(history).overshot
    {
      hide Atime, TrueRecord, Storable, Record, TrueDb, SomeUsed, Enumerates, Truthful, Max, Few;
      var record := Serialize(mtime, now, t);
      StoredIsTrue(file, t, mtime, now, lib);
      Put(file, record[..], now, order, lib);
      StillFew(old(db), db, maxItems, history, now);
      history := history.After(now, |db| > Max(maxItems, |old(db)|));
    }

    /** The lookup that locked_read_add and locked_add_request share. */
    method Stored(file: string) returns (r: Got<Entry>)
      ensures r == if file in db then Parse(db[file], false) else Short
    {
      r := Short;
      if file in db {
        var a := ToArray(db[file]);
        r := Deserialize(a, false);
      }
    }

    /** locked_read_add for the file `f` at the modification time `mtime`. A marked reading is not
        stored. What is returned agrees in the selected fields with a fresh read of the file, but
        for the comments that were stored before the file was found to be misnamed, and a stored
        time that has since been measured differently. Nothing is claimed when the lookup `past`
        reads beyond a damaged record. */
    method ReadAdd(file: string, sel: Selection, notify: bool, mtime: int, now: int, order: seq<string>,
                   f: File, played: int, ghost lib: Library)
      returns (r: Reading, hit: bool, past: bool)
      requires Valid(lib) && Enumerates(order, db)
      requires f == lib(file, mtime) && Readable(f) && InRange(TIME_T, mtime) && InRange(TIME_T, now)
      requires played == -1 || played in f.lengths
      modifies this
      ensures Valid(lib)
      ensures past <==> file in old(db) && Overruns(old(db)[file])
      ensures !past ==>
                var was := StoredTags(old(db), file, mtime);
                && (hit <==> !notify && was.Some? && Has(was.value, sel))
                && r == (if hit then Reading(was.value, false, false) else ReadMissing(was, sel, f, played))
                && (SameOn(sel, r.tags, ReadMissing(None, sel, f, played).tags) <==>
                      !Mixes(was, sel, f, played) && !Stale(was, sel, f, played, hit))
                && (r.Marked() <==>
                      !hit && sel.time
                      && if played != -1 then f.other.Some?
                         else TimeIn(was) == -1 && f.own.Some? && f.own.value.time == -1 && (f.other.Some? || !f.opens))
                && (Has(r.tags, sel) <==>
                      f.own.Some? || hit
                      || (!sel.comments && (sel.time ==> played != -1 || (was.Some? && was.value.timed))))
      ensures past || hit || r.Marked() ==> db == old(db)
      ensures !past && !hit && !r.Marked() ==>
                file in db && Storable(mtime, now, r.tags) && db[file] == Record(mtime, now, r.tags)
    {
      hide Parse, Storable, SomeUsed, Atime, InRange, Record, ReadMissing, Mixes, Stale, SameOn, Max;
      hide Overruns, Truthful;
      hit, past := false, false;
      var tags: Option<Tags> := None;
      var rec := Stored(file);
      if file in db {
        LeavesRecordExactly(db[file]);
      }
      if rec.Past? {
        return Reading(NO_TAGS, false, false), false, true;
      }
      if rec.Got? {
        assert TrueRecord(file, db[file], lib);
        ParsedIsClean(db[file]);
        if rec.value.modTime != mtime {
          // outdated
        } else if Has(rec.value.tags.value, sel) && !notify {
          TruthAgrees(rec.value.tags.value, sel, f, played);
          HitAgrees(rec.value.tags, sel, f, played);
          return Reading(rec.value.tags.value, false, false), true, false;
        } else {
          tags := rec.value.tags;
        }
      }
      r := ReadMissingTags(tags, sel, f, played);
      ReadIsTruthful(tags, sel, f, played);
      MarkedExactly(tags, sel, f, played);
      AgreesExactly(tags, sel, f, played);
      if !r.misnamed && !r.unreadable {
        TruthIsStorable(r.tags, f, mtime, now);
        Add(file, r.tags, mtime, now, order, lib);
      }
    }

    /** locked_add_request: the tags to answer with at once, if the cache has them. */
    method AddRequest(file: string, sel: Selection, mtime: int, f: File, played: int, ghost lib: Library)
      returns (found: Option<Tags>, past: bool)
      requires Valid(lib) && f == lib(file, mtime)
      ensures past <==> file in db && Overruns(db[file])
      ensures !past ==>
                var was := StoredTags(db, file, mtime);
                found == if was.Some? && Has(was.value, sel) then was else None
      ensures found.Some? ==>
                (SameOn(sel, found.value, ReadMissing(None, sel, f, played).tags) <==>
                   (sel.time ==> found.value.time == FreshTime(f, played)))
    {
      hide Parse, SomeUsed, ReadMissing, SameOn, Overruns, Truthful, FreshTime;
      found, past := None, false;
      var rec := Stored(file);
      if file in db {
        LeavesRecordExactly(db[file]);
      }
      if rec.Past? {
        return None, true;
      }
      if rec.Got? {
        assert TrueRecord(file, db[file], lib);
        ParsedIsClean(db[file]);
        if rec.value.modTime == mtime && Has(rec.value.tags.value, sel) {
          TruthAgrees(rec.value.tags.value, sel, f, played);
          found := rec.value.tags;
        }
      }
    }
  }

  /** The first addition can find nothing to remove: a cache for one record that holds an unreadable
      one, for any other file. */
  method FirstAdditionExceeds(broken: string, file: string, t: Tags, mtime: int, now: int, ghost lib: Library)
    returns (cache: Cache)
    requires broken != file && Storable(mtime, now, t) && Truthful(t, lib(file, mtime))
    ensures cache.Valid(lib) && cache.maxItems == 1 && |cache.db| == 2 && cache.history.overshot
  {
    hide Storable, Truthful, Record, InRange;
    var stored: map<string, seq<Byte>> := map[broken := []];
    cache := new Cache(1, stored, lib, now);
    assert !SomeUsed(stored, now) && |stored| == 1;
    cache.Add(file, t, mtime, now, [broken], lib);
  }
}
