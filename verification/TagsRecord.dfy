/** The records of the tags cache (src/library/tags_cache.cpp): their byte form on a machine
    with 8-byte time_t and size_t, 4-byte int and the least significant byte first, and the
    parser that reads it back. */
module TagsRecord {
  import opened Bytes
  import opened FileTags
  import opened Wrappers
  import Fifo

  // ---------- numbers ----------

  function Power(k: nat): (r: nat)
    ensures r > 0
  {
    if k == 0 then 1 else 256 * Power(k - 1)
  }

  function Unsigned(k: nat, v: nat): (r: seq<Byte>)
    ensures |r| == k
  {
    if k == 0 then [] else [(v % 256) as Byte] + Unsigned(k - 1, v / 256)
  }

  function Value(b: seq<Byte>): nat {
    if b == [] then 0 else b[0] as nat + 256 * Value(b[1..])
  }

  lemma {:induction false} ValueUnsigned(k: nat, v: nat)
    requires v < Power(k)
    ensures Value(Unsigned(k, v)) == v
  {
    if k > 0 {
      ValueUnsigned(k - 1, v / 256);
      assert Unsigned(k, v)[1..] == Unsigned(k - 1, v / 256);
    }
  }

  /** Two's complement. */
  function Signed(k: nat, v: int): (r: seq<Byte>)
    requires v + Power(k) >= 0
    ensures |r| == k
  {
    Unsigned(k, if v < 0 then v + Power(k) else v)
  }

  function SignedValue(b: seq<Byte>): int {
    var u := Value(b);
    if 2 * u >= Power(|b|) then u - Power(|b|) else u
  }

  predicate InRange(k: nat, v: int) {
    0 <= 2 * v + Power(k) < 2 * Power(k)
  }

  /** What fits is what int and time_t hold. */
  lemma CRanges(v: int)
    ensures InRange(INT, v) <==> -0x8000_0000 <= v <= 0x7fff_ffff
    ensures InRange(TIME_T, v) <==> -0x8000_0000_0000_0000 <= v <= 0x7fff_ffff_ffff_ffff
  {
    assert Power(4) == 0x1_0000_0000;
    assert Power(8) == 0x1_0000_0000 * Power(4);
  }

  lemma SignedRoundTrip(k: nat, v: int)
    requires InRange(k, v)
    ensures SignedValue(Signed(k, v)) == v
  {
    ValueUnsigned(k, if v < 0 then v + Power(k) else v);
  }

  // ---------- records ----------

  const TIME_T: nat := 8
  const SIZE_T: nat := 8
  const INT: nat := 4

  datatype Entry = Entry(modTime: int, atime: int, tags: Option<Tags>)

  /** What the C types can hold. */
  predicate Storable(modTime: int, atime: int, t: Tags) {
    && InRange(TIME_T, modTime) && InRange(TIME_T, atime)
    && |t.artist| < Power(SIZE_T) && |t.album| < Power(SIZE_T) && |t.title| < Power(SIZE_T)
    && InRange(INT, t.track) && InRange(INT, t.year) && InRange(INT, t.time)
  }

  function Texts(t: Tags): seq<Byte> {
    Unsigned(SIZE_T, |t.artist|) + t.artist + Unsigned(SIZE_T, |t.album|) + t.album
    + Unsigned(SIZE_T, |t.title|) + t.title
  }

  function Record(modTime: int, atime: int, t: Tags): seq<Byte>
    requires Storable(modTime, atime, t)
  {
    Signed(TIME_T, modTime) + Signed(TIME_T, atime) + Texts(t)
    + Signed(INT, t.track) + Signed(INT, t.year) + Signed(INT, t.time)
  }

  /** One memcpy to the moving pointer. */
  method Append(buf: array<Byte>, p: nat, x: seq<Byte>) returns (q: nat)
    requires p + |x| <= buf.Length
    modifies buf
    ensures q == p + |x| && buf[..q] == old(buf[..p]) + x
  {
    Fifo.Memcpy(buf, p, x);
    q := p + |x|;
  }

  /** A length and the string, of which nothing is copied when it is empty. */
  method AppendStr(buf: array<Byte>, p: nat, x: seq<Byte>) returns (q: nat)
    requires p + SIZE_T + |x| <= buf.Length
    modifies buf
    ensures q == p + SIZE_T + |x| && buf[..q] == old(buf[..p]) + Unsigned(SIZE_T, |x|) + x
  {
    hide Unsigned;
    q := Append(buf, p, Unsigned(SIZE_T, |x|));
    if |x| != 0 {
      q := Append(buf, q, x);
    }
  }

  method AppendTexts(buf: array<Byte>, p: nat, t: Tags) returns (q: nat)
    requires p + SIZE_T * 3 + |t.artist| + |t.album| + |t.title| <= buf.Length
    modifies buf
    ensures q == p + SIZE_T * 3 + |t.artist| + |t.album| + |t.title| && buf[..q] == old(buf[..p]) + Texts(t)
  {
    hide Unsigned;
    q := AppendStr(buf, p, t.artist);
    q := AppendStr(buf, q, t.album);
    q := AppendStr(buf, q, t.title);
  }

  /** cache_record_serialize */
  method Serialize(modTime: int, atime: int, t: Tags) returns (buf: array<Byte>)
    requires Storable(modTime, atime, t)
    ensures fresh(buf) && buf[..] == Record(modTime, atime, t)
  {
    hide Signed, Unsigned, Storable, Power, Texts;
    Fits(modTime, atime, t);
    var len := TIME_T + TIME_T + SIZE_T * 3 + |t.artist| + |t.album| + |t.title| + INT + INT + INT;
    buf := new Byte[len];
    var p := Append(buf, 0, Signed(TIME_T, modTime));
    p := Append(buf, p, Signed(TIME_T, atime));
    p := AppendTexts(buf, p, t);
    p := Append(buf, p, Signed(INT, t.track));
    p := Append(buf, p, Signed(INT, t.year));
    p := Append(buf, p, Signed(INT, t.time));
    assert buf[..0] == [] && buf[..] == buf[..p];
  }

  lemma Fits(modTime: int, atime: int, t: Tags)
    requires Storable(modTime, atime, t)
    ensures modTime + Power(TIME_T) >= 0 && atime + Power(TIME_T) >= 0
    ensures t.track + Power(INT) >= 0 && t.year + Power(INT) >= 0 && t.time + Power(INT) >= 0
  {
  }

  // ---------- the parser ----------

  /** The pointer's offset, and bytes_left. */
  datatype Cursor = Cursor(p: nat, left: nat)

  /** `Short` is the parser's own error. `Past` is a read past the end of the record, which
      the parser's count of bytes left does not prevent, as strings are not deducted from it. */
  datatype Got<+T> = Short | Past | Got(value: T, at: Cursor)
  {
    predicate IsFailure() { !Got? }

    function PropagateFailure<U>(): Got<U>
      requires IsFailure()
    {
      if Short? then Short else Past
    }

    function Extract(): (T, Cursor)
      requires Got?
    {
      (value, at)
    }
  }

  /** extract_num on a `k`-byte variable */
  function GetNum(s: seq<Byte>, c: Cursor, k: nat): (r: Got<int>)
  {
    if c.left < k then Short
    else if c.p + k > |s| then Past
    else Got(SignedValue(s[c.p..c.p + k]), Cursor(c.p + k, c.left - k))
  }

  /** extract_str */
  function GetStr(s: seq<Byte>, c: Cursor): (r: Got<seq<Byte>>)
  {
    if c.left < SIZE_T then Short
    else if c.p + SIZE_T > |s| then Past
    else
      var n, p := Value(s[c.p..c.p + SIZE_T]), c.p + SIZE_T;
      if c.left < n then Short
      else if p + n > |s| then Past
      else Got(s[p..p + n], Cursor(p + n, c.left))
  }

  /** The tags as the parser leaves them: which are filled depends on the title and time. */
  function Settled(t: Tags): Tags {
    t.(artist := if t.title == [] then [] else t.artist, album := if t.title == [] then [] else t.album,
       comments := t.title != [], timed := t.time >= 0)
  }

  function Parse(s: seq<Byte>, skipTags: bool): (r: Got<Entry>)
  {
    var modTime :- GetNum(s, Cursor(0, |s|), TIME_T);
    var atime :- GetNum(s, modTime.1, TIME_T);
    if skipTags then Got(Entry(modTime.0, atime.0, None), atime.1)
    else
      var artist :- GetStr(s, atime.1);
      var album :- GetStr(s, artist.1);
      var title :- GetStr(s, album.1);
      var track :- GetNum(s, title.1, INT);
      var year :- GetNum(s, track.1, INT);
      var time :- GetNum(s, year.1, INT);
      var t := Settled(Tags(title.0, artist.0, album.0, track.0, year.0, time.0, false, false));
      Got(Entry(modTime.0, atime.0, Some(t)), time.1)
  }

  /** cache_record_deserialize */
  method Deserialize(serialized: array<Byte>, skipTags: bool) returns (r: Got<Entry>)
    ensures r == Parse(serialized[..], skipTags)
  {
    hide GetNum, GetStr, Settled;
    ghost var s := serialized[..];
    var modTime :- ExtractNum(serialized, Cursor(0, serialized.Length), TIME_T);
    var atime :- ExtractNum(serialized, modTime.1, TIME_T);
    if skipTags {
      return Got(Entry(modTime.0, atime.0, None), atime.1);
    }
    var artist :- ExtractStr(serialized, atime.1);
    var album :- ExtractStr(serialized, artist.1);
    var title :- ExtractStr(serialized, album.1);
    var track :- ExtractNum(serialized, title.1, INT);
    var year :- ExtractNum(serialized, track.1, INT);
    var time :- ExtractNum(serialized, year.1, INT);
    var tags := Tags(title.0, artist.0, album.0, track.0, year.0, time.0, false, false);
    r := Got(Entry(modTime.0, atime.0, Some(Settled(tags))), time.1);
  }

  method ExtractNum(serialized: array<Byte>, c: Cursor, k: nat) returns (r: Got<int>)
    ensures r == GetNum(serialized[..], c, k)
  {
    if c.left < k {
      return Short;
    }
    if c.p + k > serialized.Length {
      return Past;
    }
    assert serialized[..][c.p..c.p + k] == serialized[c.p..c.p + k];
    r := Got(SignedValue(serialized[c.p..c.p + k]), Cursor(c.p + k, c.left - k));
  }

  method ExtractStr(serialized: array<Byte>, c: Cursor) returns (r: Got<seq<Byte>>)
    ensures r == GetStr(serialized[..], c)
  {
    hide Value;
    if c.left < SIZE_T {
      return Short;
    }
    if c.p + SIZE_T > serialized.Length {
      return Past;
    }
    assert serialized[..][c.p..c.p + SIZE_T] == serialized[c.p..c.p + SIZE_T];
    var n, p := Value(serialized[c.p..c.p + SIZE_T]), c.p + SIZE_T;
    if c.left < n {
      return Short;
    }
    if p + n > serialized.Length {
      return Past;
    }
    assert serialized[..][p..p + n] == serialized[p..p + n];
    r := Got(serialized[p..p + n], Cursor(p + n, c.left));
  }

  // ---------- round trip ----------

  /** In `s`, the piece `x` stands between `pre` and `rest`. */
  lemma Piece(s: seq<Byte>, pre: seq<Byte>, x: seq<Byte>, rest: seq<Byte>)
    requires s == pre + x + rest
    ensures s == pre + (x + rest) && s[|pre|..|pre| + |x|] == x && |pre| + |x| <= |s|
  {
  }

  lemma GetNumBack(s: seq<Byte>, p: nat, left: nat, k: nat, v: int)
    requires InRange(k, v) && v + Power(k) >= 0 && p + k <= |s| && k <= left && s[p..p + k] == Signed(k, v)
    ensures GetNum(s, Cursor(p, left), k) == Got(v, Cursor(p + k, left - k))
  {
    SignedRoundTrip(k, v);
  }

  lemma GetStrBack(s: seq<Byte>, p: nat, left: nat, x: seq<Byte>)
    requires |x| < Power(SIZE_T) && p + SIZE_T + |x| <= |s| && SIZE_T <= left && |x| <= left
    requires s[p..p + SIZE_T] == Unsigned(SIZE_T, |x|) && s[p + SIZE_T..p + SIZE_T + |x|] == x
    ensures GetStr(s, Cursor(p, left)) == Got(x, Cursor(p + SIZE_T + |x|, left))
  {
    hide *;
    ValueUnsigned(SIZE_T, |x|);
    StrAt(s, p, left, s[p..p + SIZE_T], x);
  }

  lemma StrAt(s: seq<Byte>, p: nat, left: nat, w: seq<Byte>, x: seq<Byte>)
    requires p + SIZE_T + |x| <= |s| && SIZE_T <= left && |x| <= left
    requires s[p..p + SIZE_T] == w && Value(w) == |x| && s[p + SIZE_T..p + SIZE_T + |x|] == x
    ensures GetStr(s, Cursor(p, left)) == Got(x, Cursor(p + SIZE_T + |x|, left))
  {
    hide Value;
  }

  lemma Regrouped(modTime: int, atime: int, t: Tags)
    requires Storable(modTime, atime, t) && modTime + Power(8) >= 0 && atime + Power(8) >= 0
    requires t.track + Power(4) >= 0 && t.year + Power(4) >= 0 && t.time + Power(4) >= 0
    ensures Record(modTime, atime, t) ==
            Signed(8, modTime) + Signed(8, atime)
            + Unsigned(8, |t.artist|) + t.artist + Unsigned(8, |t.album|) + t.album
            + Unsigned(8, |t.title|) + t.title + Signed(4, t.track) + Signed(4, t.year) + Signed(4, t.time)
  {
    hide Signed, Unsigned, Power;
    var h := Signed(8, modTime) + Signed(8, atime);
    assert h + Texts(t) ==
           h + Unsigned(8, |t.artist|) + t.artist + Unsigned(8, |t.album|) + t.album + Unsigned(8, |t.title|) + t.title;
  }

  /** Where the eleven pieces of a record stand. */
  lemma Layout(modTime: int, atime: int, t: Tags)
    requires Storable(modTime, atime, t)
    ensures var s, a, b, c := Record(modTime, atime, t), |t.artist|, |t.album|, |t.title|;
      && |s| == 52 + a + b + c
      && s[0..8] == Signed(8, modTime) && s[8..16] == Signed(8, atime)
      && s[16..24] == Unsigned(8, a) && s[24..24 + a] == t.artist
      && s[24 + a..32 + a] == Unsigned(8, b) && s[32 + a..32 + a + b] == t.album
      && s[32 + a + b..40 + a + b] == Unsigned(8, c) && s[40 + a + b..40 + a + b + c] == t.title
      && s[40 + a + b + c..44 + a + b + c] == Signed(4, t.track)
      && s[44 + a + b + c..48 + a + b + c] == Signed(4, t.year)
      && s[48 + a + b + c..52 + a + b + c] == Signed(4, t.time)
  {
    hide Signed, Unsigned, Power;
    Fits(modTime, atime, t);
    Regrouped(modTime, atime, t);
    var s := Record(modTime, atime, t);
    var x0, x1 := Signed(TIME_T, modTime), Signed(TIME_T, atime);
    var x2, x3, x4 := Unsigned(SIZE_T, |t.artist|), Unsigned(SIZE_T, |t.album|), Unsigned(SIZE_T, |t.title|);
    var x5, x6, x7 := Signed(INT, t.track), Signed(INT, t.year), Signed(INT, t.time);
    var p1 := x0 + x1;
    var p2 := p1 + x2;
    var p3 := p2 + t.artist;
    var p4 := p3 + x3;
    var p5 := p4 + t.album;
    var p6 := p5 + x4;
    var p7 := p6 + t.title;
    var p8 := p7 + x5;
    var p9 := p8 + x6;
    var r9 := x7;
    assert s == p9 + x7 + [];
    Piece(s, p9, x7, []);
    Piece(s, p8, x6, x7 + []);
    Piece(s, p7, x5, x6 + (x7 + []));
    var r7 := x5 + (x6 + (x7 + []));
    Piece(s, p6, t.title, r7);
    Piece(s, p5, x4, t.title + r7);
    Piece(s, p4, t.album, x4 + (t.title + r7));
    var r4 := t.album + (x4 + (t.title + r7));
    Piece(s, p3, x3, r4);
    Piece(s, p2, t.artist, x3 + r4);
    Piece(s, p1, x2, t.artist + (x3 + r4));
    var r1 := x2 + (t.artist + (x3 + r4));
    Piece(s, x0, x1, r1);
    assert s == [] + x0 + (x1 + r1);
    Piece(s, [], x0, x1 + r1);
  }

  /** Reading a record back gives what was stored, with the artist and album cleared when
      there is no title and the filled bits derived from the title and the time. */
  lemma RecordRoundTrip(modTime: int, atime: int, t: Tags)
    requires Storable(modTime, atime, t)
    ensures var s := Record(modTime, atime, t);
      && Parse(s, false) == Got(Entry(modTime, atime, Some(Settled(t))), Cursor(|s|, |s| - 28))
      && Parse(s, true) == Got(Entry(modTime, atime, None), Cursor(16, |s| - 16))
  {
    hide GetNum, GetStr, Signed, Unsigned, Power, Record, InRange;
    Layout(modTime, atime, t);
    Ranges(modTime, atime, t);
    var s, a, b, c := Record(modTime, atime, t), |t.artist|, |t.album|, |t.title|;
    GetNumBack(s, 0, |s|, 8, modTime);
    GetNumBack(s, 8, |s| - 8, 8, atime);
    GetStrBack(s, 16, |s| - 16, t.artist);
    GetStrBack(s, 24 + a, |s| - 16, t.album);
    GetStrBack(s, 32 + a + b, |s| - 16, t.title);
    GetNumBack(s, 40 + a + b + c, |s| - 16, 4, t.track);
    GetNumBack(s, 44 + a + b + c, |s| - 20, 4, t.year);
    GetNumBack(s, 48 + a + b + c, |s| - 24, 4, t.time);
  }

  lemma Ranges(modTime: int, atime: int, t: Tags)
    requires Storable(modTime, atime, t)
    ensures InRange(8, modTime) && InRange(8, atime) && InRange(4, t.track) && InRange(4, t.year) && InRange(4, t.time)
    ensures |t.artist| < Power(8) && |t.album| < Power(8) && |t.title| < Power(8)
  {
  }

  /** Tags whose comments bit is clear hold none of the texts. */
  predicate Clean(t: Tags) {
    !t.comments ==> t.title == [] && t.artist == [] && t.album == []
  }

  /** Whatever bytes were stored, tags read from the cache satisfy the assertion of
      read_file_tags. */
  lemma ParsedIsClean(s: seq<Byte>)
    ensures var r := Parse(s, false);
      r.Got? ==>
        && r.value.tags.Some? && Clean(r.value.tags.value)
        && (r.value.tags.value.timed ==> r.value.tags.value.time >= 0)
  {
    hide GetNum, GetStr;
  }

  /** Reading the times alone never leaves the record. */
  lemma TimesStayInside(s: seq<Byte>)
    ensures Parse(s, true) != Past
  {
  }

  /** The length stored at offset `p`. */
  function LengthAt(s: seq<Byte>, p: nat): nat
    requires p + SIZE_T <= |s|
  {
    Value(s[p..p + SIZE_T])
  }

  /** The three stored lengths are each small enough for the parser, which compares them with
      what follows the two times, and yet the pieces up to some point do not fit the record:
      52 bytes hold the numbers and the lengths. */
  predicate Overruns(s: seq<Byte>) {
    var n := |s|;
    n >= 24 &&
    var a := LengthAt(s, 16);
    a <= n - 16 && (
      32 + a > n ||
      var b := LengthAt(s, 24 + a);
      b <= n - 16 && (
        40 + a + b > n ||
        var c := LengthAt(s, 32 + a + b);
        c <= n - 16 && 52 + a + b + c > n))
  }

  /** Reading a record with its tags leaves it exactly when its stored lengths say so. */
  lemma LeavesRecordExactly(s: seq<Byte>)
    ensures Parse(s, false) == Past <==> Overruns(s)
  {
    hide Value, SignedValue, Settled;
  }

  /** Such a record is 24 zero bytes: after an empty artist the length of the album is read
      beyond the end. */
  lemma ZeroesLeaveRecord()
    ensures Parse(seq(24, _ => 0), false) == Past
  {
    var s: seq<Byte> := seq(24, _ => 0);
    ZeroValue(s[16..24]);
    hide Value, Parse;
    LeavesRecordExactly(s);
  }

  lemma {:induction false} ZeroValue(b: seq<Byte>)
    requires forall i :: 0 <= i < |b| ==> b[i] == 0
    ensures Value(b) == 0
  {
    if b != [] {
      ZeroValue(b[1..]);
    }
  }

  /** What the cache has written is never such a record. */
  lemma StoredNeverOverruns(modTime: int, atime: int, t: Tags)
    requires Storable(modTime, atime, t)
    ensures !Overruns(Record(modTime, atime, t))
  {
    hide Parse, Record, Overruns, Storable;
    RecordRoundTrip(modTime, atime, t);
    LeavesRecordExactly(Record(modTime, atime, t));
  }
}
