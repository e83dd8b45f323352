/** The character list packet: the server's byte layout and the client's reading of it. */
module CharacterList {
  import opened Prelude

  const CHAR_LIST_RESULT := 1041
  const HEADER := 3
  const ENTRY := 38
  const NAME := 32

  type Int32 = x: int | -0x8000_0000 <= x < 0x8000_0000

  /** One entry, as the database gives it and as the client shows it. */
  datatype Entry = Entry(charId: Int32, name: seq<Byte>, classId: Int32)

  // ----- little-endian integers in two's complement -----

  function Low2(n: int): (b: seq<Byte>)
    ensures |b| == 2
  {
    [n % 0x100, n / 0x100 % 0x100]
  }

  function Low4(n: int): (b: seq<Byte>)
    ensures |b| == 4
  {
    Low2(n) + Low2(n / 0x1_0000)
  }

  function Signed8(b: Byte): int {
    if b < 0x80 then b else b as int - 0x100
  }

  function Signed16(b0: Byte, b1: Byte): Int32 {
    b0 as int + 0x100 * Signed8(b1)
  }

  function Signed32(b0: Byte, b1: Byte, b2: Byte, b3: Byte): Int32 {
    b0 as int + 0x100 * b1 as int + 0x1_0000 * Signed16(b2, b3)
  }

  /** The value a cast to int16_t leaves. */
  function Cast16(n: int): Int32 {
    (n + 0x8000) % 0x1_0000 - 0x8000
  }

  lemma Low2Back(n: int)
    ensures Signed16(Low2(n)[0], Low2(n)[1]) == Cast16(n)
  {
  }

  lemma Low4Back(n: Int32)
    ensures Signed32(Low4(n)[0], Low4(n)[1], Low4(n)[2], Low4(n)[3]) == n
  {
    Low2Back(n / 0x1_0000);
    assert Low2(n)[0] as int + 0x100 * Low2(n)[1] as int == n % 0x1_0000;
  }

  // ----- C strings -----

  /** The bytes before the first NUL. */
  function CString(s: seq<Byte>): (r: seq<Byte>)
    ensures r <= s && 0 !in r
    ensures |r| < |s| ==> s[|r|] == 0
  {
    if s == [] || s[0] == 0 then [] else [s[0]] + CString(s[1..])
  }

  lemma {:induction false} CStringIs(s: seq<Byte>, r: seq<Byte>)
    requires r <= s && 0 !in r && |r| < |s| && s[|r|] == 0
    ensures CString(s) == r
    decreases |r|
  {
    if r != [] {
      assert s[0] == r[0] && r[0] in r;
      CStringIs(s[1..], r[1..]);
      assert r == [r[0]] + r[1..];
    }
  }

  /** What strncpy keeps of a name in a 32-byte field whose last byte stays NUL. */
  function Kept(name: seq<Byte>): (r: seq<Byte>)
    ensures |r| < NAME && 0 !in r
  {
    var s := CString(name);
    if |s| < NAME then s else s[..NAME - 1]
  }

  /** A name keeps its bytes up to the first NUL, but at most the first 31. */
  lemma KeptIs(name: seq<Byte>)
    ensures Kept(name) <= name
    ensures |Kept(name)| == 31 || |Kept(name)| == |name| || name[|Kept(name)|] == 0
  {
  }

  function NameField(name: seq<Byte>): (f: seq<Byte>)
    ensures |f| == NAME
  {
    var s := Kept(name);
    seq(NAME, i requires 0 <= i < NAME => if i < |s| then s[i] else 0)
  }

  // ----- the server's layout -----

  function Header(count: nat): (h: seq<Byte>)
    ensures |h| == HEADER
  {
    Low2(CHAR_LIST_RESULT) + [count % 0x100]
  }

  function EntryBytes(e: Entry): (b: seq<Byte>)
    ensures |b| == ENTRY
  {
    Low4(e.charId) + NameField(e.name) + Low2(e.classId)
  }

  function Entries(rows: seq<Entry>): (b: seq<Byte>)
    ensures |b| == ENTRY * |rows|
  {
    if rows == [] then [] else Entries(rows[..|rows| - 1]) + EntryBytes(rows[|rows| - 1])
  }

  /** The packet: 3 + 38 * count bytes, the count cut to one byte. */
  function Layout(rows: seq<Entry>): seq<Byte> {
    Header(|rows|) + Entries(rows)
  }

  lemma PrefixGrows(s: seq<Byte>, at: nat, before: seq<Byte>, part: seq<Byte>)
    requires at + |part| <= |s| && s[..at] == before && s[at..at + |part|] == part
    ensures s[..at + |part|] == before + part
  {
  }

  method WriteName(buf: array<Byte>, at: nat, name: seq<Byte>, ghost before: seq<Byte>)
    requires at + NAME <= buf.Length && buf[..at] == before
    modifies buf
    ensures buf[..at + NAME] == before + NameField(name)
  {
    var s := CString(name);
    for i := 0 to NAME
      invariant forall k :: 0 <= k < i ==> buf[at + k] == NameField(name)[k]
      invariant buf[..at] == before
    {
      buf[at + i] := if i < |s| && i < NAME - 1 then s[i] else 0;
    }
    PrefixGrows(buf[..], at, before, NameField(name));
  }

  method WriteLow(buf: array<Byte>, at: nat, bytes: seq<Byte>, ghost before: seq<Byte>)
    requires at + |bytes| <= buf.Length && buf[..at] == before
    modifies buf
    ensures buf[..at + |bytes|] == before + bytes
  {
    for i := 0 to |bytes|
      invariant forall k :: 0 <= k < i ==> buf[at + k] == bytes[k]
      invariant buf[..at] == before
    {
      buf[at + i] := bytes[i];
    }
    PrefixGrows(buf[..], at, before, bytes);
  }

  lemma ThreeParts(before: seq<Byte>, a: seq<Byte>, b: seq<Byte>, c: seq<Byte>)
    ensures before + a + b + c == before + (a + b + c)
  {
    AppendAssociates(before, a, b);
    AppendAssociates(before, a + b, c);
  }

  method WriteEntry(buf: array<Byte>, at: nat, e: Entry, ghost before: seq<Byte>)
    requires at + ENTRY <= buf.Length && buf[..at] == before
    modifies buf
    ensures buf[..at + ENTRY] == before + EntryBytes(e)
  {
    ghost var id, classBytes := Low4(e.charId), Low2(e.classId);
    WriteLow(buf, at, Low4(e.charId), before);
    WriteName(buf, at + 4, e.name, before + id);
    WriteLow(buf, at + 36, Low2(e.classId), before + id + NameField(e.name));
    ThreeParts(before, id, NameField(e.name), classBytes);
  }

  lemma EntriesGrow(rows: seq<Entry>, i: nat)
    requires i < |rows|
    ensures Entries(rows[..i + 1]) == Entries(rows[..i]) + EntryBytes(rows[i])
  {
    assert rows[..i + 1][..i] == rows[..i];
  }

  method WriteEntries(buf: array<Byte>, rows: seq<Entry>, ghost head: seq<Byte>)
    requires buf.Length == HEADER + ENTRY * |rows| && buf[..HEADER] == head
    modifies buf
    ensures buf[..] == head + Entries(rows)
  {
    ghost var done: seq<Byte> := [];
    assert head + done == head;
    var at := HEADER;
    for i := 0 to |rows|
      invariant done == Entries(rows[..i])
      invariant at == HEADER + ENTRY * i && buf[..at] == head + done
    {
      WriteEntry(buf, at, rows[i], head + done);
      EntriesGrow(rows, i);
      AppendAssociates(head, done, EntryBytes(rows[i]));
      done := done + EntryBytes(rows[i]);
      at := at + ENTRY;
    }
    assert rows[..|rows|] == rows && buf[..buf.Length] == buf[..];
  }

  /** The list reply: one buffer, the header first, then entry by entry. */
  method BuildReply(rows: seq<Entry>) returns (buf: array<Byte>)
    ensures fresh(buf) && buf[..] == Layout(rows)
  {
    buf := new Byte[HEADER + ENTRY * |rows|](_ => 0);
    WriteLow(buf, 0, Header(|rows|), []);
    WriteEntries(buf, rows, Header(|rows|));
  }

  // ----- the client's reading -----

  datatype Listing = Listing(entries: seq<Entry>, count: int)

  function EntryAt(data: seq<Byte>, at: nat): Entry
    requires at + ENTRY <= |data|
  {
    Entry(Signed32(data[at], data[at + 1], data[at + 2], data[at + 3]), CString(data[at + 4..]),
          Signed16(data[at + 36], data[at + 37]))
  }

  /** The reply as the client takes it: the count is signed, and a short packet is ignored. */
  method ReadReply(data: seq<Byte>) returns (r: Option<Listing>)
    ensures r.None? <==> |data| < HEADER || |data| < HEADER + ENTRY * Signed8(data[2])
    ensures r.Some? ==>
      var count := Signed8(data[2]);
      && r.value.count == count && |r.value.entries| == (if count < 0 then 0 else count)
      && forall i :: 0 <= i < count ==> r.value.entries[i] == EntryAt(data, HEADER + ENTRY * i)
  {
    if |data| < HEADER {
      return None;
    }
    var count := Signed8(data[2]);
    if |data| < HEADER + ENTRY * count {
      return None;
    }
    var entries: seq<Entry> := [];
    var i := 0;
    while i < count
      invariant 0 <= i && (i <= count || i == 0) && |entries| == i
      invariant forall k :: 0 <= k < i ==> entries[k] == EntryAt(data, HEADER + ENTRY * k)
    {
      entries := entries + [EntryAt(data, HEADER + ENTRY * i)];
      i := i + 1;
    }
    r := Some(Listing(entries, count));
  }

  // ----- round trip -----

  /** An entry after both conversions. */
  function Shown(e: Entry): Entry {
    Entry(e.charId, Kept(e.name), Cast16(e.classId))
  }

  lemma {:induction false} EntriesAt(rows: seq<Entry>, i: nat)
    requires i < |rows|
    ensures Entries(rows)[ENTRY * i..ENTRY * (i + 1)] == EntryBytes(rows[i])
    decreases |rows|
  {
    var init := rows[..|rows| - 1];
    if i < |init| {
      EntriesAt(init, i);
      SliceLeft(Entries(init), EntryBytes(rows[|init|]), ENTRY * i, ENTRY * (i + 1));
    } else {
      SliceRight(Entries(init), EntryBytes(rows[i]), 0, ENTRY);
    }
  }

  lemma SliceLeft(a: seq<Byte>, b: seq<Byte>, lo: nat, hi: nat)
    requires lo <= hi <= |a|
    ensures (a + b)[lo..hi] == a[lo..hi]
  {
  }

  lemma SliceRight(a: seq<Byte>, b: seq<Byte>, lo: nat, hi: nat)
    requires lo <= hi <= |b|
    ensures (a + b)[|a| + lo..|a| + hi] == b[lo..hi]
  {
  }

  lemma NameReadsBack(data: seq<Byte>, name: seq<Byte>)
    requires |data| >= NAME && forall k :: 0 <= k < NAME ==> data[k] == NameField(name)[k]
    ensures CString(data) == Kept(name)
  {
    CStringIs(data, Kept(name));
  }

  lemma EntryParts(e: Entry)
    ensures forall k :: 0 <= k < 4 ==> EntryBytes(e)[k] == Low4(e.charId)[k]
    ensures forall k :: 0 <= k < NAME ==> EntryBytes(e)[k + 4] == NameField(e.name)[k]
    ensures forall k :: 0 <= k < 2 ==> EntryBytes(e)[k + 36] == Low2(e.classId)[k]
  {
  }

  lemma SliceAt(data: seq<Byte>, at: nat, b: seq<Byte>, k: nat)
    requires at + |b| <= |data| && data[at..at + |b|] == b && k < |b|
    ensures data[at + k] == b[k]
  {
    assert data[at..at + |b|][k] == data[at + k];
  }

  lemma NumbersReadBack(data: seq<Byte>, at: nat, e: Entry)
    requires at + ENTRY <= |data| && data[at..at + ENTRY] == EntryBytes(e)
    ensures Signed32(data[at], data[at + 1], data[at + 2], data[at + 3]) == e.charId
    ensures Signed16(data[at + 36], data[at + 37]) == Cast16(e.classId)
  {
    var b := EntryBytes(e);
    EntryParts(e);
    SliceAt(data, at, b, 0);
    SliceAt(data, at, b, 1);
    SliceAt(data, at, b, 2);
    SliceAt(data, at, b, 3);
    SliceAt(data, at, b, 36);
    SliceAt(data, at, b, 37);
    Low4Back(e.charId);
    Low2Back(e.classId);
  }

  lemma FieldReadsBack(data: seq<Byte>, at: nat, e: Entry)
    requires at + ENTRY <= |data| && data[at..at + ENTRY] == EntryBytes(e)
    ensures CString(data[at + 4..]) == Kept(e.name)
  {
    EntryParts(e);
    var tail := data[at + 4..];
    forall k | 0 <= k < NAME ensures tail[k] == NameField(e.name)[k] {
      SliceAt(data, at, EntryBytes(e), k + 4);
    }
    NameReadsBack(tail, e.name);
  }

  /** An entry reads back as its shown form wherever its 38 bytes stand. */
  lemma EntryReadsBack(data: seq<Byte>, at: nat, e: Entry)
    requires at + ENTRY <= |data| && data[at..at + ENTRY] == EntryBytes(e)
    ensures EntryAt(data, at) == Shown(e)
  {
    NumbersReadBack(data, at, e);
    FieldReadsBack(data, at, e);
  }

  lemma LayoutHead(rows: seq<Entry>)
    ensures |Layout(rows)| == HEADER + ENTRY * |rows| && Layout(rows)[2] == |rows| % 0x100
    ensures Layout(rows)[0] == 1041 % 256 && Layout(rows)[1] == 1041 / 256
    ensures Signed8(|rows| % 0x100) <= |rows|
  {
  }

  /** What the client shows of the server's reply to any list of characters: the first
      int8_t(count) entries in order, each with its name and class as they were stored. */
  lemma ReplyEntries(rows: seq<Entry>, i: nat)
    requires i < Signed8(|rows| % 0x100)
    ensures i < |rows| && EntryAt(Layout(rows), HEADER + ENTRY * i) == Shown(rows[i])
  {
    LayoutHead(rows);
    EntriesAt(rows, i);
    SliceRight(Header(|rows|), Entries(rows), ENTRY * i, ENTRY * (i + 1));
    assert Layout(rows)[HEADER + ENTRY * i..HEADER + ENTRY * (i + 1)] == Entries(rows)[ENTRY * i..ENTRY * (i + 1)];
    EntryReadsBack(Layout(rows), HEADER + ENTRY * i, rows[i]);
  }

  /** An entry that both conversions leave alone. */
  predicate Plain(e: Entry) {
    |e.name| < NAME && 0 !in e.name && -0x8000 <= e.classId < 0x8000
  }

  lemma ShownIff(e: Entry)
    ensures Shown(e) == e <==> Plain(e)
  {
  }

  /** The list as the client shows it for the server's reply to `rows`. */
  ghost predicate Shows(rows: seq<Entry>, shown: Listing) {
    && shown.count == Signed8(|rows| % 0x100)
    && |shown.entries| == (if shown.count < 0 then 0 else shown.count) <= |rows|
    && forall i :: 0 <= i < |shown.entries| ==> shown.entries[i] == Shown(rows[i])
  }

  /** The client sees the account's own list exactly when there are at most 127 characters, every
      name has at most 31 bytes and no NUL, and every class fits 16 bits. */
  lemma ShowsAllIff(rows: seq<Entry>, shown: Listing)
    requires Shows(rows, shown)
    ensures shown == Listing(rows, |rows|) <==> |rows| <= 127 && forall i :: 0 <= i < |rows| ==> Plain(rows[i])
  {
    forall i | 0 <= i < |rows| ensures Shown(rows[i]) == rows[i] <==> Plain(rows[i]) {
      ShownIff(rows[i]);
    }
    if |rows| <= 127 {
      if forall i :: 0 <= i < |rows| ==> Plain(rows[i]) {
        assert shown.entries == rows;
      }
    } else {
      assert shown.count < 128;
    }
  }

  /** The server's reply as the client lists it, for every list of characters. */
  method ListCharacters(rows: seq<Entry>) returns (shown: Listing)
    ensures Shows(rows, shown)
  {
    var buf := BuildReply(rows);
    var data := buf[..];
    LayoutHead(rows);
    var r := ReadReply(data);
    shown := r.value;
    forall i | 0 <= i < |shown.entries| ensures shown.entries[i] == Shown(rows[i]) {
      ReplyEntries(rows, i);
    }
  }
}
