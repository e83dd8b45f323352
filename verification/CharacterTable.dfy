/** The character table of the auth server: create, delete and list requests of all accounts. */
module CharacterTable {
  import opened Prelude
  import opened CharacterList

  const NAME_MAX := 31

  type Int16 = x: int | -0x8000 <= x < 0x8000

  datatype Row = Row(account: int, name: Text, classId: Int16)

  type Table = map<Int32, Row>

  // ----- names -----

  predicate Blank(b: Byte) {
    b == 32 || b == 9 || b == 13 || b == 10
  }

  function DropLeft(s: Text): (r: Text)
    ensures |r| <= |s| && r == s[|s| - |r|..] && (forall i :: 0 <= i < |s| - |r| ==> Blank(s[i]))
    ensures r != [] ==> !Blank(r[0])
  {
    if s != [] && Blank(s[0]) then DropLeft(s[1..]) else s
  }

  function DropRight(s: Text): (r: Text)
    ensures r <= s && (forall i :: |r| <= i < |s| ==> Blank(s[i]))
    ensures r != [] ==> !Blank(r[|r| - 1])
  {
    if s != [] && Blank(s[|s| - 1]) then DropRight(s[..|s| - 1]) else s
  }

  /** A requested name up to its first NUL, without blanks around it. */
  function Trim(raw: Text): Text {
    DropRight(DropLeft(CString(raw)))
  }

  /** Names that trimming leaves alone. */
  predicate Trimmed(s: Text) {
    0 !in s && (s != [] ==> !Blank(s[0]) && !Blank(s[|s| - 1]))
  }

  lemma TrimIsTrimmed(raw: Text)
    ensures Trimmed(Trim(raw))
  {
    var s := CString(raw);
    var l, t := DropLeft(s), Trim(raw);
    forall b | b in t ensures b in s {
      var i :| 0 <= i < |t| && t[i] == b;
      assert l[i] == b && s[|s| - |l| + i] == b;
    }
    if t != [] {
      assert t[0] == l[0];
    }
  }

  /** What trimming takes away: blanks around the name, and a NUL with all that follows. */
  lemma TrimTakes(raw: Text) returns (lead: Text, trail: Text)
    ensures CString(raw) == lead + (Trim(raw) + trail)
    ensures (forall i :: 0 <= i < |lead| ==> Blank(lead[i])) && forall i :: 0 <= i < |trail| ==> Blank(trail[i])
  {
    var l := DropLeft(CString(raw));
    lead := LeftTakes(CString(raw));
    trail := RightTakes(l);
  }

  lemma LeftTakes(s: Text) returns (lead: Text)
    ensures s == lead + DropLeft(s) && forall i :: 0 <= i < |lead| ==> Blank(lead[i])
  {
    lead := s[..|s| - |DropLeft(s)|];
    assert s == lead + s[|lead|..];
  }

  lemma RightTakes(s: Text) returns (trail: Text)
    ensures s == DropRight(s) + trail && forall i :: 0 <= i < |trail| ==> Blank(trail[i])
  {
    trail := s[|DropRight(s)|..];
  }

  /** Exactly the trimmed names stay as they are. */
  lemma TrimFixes(raw: Text)
    ensures Trim(raw) == raw <==> Trimmed(raw)
  {
    TrimIsTrimmed(raw);
    if Trimmed(raw) {
      assert CString(raw) == raw;
    }
  }

  method CutAtNul(raw: Text) returns (s: Text)
    ensures s == CString(raw)
  {
    var n := 0;
    while n < |raw| && raw[n] != 0
      invariant n <= |raw| && 0 !in raw[..n]
    {
      n := n + 1;
    }
    s := raw[..n];
    if n < |raw| {
      CStringIs(raw, s);
    } else {
      assert s == raw && CString(raw) == raw;
    }
  }

  method SkipBlanks(s: Text) returns (r: Text)
    ensures r == DropLeft(s)
  {
    var from := 0;
    assert s[0..] == s;
    while from < |s| && Blank(s[from])
      invariant from <= |s| && DropLeft(s) == DropLeft(s[from..])
    {
      assert s[from..][1..] == s[from + 1..];
      from := from + 1;
    }
    r := s[from..];
  }

  method CutBlanks(s: Text) returns (r: Text)
    ensures r == DropRight(s)
  {
    var to := |s|;
    assert s[..|s|] == s;
    while to > 0 && Blank(s[to - 1])
      invariant 0 <= to <= |s| && DropRight(s) == DropRight(s[..to])
    {
      assert s[..to][..to - 1] == s[..to - 1];
      to := to - 1;
    }
    r := s[..to];
  }

  /** The three erase calls on a copy of the name. */
  method CleanName(raw: Text) returns (name: Text)
    ensures name == Trim(raw)
  {
    name := CutAtNul(raw);
    name := SkipBlanks(name);
    name := CutBlanks(name);
  }

  // ----- requests -----

  predicate Taken(t: Table, name: Text) {
    exists id :: id in t && t[id].name == name
  }

  predicate Accepted(t: Table, raw: Text) {
    1 <= |Trim(raw)| <= NAME_MAX && !Taken(t, Trim(raw))
  }

  predicate Owns(t: Table, account: int, id: Int32) {
    id in t && t[id].account == account
  }

  /** `newId` is the identifier the database gives to an inserted row. */
  datatype Request =
    | Create(account: int, raw: Text, classId: Int16, newId: Int32)
    | Delete(account: int, id: Int32)
    | Read(account: int)

  function Apply(t: Table, r: Request): Table {
    match r
    case Create(account, raw, classId, newId) =>
      if Accepted(t, raw) then t[newId := Row(account, Trim(raw), classId)] else t
    case Delete(account, id) => if Owns(t, account, id) then t - {id} else t
    case Read(_) => t
  }

  // ----- what every run keeps -----

  predicate WellNamed(t: Table, id: Int32) {
    id in t ==> 1 <= |t[id].name| <= NAME_MAX && Trimmed(t[id].name)
  }

  predicate Distinct(t: Table, id: Int32, other: Int32) {
    id in t && other in t && id != other ==> t[id].name != t[other].name
  }

  ghost predicate TableInv(t: Table) {
    (forall id :: WellNamed(t, id)) && forall id, other :: Distinct(t, id, other)
  }

  /** Fresh identifiers, as AUTO_INCREMENT gives them. */
  predicate FreshId(t: Table, r: Request) {
    r.Create? ==> r.newId !in t
  }

  lemma InsertKeepsTable(t: Table, id: Int32, row: Row)
    requires TableInv(t) && id !in t && !Taken(t, row.name) && 1 <= |row.name| <= NAME_MAX && Trimmed(row.name)
    ensures TableInv(t[id := row])
  {
    var t1 := t[id := row];
    forall k ensures WellNamed(t1, k) {
      assert WellNamed(t, k);
    }
    forall k, other ensures Distinct(t1, k, other) {
      assert Distinct(t, k, other);
      assert k in t && t[k].name == row.name ==> Taken(t, row.name);
      assert other in t && t[other].name == row.name ==> Taken(t, row.name);
    }
  }

  lemma EraseKeepsTable(t: Table, id: Int32)
    requires TableInv(t)
    ensures TableInv(t - {id})
  {
    forall k ensures WellNamed(t - {id}, k) {
      assert WellNamed(t, k);
    }
    forall k, other ensures Distinct(t - {id}, k, other) {
      assert Distinct(t, k, other);
    }
  }

  lemma ApplyKeepsTable(t: Table, r: Request)
    requires TableInv(t) && FreshId(t, r)
    ensures TableInv(Apply(t, r))
  {
    match r
    case Create(account, raw, classId, newId) =>
      if Accepted(t, raw) {
        TrimIsTrimmed(raw);
        InsertKeepsTable(t, newId, Row(account, Trim(raw), classId));
      }
    case Delete(account, id) => EraseKeepsTable(t, id);
    case Read(_) =>
  }

  function Run(t: Table, rs: seq<Request>): Table
    decreases |rs|
  {
    if rs == [] then t else Run(Apply(t, rs[0]), rs[1..])
  }

  ghost predicate FreshRun(t: Table, rs: seq<Request>)
    decreases |rs|
  {
    rs == [] || (FreshId(t, rs[0]) && FreshRun(Apply(t, rs[0]), rs[1..]))
  }

  /** Over every run of requests: names stay distinct, trimmed, non-empty and at most 31 bytes. */
  lemma {:induction false} RunsKeepTable(t: Table, rs: seq<Request>)
    requires TableInv(t) && FreshRun(t, rs)
    ensures TableInv(Run(t, rs))
    decreases |rs|
  {
    if rs != [] {
      ApplyKeepsTable(t, rs[0]);
      RunsKeepTable(Apply(t, rs[0]), rs[1..]);
    }
  }

  predicate RowKept(t: Table, t1: Table, account: int, id: Int32) {
    (Owns(t, account, id) <==> Owns(t1, account, id)) && (Owns(t, account, id) ==> t1[id] == t[id])
  }

  /** Over every run, the rows of an account change only by that account's requests. */
  lemma {:induction false} RunsSpareOthers(t: Table, rs: seq<Request>, account: int, id: Int32)
    requires FreshRun(t, rs) && forall r :: r in rs ==> r.account != account
    ensures RowKept(t, Run(t, rs), account, id)
    decreases |rs|
  {
    if rs != [] {
      assert rs[0] in rs;
      assert RowKept(t, Apply(t, rs[0]), account, id);
      RunsSpareOthers(Apply(t, rs[0]), rs[1..], account, id);
    }
  }

  /** After an accepted create, the query by name and account finds the inserted row and no other,
      so the identifier it reports is the new one. */
  lemma CreatedIdIsFound(t: Table, account: int, raw: Text, classId: Int16, newId: Int32, id: Int32)
    requires newId !in t && Accepted(t, raw)
    ensures var t1 := Apply(t, Create(account, raw, classId, newId));
      id in t1 && t1[id].name == Trim(raw) && t1[id].account == account <==> id == newId
  {
    assert id in t && t[id].name == Trim(raw) ==> Taken(t, Trim(raw));
  }

  /** A name becomes available again exactly by deleting the row that has it. */
  lemma DeleteFreesName(t: Table, account: int, id: Int32, raw: Text)
    requires TableInv(t) && 1 <= |Trim(raw)| <= NAME_MAX && Taken(t, Trim(raw))
    ensures Accepted(Apply(t, Delete(account, id)), raw) <==> Owns(t, account, id) && t[id].name == Trim(raw)
  {
    NameFreed(t, account, id, Trim(raw));
  }

  lemma NameFreed(t: Table, account: int, id: Int32, name: Text)
    requires TableInv(t) && Taken(t, name)
    ensures Taken(Apply(t, Delete(account, id)), name) <==> !(Owns(t, account, id) && t[id].name == name)
  {
    var t1 := Apply(t, Delete(account, id));
    var holder :| holder in t && t[holder].name == name;
    if Owns(t, account, id) && t[id].name == name {
      assert forall other :: other in t1 ==> Distinct(t, id, other);
    } else {
      assert holder in t1 && t1[holder].name == name;
    }
  }

  // ----- the list reply -----

  /** The identifiers of an account's rows in some order, as a query returns them. */
  ghost predicate Lists(ids: seq<Int32>, t: Table, account: int) {
    NoDuplicates(ids) && forall id :: id in ids <==> Owns(t, account, id)
  }

  /** The rows of an account, listed in the order of `ids`. */
  function Listed(t: Table, ids: seq<Int32>): (rows: seq<Entry>)
    requires forall id :: id in ids ==> id in t
    ensures |rows| == |ids|
  {
    seq(|ids|, i requires 0 <= i < |ids| => assert ids[i] in ids; Entry(ids[i], t[ids[i]].name, t[ids[i]].classId))
  }

  /** What the rows of an account look like to its client, in the order of `ids`: identifier, name and
      class. */
  ghost predicate ShowsRows(t: Table, ids: seq<Int32>, shown: Listing) {
    && shown.count == |shown.entries| == |ids|
    && forall i :: 0 <= i < |ids| ==> ids[i] in t && shown.entries[i] == Entry(ids[i], t[ids[i]].name, t[ids[i]].classId)
  }

  /** A client is shown exactly its account's rows, in the order of the database, as long as there
      are at most 127: the table never holds a name or class that the layout would change. */
  lemma ListShowsAccount(t: Table, account: int, ids: seq<Int32>, shown: Listing)
    requires TableInv(t) && Lists(ids, t, account) && Shows(Listed(t, ids), shown)
    ensures ShowsRows(t, ids, shown) <==> |ids| <= 127
  {
    var rows := Listed(t, ids);
    ShowsAllIff(rows, shown);
    forall i | 0 <= i < |rows| ensures ids[i] in t && Plain(rows[i]) {
      assert ids[i] in ids;
      assert WellNamed(t, ids[i]);
    }
    if ShowsRows(t, ids, shown) {
      assert shown.entries == rows;
    }
  }

  /** After an accepted create the account's client is shown the new row, with the trimmed name and the
      class that was asked for. */
  lemma CreatedIsShown(t: Table, r: Request, t1: Table, ids: seq<Int32>, shown: Listing)
    requires TableInv(t) && r.Create? && r.newId !in t && Accepted(t, r.raw) && t1 == Apply(t, r)
    requires Lists(ids, t1, r.account) && |ids| <= 127 && Shows(Listed(t1, ids), shown)
    ensures Entry(r.newId, Trim(r.raw), r.classId) in shown.entries
  {
    ApplyKeepsTable(t, r);
    ListShowsAccount(t1, r.account, ids, shown);
    assert r.newId in ids;
    var i :| 0 <= i < |ids| && ids[i] == r.newId;
    assert shown.entries[i] == Entry(r.newId, Trim(r.raw), r.classId);
  }

  /** After a delete by the owner the row is not shown, and the account's others are as before. */
  lemma DeletedIsNotShown(t: Table, r: Request, t1: Table, ids: seq<Int32>, shown: Listing, e: Entry)
    requires TableInv(t) && r.Delete? && Owns(t, r.account, r.id) && t1 == Apply(t, r)
    requires Lists(ids, t1, r.account) && |ids| <= 127 && Shows(Listed(t1, ids), shown)
    ensures e in shown.entries <==>
      e.charId != r.id && Owns(t, r.account, e.charId) && e == Entry(e.charId, t[e.charId].name, t[e.charId].classId)
  {
    ApplyKeepsTable(t, r);
    ListShowsAccount(t1, r.account, ids, shown);
    if Owns(t1, r.account, e.charId) {
      assert e.charId in ids;
      var i :| 0 <= i < |ids| && ids[i] == e.charId;
      assert shown.entries[i] == Entry(e.charId, t1[e.charId].name, t1[e.charId].classId);
    }
    if e in shown.entries {
      var i :| 0 <= i < |ids| && shown.entries[i] == e;
      assert ids[i] in ids;
    }
  }
}
