/** Paging over several staging tables with per-table sub-queries (SelectMany). */
module SelectMany {
  import opened Hlc
  import opened Scan
  import opened Wrappers

  type Table = string

  // A row of the staging tables, before tables are numbered.
  datatype StageKey = StageKey(table: Table, time: Time, key: string)

  datatype Outcome = Done | LimitUnset | DuplicateTable | CallbackFailed

  // The cursor handed in by the caller; the offset fields are advanced in place.
  class Cursor {
    const start: Time
    const end: Time
    const targets: seq<seq<Table>>
    const limit: nat
    const backfill: bool
    var offsetKey: string
    var offsetTable: Option<Table>
    var offsetTime: Time

    constructor (start: Time, end: Time, targets: seq<seq<Table>>, limit: nat, backfill: bool,
                 offsetKey: string, offsetTable: Option<Table>, offsetTime: Time)
      ensures this.start == start && this.end == end && this.targets == targets
      ensures this.limit == limit && this.backfill == backfill
      ensures this.offsetKey == offsetKey && this.offsetTable == offsetTable && this.offsetTime == offsetTime
    {
      this.start, this.end, this.targets, this.limit, this.backfill := start, end, targets, limit, backfill;
      this.offsetKey, this.offsetTable, this.offsetTime := offsetKey, offsetTable, offsetTime;
    }

    // The offset is the last of these rows.
    predicate Behind(r: seq<Pos>)
      reads this
    {
      r != [] &&
      var tables, last := Flatten(targets), r[|r| - 1];
      && last.table < |tables| && offsetTable == Some(tables[last.table])
      && offsetTime == last.time && offsetKey == last.key
    }

    // There is no offset.
    predicate AtOrigin()
      reads this
    {
      offsetKey == "" && offsetTable == None && offsetTime == ZERO
    }

    // The rows that the query selects from an offset on, in order.
    ghost predicate Listing(r: seq<Pos>, db: set<StageKey>, table: Option<Table>, time: Time, key: string) {
      Lists(r, db, Flatten(targets), backfill, table, start, end, if Earlier(time, start) then start else time, key)
    }

    // What the scan from this cursor would deliver.
    ghost function Pending(db: set<StageKey>): seq<Pos>
      reads this
    {
      var tables := Flatten(targets);
      All(OrderOf(backfill), Window(backfill, TableIndex(tables, offsetTable), start, end, Max(start, offsetTime),
                                    offsetKey,
                                    Rows(db, tables)))
    }
  }

  function OrderOf(backfill: bool): Order {
    if backfill then ByTable else ByTime
  }

  function Flatten(groups: seq<seq<Table>>): seq<Table> {
    if groups == [] then [] else groups[0] + Flatten(groups[1..])
  }

  predicate Distinct(s: seq<Table>) {
    forall i, j | 0 <= i < j < |s| :: s[i] != s[j]
  }

  // The position of the offset table among the numbered ones: -1 when no
  // offset table is set, and 0 -- a zero map value -- when it is set but unknown.
  function TableIndex(tables: seq<Table>, offset: Option<Table>): int {
    if offset.None? then -1 else Find(tables, offset.value)
  }

  function Find(tables: seq<Table>, t: Table): (i: nat)
    ensures t in tables ==> i < |tables| && tables[i] == t
    ensures t !in tables ==> i == 0
  {
    if t !in tables then 0 else if tables[0] == t then 0 else 1 + Find(tables[1..], t)
  }

  // The staged rows with their tables numbered.
  function Rows(db: set<StageKey>, tables: seq<Table>): set<Pos> {
    set k | k in db && k.table in tables :: Pos(Find(tables, k.table), k.time, k.key)
  }

  // Numbering distinct tables neither merges nor loses rows of those tables.
  lemma RowsFaithful(db: set<StageKey>, tables: seq<Table>, k: StageKey)
    requires Distinct(tables) && k.table in tables
    ensures k in db <==> Pos(Find(tables, k.table), k.time, k.key) in Rows(db, tables)
  {
    var p := Pos(Find(tables, k.table), k.time, k.key);
    if p in Rows(db, tables) {
      var k' :| k' in db && k'.table in tables && Pos(Find(tables, k'.table), k'.time, k'.key) == p;
      assert k' == k;
    }
  }

  // ---- The sub-query predicates, one per branch of the program ----

  predicate SubQueryElided(backfill: bool, id: nat, idx: int) {
    backfill && id < idx
  }

  predicate SubQueryWhere(backfill: bool, idx: int, start: Time, end: Time, offTime: Time, offKey: string, x: Pos) {
    if backfill then
      if x.table == idx then RowLt(offTime, offKey, x.time, x.key) && Le(x.time, end)
      else Le(start, x.time) && Le(x.time, end)
    else
      if x.table == idx then RowLt(offTime, offKey, x.time, x.key) && Le(x.time, end)
      else if x.table > idx then Le(offTime, x.time) && Le(x.time, end)
      else Lt(offTime, x.time) && Le(x.time, end)
  }

  // ---- The one scan they amount to ----

  // x sorts strictly after (offTime, idx, offKey) in the outer ordering.
  predicate AfterOffset(backfill: bool, idx: int, offTime: Time, offKey: string, x: Pos) {
    if backfill then x.table > idx || (x.table == idx && RowLt(offTime, offKey, x.time, x.key))
    else Lt(offTime, x.time)
         || (offTime == x.time && (x.table > idx || (x.table == idx && KeyLt(offKey, x.key))))
  }

  predicate InWindow(start: Time, end: Time, x: Pos) {
    Le(start, x.time) && Le(x.time, end)
  }

  function Window(backfill: bool, idx: int, start: Time, end: Time, offTime: Time, offKey: string,
                  rows: set<Pos>): set<Pos> {
    set x | x in rows && InWindow(start, end, x) && AfterOffset(backfill, idx, offTime, offKey, x)
  }

  // The three comparison operators, and the elided tables, pick exactly the
  // window's rows after the cursor.
  lemma SubQueriesCoverWindow(backfill: bool, idx: int, start: Time, end: Time, offTime: Time, offKey: string, x: Pos)
    requires Le(start, offTime)
    ensures !SubQueryElided(backfill, x.table, idx) && SubQueryWhere(backfill, idx, start, end, offTime, offKey, x)
            <==> InWindow(start, end, x) && AfterOffset(backfill, idx, offTime, offKey, x)
  {
  }

  // Advancing the cursor to a row of the window leaves what sorts after it.
  lemma WindowAfterRow(backfill: bool, idx: int, start: Time, end: Time, offTime: Time, offKey: string,
                       rows: set<Pos>, p: Pos)
    requires Le(start, offTime)
    requires p in Window(backfill, idx, start, end, offTime, offKey, rows)
    ensures Window(backfill, p.table, start, end, p.time, p.key, rows)
            == After(OrderOf(backfill), Window(backfill, idx, start, end, offTime, offKey, rows), p)
    ensures Le(start, p.time)
  {
    forall x | x in rows && InWindow(start, end, x)
      ensures AfterOffset(backfill, p.table, p.time, p.key, x) <==>
              AfterOffset(backfill, idx, offTime, offKey, x) && PosLt(OrderOf(backfill), p, x)
    {
      if KeyLt(offKey, p.key) && KeyLt(p.key, x.key) {
        KeyLtTransitive(offKey, p.key, x.key);
      }
    }
  }

  // A page is the head of the remaining scan, and moving the cursor to its last
  // row leaves the tail.
  lemma PageStep(backfill: bool, idx: int, start: Time, end: Time, offTime: Time, offKey: string, rows: set<Pos>,
                 limit: nat)
    requires Le(start, offTime) && limit >= 1
    ensures var ord := OrderOf(backfill);
            var window := Window(backfill, idx, start, end, offTime, offKey, rows);
            var page, want := First(ord, window, limit), All(ord, window);
            && page <= want && |page| <= limit
            && (|page| < limit ==> page == want)
            && (page != [] ==>
                  var last := page[|page| - 1];
                  && last in rows && Le(start, last.time)
                  && All(ord, Window(backfill, last.table, start, end, last.time, last.key, rows)) == want[|page|..])
  {
    var ord := OrderOf(backfill);
    var window := Window(backfill, idx, start, end, offTime, offKey, rows);
    var page, want := First(ord, window, limit), All(ord, window);
    hide First, All, PosLt, Sorted, IsLeast, After, Window, InWindow, AfterOffset;
    PageThenRest(ord, window, limit);
    FirstSpec(ord, window, limit);
    if page != [] {
      var last := page[|page| - 1];
      assert last in Elems(page);
      WindowSubset(backfill, idx, start, end, offTime, offKey, rows);
      WindowAfterRow(backfill, idx, start, end, offTime, offKey, rows, last);
      AfterLast(ord, window, page);
      if |page| < limit {
        assert window - Elems(page) == {};
        AllOfNothing(ord);
      }
    }
  }

  lemma AllOfNothing(ord: Order)
    ensures All(ord, {}) == []
  {
  }

  lemma WindowSubset(backfill: bool, idx: int, start: Time, end: Time, offTime: Time, offKey: string, rows: set<Pos>)
    ensures Window(backfill, idx, start, end, offTime, offKey, rows) <= rows
  {
  }

  lemma FindAt(tables: seq<Table>, i: nat)
    requires Distinct(tables) && i < |tables|
    ensures Find(tables, tables[i]) == i
  {
  }

  // ---- What a scan lists, in terms of the columns alone ----

  predicate Earlier(a: Time, b: Time) {
    a.nanos < b.nanos || (a.nanos == b.nanos && a.logical < b.logical)
  }

  // ORDER BY t, nanos, logical, key in a backfill, else ORDER BY nanos, logical, t, key.
  ghost predicate Precedes(backfill: bool, a: Pos, b: Pos) {
    if backfill then
      a.table < b.table
      || (a.table == b.table && (Earlier(a.time, b.time) || (a.time == b.time && TextBefore(a.key, b.key))))
    else
      Earlier(a.time, b.time)
      || (a.time == b.time && (a.table < b.table || (a.table == b.table && TextBefore(a.key, b.key))))
  }

  // The row lies between the times and after the offset. Without an offset table
  // only the time of the offset counts, and in a backfill not even that. An offset
  // table that is not listed stands for the first one.
  ghost predicate Due(backfill: bool, tables: seq<Table>, offset: Option<Table>, start: Time, end: Time,
                      offTime: Time, offKey: string, x: Pos) {
    && !Earlier(x.time, start) && !Earlier(end, x.time)
    && match offset
       case None => backfill || !Earlier(x.time, offTime)
       case Some(t) =>
         && (forall i: nat | i < |tables| && tables[i] == t :: Precedes(backfill, Pos(i, offTime, offKey), x))
         && (t !in tables ==> Precedes(backfill, Pos(0, offTime, offKey), x))
  }

  // The rows of the listed tables that are due, each once and in order.
  ghost predicate Lists(r: seq<Pos>, db: set<StageKey>, tables: seq<Table>, backfill: bool, offset: Option<Table>,
                        start: Time, end: Time, offTime: Time, offKey: string) {
    && (forall i, j | 0 <= i < j < |r| :: Precedes(backfill, r[i], r[j]))
    && (forall x :: x in r <==>
          && x.table < |tables| && StageKey(tables[x.table], x.time, x.key) in db
          && Due(backfill, tables, offset, start, end, offTime, offKey, x))
  }

  lemma PrecedesIff(backfill: bool, a: Pos, b: Pos)
    ensures Precedes(backfill, a, b) <==> PosLt(OrderOf(backfill), a, b)
  {
    KeyLtIff(a.key, b.key);
  }

  lemma DueIff(backfill: bool, tables: seq<Table>, offset: Option<Table>, start: Time, end: Time, offTime: Time,
               offKey: string, x: Pos)
    requires Distinct(tables)
    ensures Due(backfill, tables, offset, start, end, offTime, offKey, x) <==>
            InWindow(start, end, x) && AfterOffset(backfill, TableIndex(tables, offset), offTime, offKey, x)
  {
    if offset.Some? {
      var idx := Find(tables, offset.value);
      PrecedesIff(backfill, Pos(idx, offTime, offKey), x);
      hide Precedes;
      assert forall i: nat | i < |tables| && tables[i] == offset.value :: i == idx;
    }
  }

  lemma RowsAre(db: set<StageKey>, tables: seq<Table>, x: Pos)
    requires Distinct(tables)
    ensures x in Rows(db, tables) <==> x.table < |tables| && StageKey(tables[x.table], x.time, x.key) in db
  {
    if x.table < |tables| {
      FindAt(tables, x.table);
      RowsFaithful(db, tables, StageKey(tables[x.table], x.time, x.key));
    }
  }

  // The one scan is that listing.
  lemma ScanLists(db: set<StageKey>, tables: seq<Table>, backfill: bool, offset: Option<Table>, start: Time, end: Time,
                  offTime: Time, offKey: string)
    requires Distinct(tables)
    ensures var idx := TableIndex(tables, offset);
            Lists(All(OrderOf(backfill), Window(backfill, idx, start, end, offTime, offKey, Rows(db, tables))),
                  db, tables, backfill, offset, start, end, offTime, offKey)
  {
    var idx, rows := TableIndex(tables, offset), Rows(db, tables);
    var window := Window(backfill, idx, start, end, offTime, offKey, rows);
    var r := All(OrderOf(backfill), window);
    AllSpec(OrderOf(backfill), window);
    assert forall i, j | 0 <= i < j < |r| :: PosLt(OrderOf(backfill), r[i], r[j]);
    assert forall x :: x in r <==> x in Elems(r);
    hide All, PosLt, Precedes, Due, InWindow, AfterOffset, Rows;
    forall i, j | 0 <= i < j < |r| ensures Precedes(backfill, r[i], r[j]) {
      PrecedesIff(backfill, r[i], r[j]);
    }
    forall x
      ensures x in r <==>
              && x.table < |tables| && StageKey(tables[x.table], x.time, x.key) in db
              && Due(backfill, tables, offset, start, end, offTime, offKey, x)
    {
      RowsAre(db, tables, x);
      DueIff(backfill, tables, offset, start, end, offTime, offKey, x);
    }
  }

  // ---- The program ----

  predicate Numbered(ordered: seq<Table>, ids: map<Table, nat>) {
    && |ids| == |ordered|
    && (forall i | 0 <= i < |ordered| :: ordered[i] in ids && ids[ordered[i]] == i)
    && (forall t | t in ids :: ids[t] < |ordered| && ordered[ids[t]] == t)
  }

  lemma NumberedFind(ordered: seq<Table>, ids: map<Table, nat>, t: Table)
    requires Numbered(ordered, ids)
    ensures Find(ordered, t) == if t in ids then ids[t] else 0
  {
  }

  method AssignGroup(before: seq<Table>, idsBefore: map<Table, nat>, group: seq<Table>)
    returns (ok: bool, ordered: seq<Table>, ids: map<Table, nat>)
    requires Numbered(before, idsBefore)
    ensures ok <==> Distinct(before + group)
    ensures ok ==> ordered == before + group && Numbered(ordered, ids)
  {
    ordered, ids := before, idsBefore;
    var k := 0;
    while k < |group|
      invariant k <= |group|
      invariant ordered == before + group[..k]
      invariant Numbered(ordered, ids)
    {
      var table := group[k];
      if table in ids {
        assert (before + group)[ids[table]] == (before + group)[|ordered|];
        return false, ordered, ids;
      }
      assert group[..k + 1] == group[..k] + [table];
      ids, ordered, k := ids[table := |ids|], ordered + [table], k + 1;
    }
    assert group[..k] == group;
    ok := true;
  }

  lemma DistinctPrefix(a: seq<Table>, b: seq<Table>)
    ensures Distinct(a + b) ==> Distinct(a)
  {
    if Distinct(a + b) {
      forall i, j | 0 <= i < j < |a| ensures a[i] != a[j] {
        assert (a + b)[i] == a[i] && (a + b)[j] == a[j];
      }
    }
  }

  method AssignIds(targets: seq<seq<Table>>) returns (ok: bool, ordered: seq<Table>, ids: map<Table, nat>)
    ensures ok <==> Distinct(Flatten(targets))
    ensures ok ==> ordered == Flatten(targets) && Numbered(ordered, ids)
  {
    ordered, ids := [], map[];
    var g := 0;
    assert targets[0..] == targets;
    while g < |targets|
      invariant g <= |targets|
      invariant Flatten(targets) == ordered + Flatten(targets[g..])
      invariant Numbered(ordered, ids)
    {
      assert targets[g..][0] == targets[g] && targets[g..][1..] == targets[g + 1..];
      assert Flatten(targets) == (ordered + targets[g]) + Flatten(targets[g + 1..]);
      DistinctPrefix(ordered + targets[g], Flatten(targets[g + 1..]));
      ok, ordered, ids := AssignGroup(ordered, ids, targets[g]);
      if !ok {
        return;
      }
      g := g + 1;
    }
    assert Flatten(targets) == ordered;
    ok := true;
  }

  // One round trip: the union of limited sub-queries, ordered and limited.
  method QueryPage(backfill: bool, idx: int, start: Time, end: Time, offTime: Time, offKey: string, limit: nat,
                   rows: set<Pos>, tables: nat)
    returns (page: seq<Pos>)
    requires Le(start, offTime)
    requires forall x | x in rows :: x.table < tables
    ensures page == First(OrderOf(backfill), Window(backfill, idx, start, end, offTime, offKey, rows), limit)
  {
    ghost var window := Window(backfill, idx, start, end, offTime, offKey, rows);
    var data: set<Pos> := {};
    var id := 0;
    while id < tables
      invariant id <= tables
      invariant data <= window
      invariant forall t: nat | t < id :: Kept(window, t, limit) <= data
    {
      if SubQueryElided(backfill, id, idx) {
        forall x | x in OfTable(window, id) ensures false {
          SubQueriesCoverWindow(backfill, idx, start, end, offTime, offKey, x);
        }
        assert OfTable(window, id) == {};
      } else {
        var sub := set x | x in rows && x.table == id && SubQueryWhere(backfill, idx, start, end, offTime, offKey, x);
        forall x | x in rows && x.table == id ensures x in sub <==> x in window {
          SubQueriesCoverWindow(backfill, idx, start, end, offTime, offKey, x);
        }
        assert sub == OfTable(window, id);
        var part := Elems(First(ByTable, sub, limit));
        FirstSpec(ByTable, sub, limit);
        data := data + part;
      }
      id := id + 1;
    }
    forall t: nat ensures Kept(window, t, limit) <= data {
      if t >= tables {
        assert OfTable(window, t) == {};
      }
    }
    UnionOfLimitedScans(OrderOf(backfill), window, data, limit);
    page := First(OrderOf(backfill), data, limit);
  }

  method ReadPage(q: Cursor, ghost db: set<StageKey>, rows: set<Pos>, ordered: seq<Table>, ids: map<Table, nat>)
    returns (page: seq<Pos>)
    requires q.limit >= 1 && Le(q.start, q.offsetTime)
    requires ordered == Flatten(q.targets) && Numbered(ordered, ids) && rows == Rows(db, ordered)
    ensures page <= q.Pending(db) && |page| <= q.limit
    ensures |page| < q.limit ==> page == q.Pending(db)
    ensures page == First(OrderOf(q.backfill),
                          Window(q.backfill, TableIndex(ordered, q.offsetTable), q.start, q.end, q.offsetTime,
                                 q.offsetKey, rows),
                          q.limit)
  {
    hide First, PosLt, Find;
    var idx: int := -1;
    if q.offsetTable.Some? {
      NumberedFind(ordered, ids, q.offsetTable.value);
      idx := if q.offsetTable.value in ids then ids[q.offsetTable.value] else 0;
    }
    page := QueryPage(q.backfill, idx, q.start, q.end, q.offsetTime, q.offsetKey, q.limit, rows, |ordered|);
    PageStep(q.backfill, idx, q.start, q.end, q.offsetTime, q.offsetKey, rows, q.limit);
  }

  // Moves the cursor behind a page that was read and delivered completely.
  method Advance(q: Cursor, page: seq<Pos>, ghost db: set<StageKey>, ordered: seq<Table>)
    requires q.limit >= 1 && Le(q.start, q.offsetTime)
    requires ordered == Flatten(q.targets) && Distinct(ordered)
    requires page == First(OrderOf(q.backfill),
                           Window(q.backfill, TableIndex(ordered, q.offsetTable), q.start, q.end, q.offsetTime,
                                  q.offsetKey,
                                  Rows(db, ordered)),
                           q.limit)
    modifies q
    ensures page <= old(q.Pending(db))
    ensures if page == [] then q.AtOrigin() else q.Behind(page)
    ensures page != [] ==> Le(q.start, q.offsetTime) && q.Pending(db) == old(q.Pending(db))[|page|..]
  {
    hide First, PosLt;
    ghost var idx := TableIndex(ordered, q.offsetTable);
    PageStep(q.backfill, idx, q.start, q.end, q.offsetTime, q.offsetKey, Rows(db, ordered), q.limit);
    if page == [] {
      q.offsetKey, q.offsetTime, q.offsetTable := "", ZERO, None;
    } else {
      var last := page[|page| - 1];
      FindAt(ordered, last.table);
      q.offsetKey, q.offsetTime, q.offsetTable := last.key, last.time, Some(ordered[last.table]);
    }
  }

  // Gives a page to a callback that fails once it has accepted enough rows.
  method DeliverPage(page: seq<Pos>, soFar: seq<Pos>, accept: nat) returns (delivered: seq<Pos>, failed: bool)
    requires |soFar| <= accept
    ensures failed <==> |soFar| + |page| > accept
    ensures delivered == soFar + page[..if failed then accept - |soFar| else |page|]
  {
    delivered := soFar;
    var count := 0;
    while count < |page|
      invariant count <= |page| && |soFar| + count <= accept
      invariant delivered == soFar + page[..count]
    {
      if |delivered| == accept {
        return delivered, true;
      }
      delivered := delivered + [page[count]];
      count := count + 1;
    }
    failed := false;
  }

  predicate Multiple(a: nat, m: nat) {
    a == 0 || (0 < m <= a && Multiple(a - m, m))
  }

  lemma {:induction false} Remainder(a: nat, c: nat, m: nat)
    requires Multiple(a, m) && 0 < c < m
    ensures !Multiple(a + c, m)
  {
    if a > 0 {
      Remainder(a - m, c, m);
    }
  }

  lemma LastPage(q: Cursor, before: seq<Pos>, page: seq<Pos>)
    requires Multiple(|before|, q.limit) && |page| <= q.limit
    ensures Multiple(|before + page|, q.limit) <==> page == [] || |page| == q.limit
    ensures q.Behind(page) ==> q.Behind(before + page)
  {
    if 0 < |page| < q.limit {
      Remainder(|before|, |page|, q.limit);
    }
    assert page != [] ==> (before + page)[|before + page| - 1] == page[|page| - 1];
  }

  // The page loop. The callback accepts that many rows and then fails.
  method Pages(q: Cursor, db: set<StageKey>, ordered: seq<Table>, ids: map<Table, nat>, accept: nat)
    returns (delivered: seq<Pos>, r: Outcome)
    requires q.limit >= 1 && Le(q.start, q.offsetTime)
    requires ordered == Flatten(q.targets) && Numbered(ordered, ids) && Distinct(ordered)
    modifies q
    ensures r == Done || r == CallbackFailed
    ensures r == Done ==> delivered == old(q.Pending(db)) && |delivered| <= accept
    ensures r == CallbackFailed ==> accept < |old(q.Pending(db))| && delivered == old(q.Pending(db))[..accept]
    ensures r == CallbackFailed ==>
              exists n :: 0 <= n <= accept < n + q.limit && q.Pending(db) == old(q.Pending(db))[n..]
    ensures r == Done && !Multiple(|delivered|, q.limit) ==> q.Pending(db) == []
    ensures r == Done ==> if Multiple(|delivered|, q.limit) then q.AtOrigin() else q.Behind(delivered)
  {
    hide First, All, PosLt, Window, Rows, Flatten, Distinct, Numbered, TableIndex;
    delivered := [];
    var rows := Rows(db, ordered);
    ghost var want := old(q.Pending(db));
    ghost var rest := want;
    assert want == delivered + rest;
    while true
      invariant Le(q.start, q.offsetTime)
      invariant want == delivered + rest && |delivered| <= accept && Multiple(|delivered|, q.limit)
      invariant q.Pending(db) == rest
      decreases |rest|
    {
      var page := ReadPage(q, db, rows, ordered, ids);
      ghost var before := delivered;
      var failed;
      delivered, failed := DeliverPage(page, delivered, accept);
      if failed {
        FailurePrefix(want, before, page, rest, accept);
        return delivered, CallbackFailed;
      }
      var count := |page|;
      WholePage(want, before, page, rest);
      Advance(q, page, db, ordered);
      LastPage(q, before, page);
      if count < q.limit {
        return delivered, Done;
      }
      rest := rest[count..];
    }
  }

  method Run(q: Cursor, db: set<StageKey>, accept: nat) returns (delivered: seq<Pos>, r: Outcome)
    modifies q
    ensures r == LimitUnset <==> q.limit == 0
    ensures r == DuplicateTable <==> q.limit != 0 && !Distinct(Flatten(q.targets))
    ensures r == LimitUnset || r == DuplicateTable ==> delivered == []
    // What is delivered, in the order of the columns; a failing callback cuts it short.
    ensures r == Done ==> q.Listing(delivered, db, old(q.offsetTable), old(q.offsetTime), old(q.offsetKey))
    ensures r == CallbackFailed ==>
              && |delivered| == accept
              && exists all :: delivered < all
                               && q.Listing(all, db, old(q.offsetTable), old(q.offsetTime), old(q.offsetKey))
    ensures r == Done ==> delivered == old(q.Pending(db)) && |delivered| <= accept
    ensures r == CallbackFailed ==> accept < |old(q.Pending(db))| && delivered == old(q.Pending(db))[..accept]
    // After a failure the cursor stands at a page boundary no later than the failure.
    ensures r == CallbackFailed ==>
              exists n :: 0 <= n <= accept < n + q.limit && q.Pending(db) == old(q.Pending(db))[n..]
    // After a last page that was short but not empty, nothing is left. An empty one
    // takes the offset away.
    ensures r == Done && !Multiple(|delivered|, q.limit) ==> q.Pending(db) == []
    ensures r == Done ==> if Multiple(|delivered|, q.limit) then q.AtOrigin() else q.Behind(delivered)
  {
    hide First, All, PosLt, Window, Rows, Flatten, Numbered, TableIndex;
    if q.limit == 0 {
      return [], LimitUnset;
    }
    if Lt(q.offsetTime, q.start) {
      q.offsetTime := q.start;
    }
    assert q.Pending(db) == old(q.Pending(db));
    ghost var all := q.Pending(db);
    var ok, ordered, ids := AssignIds(q.targets);
    if !ok {
      return [], DuplicateTable;
    }
    ScanLists(db, ordered, q.backfill, q.offsetTable, q.start, q.end, q.offsetTime, q.offsetKey);
    assert q.Listing(all, db, old(q.offsetTable), old(q.offsetTime), old(q.offsetKey));
    hide Lists;
    delivered, r := Pages(q, db, ordered, ids, accept);
  }

  lemma WholePage(want: seq<Pos>, before: seq<Pos>, page: seq<Pos>, rest: seq<Pos>)
    requires want == before + rest && page <= rest
    ensures want == (before + page[..|page|]) + rest[|page|..]
    ensures |page| == |rest| ==> want == before + page[..|page|]
  {
  }

  lemma FailurePrefix(want: seq<Pos>, before: seq<Pos>, page: seq<Pos>, rest: seq<Pos>, accept: nat)
    requires want == before + rest && page <= rest && |before| <= accept < |before| + |page|
    ensures want[..accept] == before + page[..accept - |before|] && rest == want[|before|..]
  {
  }
}
