/** Keyset pagination of the administrators' three lists: the page a request reads, in memory and
    from the database, and what following the cursors to the end returns. */
module KeysetPagination {
  import opened Wrappers
  import Text

  const PAGE_SIZE: nat := 50

  datatype Table = Reservations | Users | Audits

  /** The columns that order a list. Only reservations have a study period. */
  datatype Row = Row(id: string, createdAt: int, period: string)

  datatype Cursor = Cursor(createdAt: int, id: string, period: string)

  datatype Page = Page(total: nat, next: Option<Cursor>, rows: seq<Row>)

  // ---------------------------------------------------------------- order

  function Rank(period: string): (r: nat) {
    if period == "EIGHTH" then 0 else if period == "FIRST" then 1 else 2
  }

  predicate Known(t: Table, r: Row) { t == Reservations ==> Rank(r.period) < 2 }

  /** Rows are compared in memory by the rank of their period, by the database as text. */
  datatype Order = Memory(table: Table) | Database(table: Table)

  predicate PeriodLess(o: Order, a: string, b: string) {
    o.table == Reservations && if o.Memory? then Rank(a) < Rank(b) else Text.Less(a, b)
  }

  predicate Ascends(o: Order, a: Row, b: Row) {
    || PeriodLess(o, a.period, b.period)
    || (!PeriodLess(o, b.period, a.period) && (a.createdAt < b.createdAt || (a.createdAt == b.createdAt && Text.Less(a.id, b.id))))
  }

  predicate Less(o: Order, a: Row, b: Row) {
    if o.table == Audits then Ascends(o, b, a) else Ascends(o, a, b)
  }

  /** Reservations come by period, EIGHTH before FIRST before anything else, then by time and identifier;
      users by time and identifier; audit entries the other way round. */
  lemma OrderIs(a: Row, b: Row)
    ensures var sooner := a.createdAt < b.createdAt || (a.createdAt == b.createdAt && Text.Less(a.id, b.id));
            && (Less(Memory(Users), a, b) <==> sooner) && (Less(Memory(Audits), b, a) <==> sooner)
            && (a.period == b.period ==> (Less(Memory(Reservations), a, b) <==> sooner))
    ensures a.period == "EIGHTH" && b.period != "EIGHTH" ==> Less(Memory(Reservations), a, b)
    ensures a.period == "FIRST" && b.period !in {"EIGHTH", "FIRST"} ==> Less(Memory(Reservations), a, b)
    ensures Text.Less(a.period, b.period) ==> Less(Database(Reservations), a, b)
  {
  }

  /** Only reservations of the two study periods can be continued from. */
  lemma KnownIs(t: Table, r: Row)
    ensures Known(t, r) <==> t == Users || t == Audits || r.period == "EIGHTH" || r.period == "FIRST"
  {
  }

  lemma PeriodTransitive(o: Order, a: string, b: string, c: string)
    ensures PeriodLess(o, a, b) && PeriodLess(o, b, c) ==> PeriodLess(o, a, c)
    ensures !PeriodLess(o, a, b) && !PeriodLess(o, b, c) ==> !PeriodLess(o, a, c)
  {
    if o == Database(Reservations) {
      Text.LessTotal(a, b);
      Text.LessTotal(b, c);
      if Text.Less(a, b) && Text.Less(b, c) { Text.LessTransitive(a, b, c); }
      if Text.Less(c, b) && Text.Less(b, a) { Text.LessTransitive(c, b, a); }
      if Text.Less(c, a) { Text.LessAsymmetric(c, a); }
      if Text.Less(b, c) { Text.LessAsymmetric(b, c); }
      if Text.Less(a, b) { Text.LessAsymmetric(a, b); }
    }
  }

  lemma PeriodAsymmetric(o: Order, a: string, b: string)
    ensures !(PeriodLess(o, a, b) && PeriodLess(o, b, a))
  {
    if o == Database(Reservations) && Text.Less(a, b) { Text.LessAsymmetric(a, b); }
  }

  lemma AscendsTransitive(o: Order, a: Row, b: Row, c: Row)
    requires Ascends(o, a, b) && Ascends(o, b, c)
    ensures Ascends(o, a, c)
  {
    PeriodTransitive(o, a.period, b.period, c.period);
    PeriodTransitive(o, a.period, c.period, b.period);
    PeriodTransitive(o, b.period, a.period, c.period);
    PeriodTransitive(o, c.period, b.period, a.period);
    if Text.Less(a.id, b.id) && Text.Less(b.id, c.id) { Text.LessTransitive(a.id, b.id, c.id); }
  }

  lemma LessTransitive(o: Order, a: Row, b: Row, c: Row)
    requires Less(o, a, b) && Less(o, b, c)
    ensures Less(o, a, c)
  {
    if o.table == Audits { AscendsTransitive(o, c, b, a); } else { AscendsTransitive(o, a, b, c); }
  }

  lemma LessAsymmetric(o: Order, a: Row, b: Row)
    requires Less(o, a, b)
    ensures !Less(o, b, a) && a != b
  {
    PeriodAsymmetric(o, a.period, b.period);
    if Text.Less(a.id, b.id) { Text.LessAsymmetric(a.id, b.id); }
    if Text.Less(b.id, a.id) { Text.LessAsymmetric(b.id, a.id); }
  }

  lemma LessTotal(o: Order, a: Row, b: Row)
    requires a.id != b.id
    ensures Less(o, a, b) || Less(o, b, a)
  {
    Text.LessTotal(a.id, b.id);
  }

  // ---------------------------------------------------------------- sorting and filtering

  ghost predicate DistinctIds(rows: seq<Row>) {
    forall i, k :: 0 <= i < k < |rows| ==> rows[i].id != rows[k].id
  }

  ghost predicate Ascending(o: Order, s: seq<Row>) {
    forall i, k :: 0 <= i < k < |s| ==> Less(o, s[i], s[k])
  }

  function Insert(o: Order, s: seq<Row>, x: Row): seq<Row> {
    if s == [] || Less(o, x, s[0]) then [x] + s else [s[0]] + Insert(o, s[1..], x)
  }

  function Sorted(o: Order, rows: seq<Row>): seq<Row> {
    if rows == [] then [] else Insert(o, Sorted(o, rows[1..]), rows[0])
  }

  function Filter(s: seq<Row>, keeps: Row -> bool): seq<Row> {
    if s == [] then [] else (if keeps(s[0]) then [s[0]] else []) + Filter(s[1..], keeps)
  }

  lemma {:induction false} InsertSorts(o: Order, s: seq<Row>, x: Row)
    requires Ascending(o, s) && forall r :: r in s ==> r.id != x.id
    ensures Ascending(o, Insert(o, s, x)) && |Insert(o, s, x)| == |s| + 1
    ensures forall r :: r in Insert(o, s, x) <==> r == x || r in s
  {
    if s != [] {
      if Less(o, x, s[0]) {
        forall k | 0 < k < |s| ensures Less(o, x, s[k]) { LessTransitive(o, x, s[0], s[k]); }
      } else {
        assert s == [s[0]] + s[1..];
        InsertSorts(o, s[1..], x);
        LessTotal(o, x, s[0]);
        var rest := Insert(o, s[1..], x);
        assert forall r :: r in rest ==> Less(o, s[0], r);
      }
    }
  }

  /** Sorting keeps every row, once. */
  lemma {:induction false} SortSorts(o: Order, rows: seq<Row>)
    requires DistinctIds(rows)
    ensures Ascending(o, Sorted(o, rows)) && |Sorted(o, rows)| == |rows|
    ensures forall r :: r in Sorted(o, rows) <==> r in rows
  {
    if rows != [] {
      assert rows == [rows[0]] + rows[1..];
      SortSorts(o, rows[1..]);
      InsertSorts(o, Sorted(o, rows[1..]), rows[0]);
    }
  }

  lemma {:induction false} FilterKeeps(s: seq<Row>, keeps: Row -> bool)
    ensures forall r :: r in Filter(s, keeps) <==> r in s && keeps(r)
    ensures DistinctIds(s) ==> DistinctIds(Filter(s, keeps))
  {
    if s != [] {
      assert s == [s[0]] + s[1..];
      FilterKeeps(s[1..], keeps);
      var rest := Filter(s[1..], keeps);
      if DistinctIds(s) {
        assert forall i :: 0 <= i < |rest| ==> rest[i] in s[1..];
      }
    }
  }

  lemma {:induction false} FilterAscends(o: Order, s: seq<Row>, keeps: Row -> bool)
    requires Ascending(o, s)
    ensures Ascending(o, Filter(s, keeps))
  {
    if s != [] {
      FilterAscends(o, s[1..], keeps);
      FilterKeeps(s[1..], keeps);
      var rest := Filter(s[1..], keeps);
      assert forall i :: 0 <= i < |rest| ==> rest[i] in s[1..];
    }
  }

  lemma InTail(o: Order, s: seq<Row>, r: Row)
    requires Ascending(o, s) && s != []
    ensures r in s[1..] <==> r in s && r != s[0]
  {
    assert s == [s[0]] + s[1..];
    if r in s[1..] { LessAsymmetric(o, s[0], r); }
  }

  /** Only one list of the given rows is in order. */
  lemma {:induction false} OneOrder(o: Order, a: seq<Row>, b: seq<Row>)
    requires Ascending(o, a) && Ascending(o, b) && forall r :: r in a <==> r in b
    ensures a == b
  {
    assert forall i :: 0 <= i < |a| ==> a[i] in b;
    assert forall i :: 0 <= i < |b| ==> b[i] in a;
    if a != [] {
      if a[0] != b[0] { LessAsymmetric(o, a[0], b[0]); }
      forall r ensures r in a[1..] <==> r in b[1..] {
        InTail(o, a, r);
        InTail(o, b, r);
      }
      OneOrder(o, a[1..], b[1..]);
      assert a == [a[0]] + a[1..] && b == [b[0]] + b[1..];
    }
  }

  // ---------------------------------------------------------------- one page

  function InTime(cutoff: int): Row -> bool { (r: Row) => r.createdAt <= cutoff }

  /** The row a cursor stands for, as far as the order can tell. */
  function Position(c: Cursor): Row { Row(c.id, c.createdAt, c.period) }

  function CursorOf(r: Row): Cursor { Cursor(r.createdAt, r.id, r.period) }

  /** The in-memory filter: rows that compare greater than the cursor. */
  function PastCursor(t: Table, after: Option<Cursor>): Row -> bool {
    (r: Row) => after.Some? ==> Less(Memory(t), Position(after.value), r)
  }

  /** The tuple condition of the database query. */
  predicate TupleCondition(t: Table, after: Cursor, r: Row) {
    match t
    case Reservations =>
      if after.period == "EIGHTH" then
        || r.period == "FIRST"
        || (r.period == "EIGHTH" && r.createdAt > after.createdAt)
        || (r.period == "EIGHTH" && r.createdAt == after.createdAt && Text.Less(after.id, r.id))
      else
        || (r.period == "FIRST" && r.createdAt > after.createdAt)
        || (r.period == "FIRST" && r.createdAt == after.createdAt && Text.Less(after.id, r.id))
    case Users =>
      || r.createdAt > after.createdAt
      || (r.createdAt == after.createdAt && Text.Less(after.id, r.id))
    case Audits =>
      || r.createdAt < after.createdAt
      || (r.createdAt == after.createdAt && Text.Less(r.id, after.id))
  }

  function Where(t: Table, after: Option<Cursor>, cutoff: int): Row -> bool {
    (r: Row) => r.createdAt <= cutoff && (after.Some? ==> TupleCondition(t, after.value, r))
  }

  function Eligible(t: Table, cutoff: int, rows: seq<Row>): seq<Row> {
    Sorted(Memory(t), Filter(rows, InTime(cutoff)))
  }

  function Take(s: seq<Row>, n: nat): seq<Row> { if |s| <= n then s else s[..n] }

  function NextCursor(t: Table, rows: seq<Row>, more: bool): Option<Cursor> {
    if more && rows != [] && Known(t, rows[|rows| - 1]) then Some(CursorOf(rows[|rows| - 1])) else None
  }

  function Paginate(t: Table, after: Option<Cursor>, cutoff: int, rows: seq<Row>): Page {
    var eligible := Eligible(t, cutoff, rows);
    var remaining := Filter(eligible, PastCursor(t, after));
    var page := Take(remaining, PAGE_SIZE);
    Page(|eligible|, NextCursor(t, page, |remaining| > |page|), page)
  }

  /** The page as the database serves it: one row more than a page is read. */
  function DatabasePage(t: Table, after: Option<Cursor>, cutoff: int, rows: seq<Row>): Page {
    var found := Take(Sorted(Database(t), Filter(rows, Where(t, after, cutoff))), PAGE_SIZE + 1);
    var page := Take(found, PAGE_SIZE);
    Page(|Filter(rows, Where(t, None, cutoff))|, NextCursor(t, page, |found| > PAGE_SIZE), page)
  }

  /** The query's condition and the in-memory filter agree about a row exactly when its period is known. */
  lemma WhereAgreesIffKnown(t: Table, after: Cursor, r: Row)
    requires Known(t, Position(after))
    ensures (TupleCondition(t, after, r) <==> PastCursor(t, Some(after))(r)) <==> Known(t, r)
  {
  }

  /** A page has the first fifty rows that are left, and leads on exactly when there are more and its last row
      has a known period. */
  lemma PagesAreFifty(t: Table, after: Option<Cursor>, cutoff: int, rows: seq<Row>)
    ensures var left, page := Remaining(t, after, cutoff, rows), Paginate(t, after, cutoff, rows);
            && page.total == |Eligible(t, cutoff, rows)|
            && page.rows == (if |left| <= 50 then left else left[..50])
            && page.next == if |left| > 50 && Known(t, left[49]) then Some(Cursor(left[49].createdAt, left[49].id, left[49].period)) else None
  {
  }

  ghost predicate AllKnown(t: Table, rows: seq<Row>) { forall r :: r in rows ==> Known(t, r) }

  lemma OrdersAgree(t: Table, a: Row, b: Row)
    requires Known(t, a) && Known(t, b)
    ensures Less(Database(t), a, b) <==> Less(Memory(t), a, b)
  {
    if t == Reservations {
      assert Text.Less("EIGHTH", "FIRST");
      Text.LessAsymmetric("EIGHTH", "FIRST");
      Text.LessIrreflexive("EIGHTH");
      Text.LessIrreflexive("FIRST");
    }
  }

  function Remaining(t: Table, after: Option<Cursor>, cutoff: int, rows: seq<Row>): seq<Row> {
    Filter(Eligible(t, cutoff, rows), PastCursor(t, after))
  }

  lemma RemainingRows(t: Table, after: Option<Cursor>, cutoff: int, rows: seq<Row>)
    requires DistinctIds(rows)
    ensures Ascending(Memory(t), Remaining(t, after, cutoff, rows))
    ensures forall r :: r in Remaining(t, after, cutoff, rows) <==> r in rows && r.createdAt <= cutoff && PastCursor(t, after)(r)
  {
    FilterKeeps(rows, InTime(cutoff));
    SortSorts(Memory(t), Filter(rows, InTime(cutoff)));
    FilterKeeps(Eligible(t, cutoff, rows), PastCursor(t, after));
    FilterAscends(Memory(t), Eligible(t, cutoff, rows), PastCursor(t, after));
  }

  lemma DatabaseFindsTheSameRows(t: Table, after: Option<Cursor>, cutoff: int, rows: seq<Row>)
    requires DistinctIds(rows) && AllKnown(t, rows) && (after.Some? ==> Known(t, Position(after.value)))
    ensures Sorted(Database(t), Filter(rows, Where(t, after, cutoff))) == Remaining(t, after, cutoff, rows)
  {
    var selected := Filter(rows, Where(t, after, cutoff));
    var found := Sorted(Database(t), selected);
    FilterKeeps(rows, Where(t, after, cutoff));
    SortSorts(Database(t), selected);
    RemainingRows(t, after, cutoff, rows);
    forall r ensures r in found <==> r in Remaining(t, after, cutoff, rows) {
      if r in rows && after.Some? { WhereAgreesIffKnown(t, after.value, r); }
    }
    assert forall i :: 0 <= i < |found| ==> found[i] in found;
    forall i, k | 0 <= i < k < |found| ensures Less(Memory(t), found[i], found[k]) {
      OrdersAgree(t, found[i], found[k]);
    }
    OneOrder(Memory(t), found, Remaining(t, after, cutoff, rows));
  }

  /** As long as all periods are known, the database serves exactly the page the in-memory code computes. */
  lemma DatabaseServesTheSamePage(t: Table, after: Option<Cursor>, cutoff: int, rows: seq<Row>)
    requires DistinctIds(rows) && AllKnown(t, rows) && (after.Some? ==> Known(t, Position(after.value)))
    ensures DatabasePage(t, after, cutoff, rows) == Paginate(t, after, cutoff, rows)
  {
    DatabaseFindsTheSameRows(t, after, cutoff, rows);
    FilterKeeps(rows, InTime(cutoff));
    SortSorts(Memory(t), Filter(rows, InTime(cutoff)));
    FilterCounts(rows, Where(t, None, cutoff), InTime(cutoff));
  }

  lemma {:induction false} FilterCounts(s: seq<Row>, p: Row -> bool, q: Row -> bool)
    requires forall r :: r in s ==> p(r) == q(r)
    ensures Filter(s, p) == Filter(s, q)
  {
    if s != [] {
      assert s == [s[0]] + s[1..];
      FilterCounts(s[1..], p, q);
    }
  }

  // ---------------------------------------------------------------- following the cursors

  /** Every page is read from the table as it is at that moment, from the cursor of the page before. */
  ghost predicate IsRun(t: Table, cutoff: int, snapshots: seq<seq<Row>>, pages: seq<Page>) {
    && |pages| == |snapshots|
    && forall i :: 0 <= i < |pages| ==> IsPage(t, cutoff, snapshots, pages, i)
  }

  ghost predicate IsPage(t: Table, cutoff: int, snapshots: seq<seq<Row>>, pages: seq<Page>, i: nat)
    requires |pages| == |snapshots| && i < |pages|
  {
    && (i > 0 ==> pages[i - 1].next.Some?)
    && pages[i] == Paginate(t, After(pages, i), cutoff, snapshots[i])
  }

  function After(pages: seq<Page>, i: nat): Option<Cursor>
    requires i <= |pages|
  {
    if i == 0 then None else pages[i - 1].next
  }

  lemma PrefixRun(t: Table, cutoff: int, snapshots: seq<seq<Row>>, pages: seq<Page>)
    requires IsRun(t, cutoff, snapshots, pages) && pages != []
    ensures var n := |pages| - 1;
            && IsRun(t, cutoff, snapshots[..n], pages[..n]) && IsPage(t, cutoff, snapshots, pages, n)
            && After(pages, n) == After(pages[..n], n)
  {
    var n := |pages| - 1;
    forall i | 0 <= i < n ensures IsPage(t, cutoff, snapshots[..n], pages[..n], i) {
      assert IsPage(t, cutoff, snapshots, pages, i);
    }
    assert IsPage(t, cutoff, snapshots, pages, n);
  }

  function Delivered(pages: seq<Page>): seq<Row> {
    if pages == [] then [] else Delivered(pages[..|pages| - 1]) + pages[|pages| - 1].rows
  }

  /** A row never changes the columns that order it. */
  ghost predicate Consistent(snapshots: seq<seq<Row>>) {
    && (forall i :: 0 <= i < |snapshots| ==> DistinctIds(snapshots[i]))
    && (forall i, k, a, b :: 0 <= i < |snapshots| && 0 <= k < |snapshots| && a in snapshots[i] && b in snapshots[k] && a.id == b.id ==> a == b)
  }

  lemma TakeHolds(o: Order, remaining: seq<Row>)
    requires Ascending(o, remaining)
    ensures var page := Take(remaining, PAGE_SIZE);
            && Ascending(o, page) && (|remaining| > |page| ==> |page| == PAGE_SIZE)
            && (forall r :: r in page ==> r in remaining)
            && (forall r :: r in remaining && r !in page ==> |remaining| > |page| && Less(o, page[|page| - 1], r))
  {
    var page := Take(remaining, PAGE_SIZE);
    assert forall i :: 0 <= i < |page| ==> page[i] == remaining[i] && page[i] in page;
    forall r | r in remaining && r !in page ensures |remaining| > |page| && Less(o, page[|page| - 1], r) {
      var i :| 0 <= i < |remaining| && remaining[i] == r;
      assert i >= |page|;
    }
  }

  /** What one page holds: rows past the cursor, in order; whatever it leaves out comes after its last row. */
  lemma PageHolds(t: Table, after: Option<Cursor>, cutoff: int, rows: seq<Row>)
    requires DistinctIds(rows)
    ensures var page := Paginate(t, after, cutoff, rows);
            && Ascending(Memory(t), page.rows)
            && (forall r :: r in page.rows ==> r in rows && r.createdAt <= cutoff && PastCursor(t, after)(r))
            && (page.next.Some? ==> page.rows != [] && page.next == Some(CursorOf(page.rows[|page.rows| - 1])))
            && (forall r :: r in rows && r.createdAt <= cutoff && PastCursor(t, after)(r) && r !in page.rows ==>
                  page.rows != [] && Less(Memory(t), page.rows[|page.rows| - 1], r)
                  && (page.next.None? ==> !Known(t, page.rows[|page.rows| - 1])))
  {
    RemainingRows(t, after, cutoff, rows);
    TakeHolds(Memory(t), Remaining(t, after, cutoff, rows));
  }

  lemma LastComparesAsItsCursor(t: Table, last: Row, r: Row)
    ensures PastCursor(t, Some(CursorOf(last)))(r) <==> Less(Memory(t), last, r)
  {
  }

  lemma {:induction false} DeliveredFromSnapshots(t: Table, cutoff: int, snapshots: seq<seq<Row>>, pages: seq<Page>, r: Row)
    requires IsRun(t, cutoff, snapshots, pages) && Consistent(snapshots) && r in Delivered(pages)
    ensures exists i :: 0 <= i < |snapshots| && r in snapshots[i]
  {
    var n := |pages| - 1;
    PrefixRun(t, cutoff, snapshots, pages);
    if r in pages[n].rows {
      PageHolds(t, After(pages, n), cutoff, snapshots[n]);
    } else {
      DeliveredFromSnapshots(t, cutoff, snapshots[..n], pages[..n], r);
      var i :| 0 <= i < n && r in snapshots[..n][i];
      assert r in snapshots[i];
    }
  }

  lemma Appended(o: Order, before: seq<Row>, rows: seq<Row>)
    requires Ascending(o, before) && Ascending(o, rows)
    requires before != [] ==> forall r :: r in rows ==> Less(o, before[|before| - 1], r)
    ensures Ascending(o, before + rows)
  {
    forall i, k | 0 <= i < |before| && 0 <= k < |rows| ensures Less(o, before[i], rows[k]) {
      assert rows[k] in rows;
      if i < |before| - 1 { LessTransitive(o, before[i], before[|before| - 1], rows[k]); }
    }
  }

  /** Whatever happens to the table between two pages: the delivered rows are in order. */
  lemma {:induction false} DeliveredAscends(t: Table, cutoff: int, snapshots: seq<seq<Row>>, pages: seq<Page>)
    requires IsRun(t, cutoff, snapshots, pages) && Consistent(snapshots)
    ensures Ascending(Memory(t), Delivered(pages))
    ensures pages != [] && pages[|pages| - 1].next.Some? ==>
              Delivered(pages) != [] && pages[|pages| - 1].next == Some(CursorOf(Delivered(pages)[|Delivered(pages)| - 1]))
  {
    if pages != [] {
      var n := |pages| - 1;
      PrefixRun(t, cutoff, snapshots, pages);
      DeliveredAscends(t, cutoff, snapshots[..n], pages[..n]);
      PageHolds(t, After(pages, n), cutoff, snapshots[n]);
      AppendPage(t, Delivered(pages[..n]), After(pages, n), pages[n].rows);
    }
  }

  lemma AppendPage(t: Table, before: seq<Row>, after: Option<Cursor>, rows: seq<Row>)
    requires Ascending(Memory(t), before) && Ascending(Memory(t), rows)
    requires before != [] ==> after == Some(CursorOf(before[|before| - 1]))
    requires forall r :: r in rows ==> PastCursor(t, after)(r)
    ensures Ascending(Memory(t), before + rows)
  {
    if before != [] {
      forall r | r in rows ensures Less(Memory(t), before[|before| - 1], r) {
        LastComparesAsItsCursor(t, before[|before| - 1], r);
      }
    }
    Appended(Memory(t), before, rows);
  }

  /** No row is ever delivered twice. */
  lemma NoRowTwice(t: Table, cutoff: int, snapshots: seq<seq<Row>>, pages: seq<Page>)
    requires IsRun(t, cutoff, snapshots, pages) && Consistent(snapshots)
    ensures Ascending(Memory(t), Delivered(pages)) && DistinctIds(Delivered(pages))
  {
    DeliveredAscends(t, cutoff, snapshots, pages);
    var all := Delivered(pages);
    forall i, k | 0 <= i < k < |all| ensures all[i].id != all[k].id {
      LessAsymmetric(Memory(t), all[i], all[k]);
      DeliveredFromSnapshots(t, cutoff, snapshots, pages, all[i]);
      DeliveredFromSnapshots(t, cutoff, snapshots, pages, all[k]);
    }
  }

  ghost predicate PresentThroughout(r: Row, snapshots: seq<seq<Row>>) {
    forall i :: 0 <= i < |snapshots| ==> r in snapshots[i]
  }

  /** A row that a page could have had lies ahead of the next one. */
  lemma PassedOver(t: Table, after: Option<Cursor>, cutoff: int, rows: seq<Row>, r: Row)
    requires DistinctIds(rows) && AllKnown(t, rows) && r in rows && r.createdAt <= cutoff && PastCursor(t, after)(r)
    requires r !in Paginate(t, after, cutoff, rows).rows
    ensures var next := Paginate(t, after, cutoff, rows).next; next.Some? && PastCursor(t, next)(r)
  {
    PageHolds(t, after, cutoff, rows);
    var page := Paginate(t, after, cutoff, rows).rows;
    assert page[|page| - 1] in page;
    LastComparesAsItsCursor(t, page[|page| - 1], r);
  }

  /** A row that is there all the time is delivered, or still lies ahead of the cursor. */
  lemma {:induction false} DeliveredOrAhead(t: Table, cutoff: int, snapshots: seq<seq<Row>>, pages: seq<Page>, r: Row)
    requires IsRun(t, cutoff, snapshots, pages) && Consistent(snapshots) && pages != []
    requires forall i :: 0 <= i < |snapshots| ==> AllKnown(t, snapshots[i])
    requires PresentThroughout(r, snapshots) && r.createdAt <= cutoff
    ensures r in Delivered(pages) || (pages[|pages| - 1].next.Some? && PastCursor(t, pages[|pages| - 1].next)(r))
  {
    var n := |pages| - 1;
    PrefixRun(t, cutoff, snapshots, pages);
    if n > 0 {
      DeliveredOrAhead(t, cutoff, snapshots[..n], pages[..n], r);
      assert pages[..n][n - 1] == pages[n - 1];
    }
    assert r in snapshots[n];
    var rows := pages[n].rows;
    if r !in Delivered(pages) {
      assert r !in rows && PastCursor(t, After(pages, n))(r);
      PassedOver(t, After(pages, n), cutoff, snapshots[n], r);
    }
  }

  /** Following the cursors to the end returns every row that was there all the time exactly once,
      and in order, whatever else is inserted or deleted between two pages. */
  lemma FollowingReturnsEveryLastingRowOnce(t: Table, cutoff: int, snapshots: seq<seq<Row>>, pages: seq<Page>, r: Row)
    requires IsRun(t, cutoff, snapshots, pages) && Consistent(snapshots) && pages != [] && pages[|pages| - 1].next.None?
    requires forall i :: 0 <= i < |snapshots| ==> AllKnown(t, snapshots[i])
    requires PresentThroughout(r, snapshots) && r.createdAt <= cutoff
    ensures exists i :: 0 <= i < |Delivered(pages)| && Delivered(pages)[i] == r
                        && forall k :: 0 <= k < |Delivered(pages)| && k != i ==> Delivered(pages)[k].id != r.id
  {
    NoRowTwice(t, cutoff, snapshots, pages);
    DeliveredOrAhead(t, cutoff, snapshots, pages, r);
    var i :| 0 <= i < |Delivered(pages)| && Delivered(pages)[i] == r;
    assert forall k :: 0 <= k < |Delivered(pages)| && k != i ==> Delivered(pages)[k].id != r.id;
  }

  // ---------------------------------------------------------------- a table that does not change

  ghost predicate Fixed(snapshots: seq<seq<Row>>, rows: seq<Row>) {
    forall i :: 0 <= i < |snapshots| ==> snapshots[i] == rows
  }

  /** The rows with a known period come first. */
  function KnownCount(t: Table, s: seq<Row>): (n: nat)
    ensures n <= |s|
  {
    if s == [] || !Known(t, s[0]) then 0 else 1 + KnownCount(t, s[1..])
  }

  lemma {:induction false} KnownAreFirst(t: Table, s: seq<Row>)
    requires Ascending(Memory(t), s)
    ensures forall i :: 0 <= i < |s| ==> (Known(t, s[i]) <==> i < KnownCount(t, s))
  {
    if s != [] {
      KnownAreFirst(t, s[1..]);
      assert forall i :: 0 < i < |s| ==> s[i] == s[1..][i - 1];
      if !Known(t, s[0]) {
        forall i | 0 < i < |s| ensures !Known(t, s[i]) { assert Less(Memory(t), s[0], s[i]); }
      }
    }
  }

  /** In an ordered list the rows that come after one are those behind it. */
  lemma BehindComesAfter(o: Order, all: seq<Row>, q: nat, r: Row)
    requires Ascending(o, all) && 0 < q <= |all|
    ensures r in all && Less(o, all[q - 1], r) <==> r in all[q..]
  {
    if r in all {
      var i :| 0 <= i < |all| && all[i] == r;
      if i >= q {
        assert all[q..][i - q] == r;
        assert Less(o, all[q - 1], all[i]);
      } else {
        forall k | q <= k < |all| ensures all[k] != r { LessAsymmetric(o, all[i], all[k]); }
        if i < q - 1 { LessAsymmetric(o, r, all[q - 1]); } else { NotBeforeItself(o, r); }
      }
    }
  }

  lemma NotBeforeItself(o: Order, r: Row)
    ensures !Less(o, r, r)
  {
    if Less(o, r, r) { LessAsymmetric(o, r, r); }
  }

  lemma EligibleRows(t: Table, cutoff: int, rows: seq<Row>)
    requires DistinctIds(rows)
    ensures Ascending(Memory(t), Eligible(t, cutoff, rows))
    ensures forall r :: r in Eligible(t, cutoff, rows) <==> r in rows && r.createdAt <= cutoff
  {
    FilterKeeps(rows, InTime(cutoff));
    SortSorts(Memory(t), Filter(rows, InTime(cutoff)));
  }

  /** Past the cursor of a row are exactly the rows behind it. */
  lemma RemainingIsTheRest(t: Table, cutoff: int, rows: seq<Row>, q: nat)
    requires DistinctIds(rows) && 0 < q <= |Eligible(t, cutoff, rows)|
    ensures Remaining(t, Some(CursorOf(Eligible(t, cutoff, rows)[q - 1])), cutoff, rows) == Eligible(t, cutoff, rows)[q..]
  {
    var all := Eligible(t, cutoff, rows);
    var after := Some(CursorOf(all[q - 1]));
    EligibleRows(t, cutoff, rows);
    RemainingRows(t, after, cutoff, rows);
    forall r ensures r in Remaining(t, after, cutoff, rows) <==> r in all[q..] {
      LastComparesAsItsCursor(t, all[q - 1], r);
      BehindComesAfter(Memory(t), all, q, r);
    }
    OneOrder(Memory(t), Remaining(t, after, cutoff, rows), all[q..]);
  }

  lemma FilterAll(s: seq<Row>, keeps: Row -> bool)
    requires forall r :: r in s ==> keeps(r)
    ensures Filter(s, keeps) == s
  {
    if s != [] { assert s == [s[0]] + s[1..]; FilterAll(s[1..], keeps); }
  }

  lemma OnePageOn(t: Table, all: seq<Row>, q: nat)
    requires q <= |all| && forall i :: 0 <= i < |all| ==> (Known(t, all[i]) <==> i < KnownCount(t, all))
    ensures Take(all, q) + Take(all[q..], PAGE_SIZE) == Take(all, q + PAGE_SIZE)
    ensures var page := Take(all[q..], PAGE_SIZE);
            var next := NextCursor(t, page, |all[q..]| > |page|);
            && (next.Some? <==> q + PAGE_SIZE < |all| && q + PAGE_SIZE <= KnownCount(t, all))
            && (next.Some? ==> next == Some(CursorOf(all[q + PAGE_SIZE - 1])))
  {
  }

  lemma FixedPage(t: Table, cutoff: int, rows: seq<Row>, after: Option<Cursor>, q: nat)
    requires DistinctIds(rows) && q <= |Eligible(t, cutoff, rows)|
    requires after == if q == 0 then None else Some(CursorOf(Eligible(t, cutoff, rows)[q - 1]))
    ensures var all := Eligible(t, cutoff, rows);
            var page := Paginate(t, after, cutoff, rows);
            && Take(all, q) + page.rows == Take(all, q + PAGE_SIZE)
            && (page.next.Some? <==> q + PAGE_SIZE < |all| && q + PAGE_SIZE <= KnownCount(t, all))
            && (page.next.Some? ==> page.next == Some(CursorOf(all[q + PAGE_SIZE - 1])))
  {
    var all := Eligible(t, cutoff, rows);
    FilterKeeps(rows, InTime(cutoff));
    SortSorts(Memory(t), Filter(rows, InTime(cutoff)));
    KnownAreFirst(t, all);
    if q == 0 {
      FilterAll(all, PastCursor(t, None));
      assert all[0..] == all;
    } else {
      RemainingIsTheRest(t, cutoff, rows, q);
    }
    OnePageOn(t, all, q);
  }

  /** The first n pages are the first n times fifty rows of the sorted list. */
  lemma {:induction false} FixedPages(t: Table, cutoff: int, snapshots: seq<seq<Row>>, pages: seq<Page>, rows: seq<Row>)
    requires IsRun(t, cutoff, snapshots, pages) && DistinctIds(rows) && Fixed(snapshots, rows) && pages != []
    ensures var all := Eligible(t, cutoff, rows);
            var n := |pages| * PAGE_SIZE;
            && (|pages| > 1 ==> n - PAGE_SIZE < |all| && n - PAGE_SIZE <= KnownCount(t, all))
            && Delivered(pages) == Take(all, n)
            && (pages[|pages| - 1].next.Some? <==> n < |all| && n <= KnownCount(t, all))
            && (pages[|pages| - 1].next.Some? ==> pages[|pages| - 1].next == Some(CursorOf(all[n - 1])))
  {
    var k := |pages| - 1;
    var q := k * PAGE_SIZE;
    PrefixRun(t, cutoff, snapshots, pages);
    assert snapshots[k] == rows;
    if k > 0 {
      FixedPages(t, cutoff, snapshots[..k], pages[..k], rows);
      assert pages[..k][k - 1] == pages[k - 1];
    }
    FixedPage(t, cutoff, rows, After(pages, k), q);
  }

  /** On a table that does not change, following the cursors to the end returns a prefix of the
      sorted list. It returns all of it exactly when no page ends in a row with an unknown period
      while there are more rows, which the two counts decide. */
  lemma FollowingAFixedTable(t: Table, cutoff: int, snapshots: seq<seq<Row>>, pages: seq<Page>, rows: seq<Row>)
    requires IsRun(t, cutoff, snapshots, pages) && DistinctIds(rows) && Fixed(snapshots, rows)
    requires pages != [] && pages[|pages| - 1].next.None?
    ensures var all := Eligible(t, cutoff, rows);
            var reach := (KnownCount(t, all) / PAGE_SIZE + 1) * PAGE_SIZE;
            && Delivered(pages) == Take(all, reach)
            && (Delivered(pages) == all <==> |all| <= reach)
            && (|pages| - 1) * PAGE_SIZE <= |all|
  {
    FixedPages(t, cutoff, snapshots, pages, rows);
    var all := Eligible(t, cutoff, rows);
    var known := KnownCount(t, all);
    var n := |pages| * PAGE_SIZE;
    if known < n {
      assert |pages| == known / PAGE_SIZE + 1;
    } else {
      assert known == |all|;
    }
  }
}
