/** The bounded, keyset-paged export (internal/lifecycle/export.go and the page
    queries of internal/store/pg/lifecycle.go) against its one-shot answer. */
module Export {
  import opened Common

  const PAGE: nat := 500
  const DEFAULT_MAX_ROWS: int := 5000
  const MAX_ROWS: int := 20000

  /** Go's zero time, which the queries read as "no cursor". */
  const ZERO_TIME: int := 0

  datatype Row = Row(at: int, key: nat, line: string)

  /** key is None for the empty string. */
  datatype Cursor = Cursor(at: int, key: Option<nat>) {
    predicate Zero() {
      at == ZERO_TIME && key.None?
    }
  }

  const START: Cursor := Cursor(ZERO_TIME, None)

  function After(r: Row): Cursor {
    Cursor(r.at, Some(r.key))
  }

  /** One source on a fixed table, in its ORDER BY order; keep is its WHERE clause,
      tenant predicate included. The management log pages by key alone. */
  datatype Source = Source(table: seq<Row>, keep: Row -> bool, byKey: bool)

  predicate Follows(a: Row, b: Row, byKey: bool) {
    if byKey then a.key < b.key else a.at < b.at || (a.at == b.at && a.key < b.key)
  }

  predicate Ordered(rows: seq<Row>, byKey: bool) {
    forall i, j :: 0 <= i < j < |rows| ==> Follows(rows[i], rows[j], byKey)
  }

  /** The cursor predicate: a null key, or a null time, lets everything through. */
  predicate Past(cur: Cursor, r: Row, byKey: bool) {
    if byKey then cur.key.Some? ==> cur.key.value < r.key
    else cur.at == ZERO_TIME || cur.at < r.at || (cur.at == r.at && (cur.key.Some? ==> cur.key.value < r.key))
  }

  function Query(table: seq<Row>, keep: Row -> bool, byKey: bool, cur: Cursor): seq<Row> {
    if table == [] then []
    else (if keep(table[0]) && Past(cur, table[0], byKey) then [table[0]] else []) + Query(table[1..], keep, byKey, cur)
  }

  /** The rows an unbounded query would return. */
  function Matching(s: Source): seq<Row> {
    Query(s.table, s.keep, s.byKey, START)
  }

  function Take(rows: seq<Row>, n: int): seq<Row> {
    if n <= 0 then [] else if n <= |rows| then rows[..n] else rows
  }

  /** One page and its continuation; a short page ends the source. */
  function Page(s: Source, cur: Cursor): (seq<Row>, Cursor) {
    var recs := Take(Query(s.table, s.keep, s.byKey, cur), PAGE);
    (recs, if |recs| < PAGE then START else After(recs[|recs| - 1]))
  }

  // ---- The walk ----

  /** What the loop emits from one source with budget rows left. */
  function Walk(s: Source, cur: Cursor, budget: nat): seq<Row>
    decreases budget
  {
    var (recs, next) := Page(s, cur);
    if |recs| > budget then recs[..budget]
    else if next.Zero() || recs == [] || budget == |recs| then recs
    else recs + Walk(s, next, budget - |recs|)
  }

  function WalkAll(sources: seq<Source>, budget: nat): seq<Row>
    decreases |sources|
  {
    if sources == [] then []
    else
      var rows := Walk(sources[0], START, budget);
      if |rows| >= budget then Take(rows, budget) else rows + WalkAll(sources[1..], budget - |rows|)
  }

  // ---- The one-shot answer ----

  function Concatenated(sources: seq<Source>): seq<Row> {
    if sources == [] then [] else Matching(sources[0]) + Concatenated(sources[1..])
  }

  function OneShot(sources: seq<Source>, budget: nat): seq<Row> {
    Take(Concatenated(sources), budget)
  }

  /** The one-shot answer, told by membership and length: the first budget rows, or
      all there are, of each source's kept rows in turn. */
  lemma OneShotIsTheFirstRows(sources: seq<Source>, budget: nat)
    ensures var all, one := Concatenated(sources), OneShot(sources, budget);
      && one <= all && |one| == (if |all| < budget then |all| else budget)
    ensures forall r :: r in Concatenated(sources) <==> exists s :: s in sources && r in s.table && s.keep(r)
  {
    KeptRows(sources);
  }

  lemma {:induction false} KeptRows(sources: seq<Source>)
    ensures forall r :: r in Concatenated(sources) <==> exists s :: s in sources && r in s.table && s.keep(r)
  {
    if sources != [] {
      var s := sources[0];
      KeptRows(sources[1..]);
      MatchingKeeps(s.table, s.keep, s.byKey);
      assert forall t :: t in sources <==> t == s || t in sources[1..];
    }
  }

  lemma {:induction false} MatchingKeeps(table: seq<Row>, keep: Row -> bool, byKey: bool)
    ensures forall r :: r in Query(table, keep, byKey, START) <==> r in table && keep(r)
  {
    if table != [] {
      MatchingKeeps(table[1..], keep, byKey);
      assert forall r :: r in table <==> r == table[0] || r in table[1..];
    }
  }

  // ---- Queries on an ordered table ----

  predicate Proper(s: Source) {
    Ordered(s.table, s.byKey)
  }

  /** A subsequence of the table, still ordered. */
  lemma {:induction false} QueryOrdered(table: seq<Row>, keep: Row -> bool, byKey: bool, cur: Cursor)
    requires Ordered(table, byKey)
    ensures Ordered(Query(table, keep, byKey, cur), byKey)
    ensures forall r :: r in Query(table, keep, byKey, cur) <==> r in table && keep(r) && Past(cur, r, byKey)
  {
    if table != [] {
      QueryOrdered(table[1..], keep, byKey, cur);
      var rest := Query(table[1..], keep, byKey, cur);
      forall i | 0 <= i < |rest| ensures Follows(table[0], rest[i], byKey) {
        assert rest[i] in table[1..];
        var j :| 0 <= j < |table[1..]| && table[1..][j] == rest[i];
        assert table[j + 1] == rest[i];
      }
    }
  }

  lemma QueryHead(table: seq<Row>, keep: Row -> bool, byKey: bool, cur: Cursor)
    requires table != []
    ensures var rest := Query(table[1..], keep, byKey, cur);
      Query(table, keep, byKey, cur) == if keep(table[0]) && Past(cur, table[0], byKey) then [table[0]] + rest else rest
  {
    hide Past;
  }

  /** The cursor of a later row filters the head out. */
  lemma HeadIsPassed(table: seq<Row>, keep: Row -> bool, byKey: bool, n: nat)
    requires table != [] && keep(table[0]) && Ordered(table, byKey) && 0 < n <= |Query(table, keep, byKey, START)|
    requires byKey || Query(table, keep, byKey, START)[n - 1].at != ZERO_TIME
    ensures !Past(After(Query(table, keep, byKey, START)[n - 1]), table[0], byKey)
  {
    QueryOrdered(table, keep, byKey, START);
    QueryHead(table, keep, byKey, START);
    hide Query;
    var all := Query(table, keep, byKey, START);
    assert n > 1 ==> Follows(all[0], all[n - 1], byKey);
  }

  lemma TailOrdered(table: seq<Row>, byKey: bool)
    requires table != [] && Ordered(table, byKey)
    ensures Ordered(table[1..], byKey)
    ensures forall i :: 0 <= i < |table[1..]| ==> Follows(table[0], table[1..][i], byKey)
  {
    hide Follows;
    forall i, j | 0 <= i < j < |table[1..]| ensures Follows(table[1..][i], table[1..][j], byKey) {
      assert Follows(table[i + 1], table[j + 1], byKey);
    }
    forall i | 0 <= i < |table[1..]| ensures Follows(table[0], table[1..][i], byKey) {
      assert Follows(table[0], table[i + 1], byKey);
    }
  }

  lemma DropHead(row: Row, rest: seq<Row>, n: nat)
    requires 0 < n <= |rest| + 1
    ensures ([row] + rest)[n..] == rest[n - 1..]
    ensures ([row] + rest)[n - 1] == if n > 1 then rest[n - 2] else row
  {
  }

  /** A cursor that filters: resuming after row n - 1 returns exactly the rest. */
  lemma {:induction false} QueryResumes(table: seq<Row>, keep: Row -> bool, byKey: bool, n: nat)
    requires Ordered(table, byKey) && 0 < n <= |Query(table, keep, byKey, START)|
    requires byKey || Query(table, keep, byKey, START)[n - 1].at != ZERO_TIME
    ensures var all := Query(table, keep, byKey, START);
      Query(table, keep, byKey, After(all[n - 1])) == all[n..]
  {
    assert table != [];
    var tail := table[1..];
    var row := table[0];
    var all := Query(table, keep, byKey, START);
    var rest := Query(tail, keep, byKey, START);
    var cur := After(all[n - 1]);
    assert Ordered(tail, byKey) by { TailOrdered(table, byKey); }
    QueryHead(table, keep, byKey, START);
    QueryHead(table, keep, byKey, cur);
    assert Past(START, row, byKey) by { StartPasses(row, byKey); }
    if !keep(row) {
      hide Query, Past, Follows, Ordered;
      QueryResumes(tail, keep, byKey, n);
    } else {
      HeadIsPassed(table, keep, byKey, n);
      if n == 1 {
        assert Query(tail, keep, byKey, After(row)) == rest by {
          TailOrdered(table, byKey);
          QuerySkipsNothing(tail, keep, byKey, row);
        }
      }
      hide Query, Past, Follows, Ordered;
      DropHead(row, rest, n);
      if n > 1 {
        QueryResumes(tail, keep, byKey, n - 1);
      }
    }
  }

  lemma StartPasses(r: Row, byKey: bool)
    ensures Past(START, r, byKey)
  {
  }

  /** Every later row is past the cursor of an earlier one. */
  lemma {:induction false} QuerySkipsNothing(table: seq<Row>, keep: Row -> bool, byKey: bool, row: Row)
    requires forall i :: 0 <= i < |table| ==> Follows(row, table[i], byKey)
    ensures Query(table, keep, byKey, After(row)) == Query(table, keep, byKey, START)
  {
    if table != [] {
      QuerySkipsNothing(table[1..], keep, byKey, row);
    }
  }

  /** A cursor at the zero time does not filter at all. */
  lemma {:induction false} QueryRestarts(table: seq<Row>, keep: Row -> bool, cur: Cursor)
    requires cur.at == ZERO_TIME
    ensures Query(table, keep, false, cur) == Query(table, keep, false, START)
  {
    if table != [] {
      QueryRestarts(table[1..], keep, cur);
    }
  }

  // ---- Exactness of one source ----

  /** The cursor the walk carries after n rows. */
  function CursorAt(s: Source, n: nat): Cursor
    requires n <= |Matching(s)|
  {
    if n == 0 then START else After(Matching(s)[n - 1])
  }

  /** The page that ends at row b is full, is continued, and its cursor filters. */
  predicate Continues(s: Source, b: nat)
    requires b < |Matching(s)|
  {
    s.byKey || Matching(s)[b].at != ZERO_TIME
  }

  /** No page boundary within the budget falls on a row with the zero time. */
  predicate CleanFrom(s: Source, n: nat, budget: nat) {
    forall b :: n <= b < |Matching(s)| && b % PAGE == PAGE - 1 && b + 1 < n + budget ==> Continues(s, b)
  }

  predicate Clean(s: Source, budget: nat) {
    CleanFrom(s, 0, budget)
  }

  lemma PageFrom(s: Source, n: nat)
    requires Proper(s) && n <= |Matching(s)| && (n > 0 ==> Continues(s, n - 1))
    ensures var all := Matching(s);
      Page(s, CursorAt(s, n)).0 == Take(all[n..], PAGE)
    ensures |Matching(s)| - n >= PAGE ==> Page(s, CursorAt(s, n)).1 == CursorAt(s, n + PAGE)
    ensures |Matching(s)| - n < PAGE ==> Page(s, CursorAt(s, n)).1 == START
  {
    if n > 0 {
      QueryResumes(s.table, s.keep, s.byKey, n);
    }
  }

  /** A short page is the last one. */
  lemma WalkLastPage(s: Source, n: nat, budget: nat)
    requires Proper(s) && n <= |Matching(s)| < n + PAGE && (n > 0 ==> Continues(s, n - 1))
    ensures Walk(s, CursorAt(s, n), budget) == Take(Matching(s)[n..], budget)
  {
    PageFrom(s, n);
    hide Page, Matching, Query;
  }

  lemma TakePage(all: seq<Row>, n: nat, budget: nat)
    requires n + PAGE <= |all| && budget > PAGE
    ensures Take(all[n..], budget) == all[n..n + PAGE] + Take(all[n + PAGE..], budget - PAGE)
  {
    assert all[n..] == all[n..n + PAGE] + all[n + PAGE..];
  }

  /** If every boundary continues, the walk emits exactly the next rows. */
  lemma {:induction false} WalkExact(s: Source, n: nat, budget: nat)
    requires Proper(s) && n <= |Matching(s)| && n % PAGE == 0 && (n > 0 ==> Continues(s, n - 1))
    requires CleanFrom(s, n, budget)
    ensures Walk(s, CursorAt(s, n), budget) == Take(Matching(s)[n..], budget)
    decreases budget
  {
    hide Walk, Matching, Continues, Take;
    var all := Matching(s);
    if |all| < n + PAGE {
      WalkLastPage(s, n, budget);
    } else if budget <= PAGE {
      WalkShortBudget(s, n, budget);
      assert all[n..n + budget] == Take(all[n..], budget) by { TakeShort(all, n, budget); }
    } else {
      WalkPage(s, n, budget);
      TakePage(all, n, budget);
      assert Continues(s, n + PAGE - 1);
      WalkExact(s, n + PAGE, budget - PAGE);
    }
  }

  lemma TakeShort(all: seq<Row>, n: nat, budget: nat)
    requires n + budget <= |all|
    ensures Take(all[n..], budget) == all[n..n + budget]
  {
  }

  /** After a boundary on a zero-time row the walk starts over. */
  lemma WalkRestarts(s: Source, b: nat, budget: nat)
    requires b < |Matching(s)| && !Continues(s, b)
    ensures Walk(s, After(Matching(s)[b]), budget) == Walk(s, START, budget)
  {
    QueryRestarts(s.table, s.keep, After(Matching(s)[b]));
    assert Page(s, After(Matching(s)[b])) == Page(s, START);
    hide Page, Matching;
  }

  /** One full page, followed by the rest of the walk. */
  lemma WalkPage(s: Source, n: nat, budget: nat)
    requires Proper(s) && n + PAGE <= |Matching(s)| && (n > 0 ==> Continues(s, n - 1)) && budget > PAGE
    ensures Walk(s, CursorAt(s, n), budget) == Matching(s)[n..n + PAGE] + Walk(s, CursorAt(s, n + PAGE), budget - PAGE)
  {
    PageFrom(s, n);
    hide Page, Matching, Query;
    assert Matching(s)[n..][..PAGE] == Matching(s)[n..n + PAGE];
  }

  lemma WalkShortBudget(s: Source, n: nat, budget: nat)
    requires Proper(s) && n + PAGE <= |Matching(s)| && (n > 0 ==> Continues(s, n - 1)) && budget <= PAGE
    ensures Walk(s, CursorAt(s, n), budget) == Matching(s)[n..n + budget]
  {
    PageFrom(s, n);
    hide Page, Matching, Query;
    assert Matching(s)[n..][..PAGE][..budget] == Matching(s)[n..n + budget];
    assert Matching(s)[n..][..PAGE] == Matching(s)[n..n + PAGE];
  }

  /** The boundary at or after a page start is at its end or on a later page. */
  lemma PageEnds(n: nat, b: nat)
    requires n % PAGE == 0 && n <= b && b % PAGE == PAGE - 1
    ensures n + PAGE - 1 <= b && (n + PAGE) % PAGE == 0
  {
    assert n == n / PAGE * PAGE && b == b / PAGE * PAGE + PAGE - 1;
    assert n / PAGE <= b / PAGE;
  }

  /** A stuck walk never runs out of rows: it fills the whole budget. */
  lemma {:induction false} StuckWalkFills(s: Source, n: nat, budget: nat, b: nat)
    requires Proper(s) && n % PAGE == 0 && n <= b < |Matching(s)| && b % PAGE == PAGE - 1 && !Continues(s, b)
    requires n > 0 ==> Continues(s, n - 1)
    ensures |Walk(s, CursorAt(s, n), budget)| == budget
    decreases budget
  {
    hide Walk, Matching, Continues, Proper;
    PageEnds(n, b);
    if budget <= PAGE {
      WalkShortBudget(s, n, budget);
    } else {
      WalkPage(s, n, budget);
      if Continues(s, n + PAGE - 1) {
        assert b != n + PAGE - 1;
        StuckWalkFills(s, n + PAGE, budget - PAGE, b);
      } else {
        WalkRestarts(s, n + PAGE - 1, budget - PAGE);
        StuckWalkFills(s, 0, budget - PAGE, b);
      }
    }
  }

  lemma RowsDistinct(s: Source, i: nat, j: nat)
    requires Proper(s) && i < j < |Matching(s)|
    ensures Matching(s)[i] != Matching(s)[j]
  {
    QueryOrdered(s.table, s.keep, s.byKey, START);
    assert Follows(Matching(s)[i], Matching(s)[j], s.byKey);
  }

  lemma TailsDiffer(a: seq<Row>, b: seq<Row>, c: seq<Row>)
    requires b != c
    ensures a + b != a + c
  {
    assert (a + b)[|a|..] == b && (a + c)[|a|..] == c;
  }

  /** Starting over repeats the first row where another, or none, is due. */
  lemma RestartDiffers(s: Source, n: nat, budget: nat, b: nat)
    requires Proper(s) && 0 < n <= |Matching(s)| && PAGE <= |Matching(s)| && !Continues(s, n - 1) && budget > 0
    requires b < |Matching(s)| && b % PAGE == PAGE - 1 && !Continues(s, b)
    ensures Walk(s, CursorAt(s, n), budget) != Take(Matching(s)[n..], budget)
  {
    hide Walk, Matching, Continues, Take;
    WalkRestarts(s, n - 1, budget);
    FirstRow(s, budget, b);
    if n < |Matching(s)| {
      RowsDistinct(s, 0, n);
    }
    TakeHead(Matching(s), n, budget);
  }

  /** A dirty boundary lies at the end of this page or beyond it. */
  lemma DirtyBoundary(s: Source, n: nat, budget: nat) returns (b: nat)
    requires n <= |Matching(s)| && n % PAGE == 0 && !CleanFrom(s, n, budget)
    ensures n + PAGE <= b + 1 <= |Matching(s)| && b % PAGE == PAGE - 1 && b + 1 < n + budget && !Continues(s, b)
    ensures (n + PAGE) % PAGE == 0
    ensures Continues(s, n + PAGE - 1) ==> !CleanFrom(s, n + PAGE, budget - PAGE)
  {
    hide Matching, Continues;
    b :| n <= b < |Matching(s)| && b % PAGE == PAGE - 1 && b + 1 < n + budget && !Continues(s, b);
    assert b >= n + PAGE - 1;
    if Continues(s, n + PAGE - 1) {
      assert n + PAGE <= b < |Matching(s)| && b + 1 < n + PAGE + (budget - PAGE);
    }
  }

  /** If some boundary does not continue, the walk emits something else. */
  lemma {:induction false} WalkInexact(s: Source, n: nat, budget: nat)
    requires Proper(s) && n <= |Matching(s)| && n % PAGE == 0 && (n > 0 ==> Continues(s, n - 1))
    requires !CleanFrom(s, n, budget)
    ensures Walk(s, CursorAt(s, n), budget) != Take(Matching(s)[n..], budget)
    ensures |Walk(s, CursorAt(s, n), budget)| == budget
    decreases budget
  {
    hide Walk, Matching, Continues, Take, CleanFrom;
    var all := Matching(s);
    var b := DirtyBoundary(s, n, budget);
    StuckWalkFills(s, n, budget, b);
    WalkPage(s, n, budget);
    TakePage(all, n, budget);
    var rest := Walk(s, CursorAt(s, n + PAGE), budget - PAGE);
    var answer := Take(all[n + PAGE..], budget - PAGE);
    if Continues(s, n + PAGE - 1) {
      WalkInexact(s, n + PAGE, budget - PAGE);
    } else {
      RestartDiffers(s, n + PAGE, budget - PAGE, b);
    }
    TailsDiffer(all[n..n + PAGE], rest, answer);
  }

  lemma TakeHead(all: seq<Row>, n: nat, budget: nat)
    requires n <= |all| && budget > 0
    ensures if n < |all| then Take(all[n..], budget) != [] && Take(all[n..], budget)[0] == all[n]
        else Take(all[n..], budget) == []
  {
  }

  lemma FirstRow(s: Source, budget: nat, b: nat)
    requires Proper(s) && PAGE <= |Matching(s)| && budget > 0
    requires b < |Matching(s)| && b % PAGE == PAGE - 1 && !Continues(s, b)
    ensures Walk(s, START, budget) != [] && Walk(s, START, budget)[0] == Matching(s)[0]
  {
    hide Walk, Matching, Continues;
    StuckWalkFills(s, 0, budget, b);
    if budget <= PAGE {
      WalkShortBudget(s, 0, budget);
    } else {
      WalkPage(s, 0, budget);
    }
  }

  /** One source: the walk terminates and its output equals the one-shot answer if
      and only if no page boundary reached within the budget is a row whose
      timestamp is the zero time (the management log, paged by key, always is). */
  lemma SourceExactIff(s: Source, budget: nat)
    requires Proper(s)
    ensures Walk(s, START, budget) == Take(Matching(s), budget) <==> Clean(s, budget)
    ensures !Clean(s, budget) ==> |Walk(s, START, budget)| == budget
  {
    assert Matching(s)[0..] == Matching(s);
    hide Walk, Matching;
    if Clean(s, budget) {
      WalkExact(s, 0, budget);
    } else {
      WalkInexact(s, 0, budget);
    }
  }

  // ---- The whole export ----

  predicate AllClean(sources: seq<Source>, budget: int) {
    sources == [] || budget <= 0 ||
    (Clean(sources[0], budget) && AllClean(sources[1..], budget - |Matching(sources[0])|))
  }

  /** The paged export equals the one-shot answer: on a fixed table the emitted
      lines are exactly the first MaxRows of the concatenation, in source order, of
      each source's matching rows in key order, none skipped and none repeated, if
      and only if every source it reaches is clean for what is left of the budget. */
  lemma {:induction false} ExportExactIff(sources: seq<Source>, budget: nat)
    requires Kinds(sources) && forall i :: 0 <= i < |sources| ==> Proper(sources[i])
    ensures WalkAll(sources, budget) == OneShot(sources, budget) <==> AllClean(sources, budget)
    decreases |sources|
  {
    if sources != [] {
      var s := sources[0];
      var rows := Walk(s, START, budget);
      var all := Matching(s);
      SourceExactIff(s, budget);
      hide Walk, Matching, Clean;
      if Clean(s, budget) {
        if |all| < budget {
          ExportExactIff(sources[1..], budget - |all|);
          TakeSplit(all, Concatenated(sources[1..]), budget);
        } else {
          TakePrefix(all, Concatenated(sources[1..]), budget);
        }
      } else {
        DirtySource(sources, budget);
      }
    }
  }

  lemma TakeSplit(a: seq<Row>, b: seq<Row>, n: nat)
    requires |a| < n
    ensures Take(a + b, n) == a + Take(b, n - |a|)
    ensures forall c :: a + c == a + Take(b, n - |a|) ==> c == Take(b, n - |a|)
  {
    forall c | a + c == a + Take(b, n - |a|) ensures c == Take(b, n - |a|) {
      assert (a + c)[|a|..] == c && (a + Take(b, n - |a|))[|a|..] == Take(b, n - |a|);
    }
  }

  lemma TakePrefix(a: seq<Row>, b: seq<Row>, n: nat)
    requires n <= |a|
    ensures Take(a + b, n) == Take(a, n) == Take(Take(a, n), n)
  {
  }

  lemma {:induction false} WalkFromTable(s: Source, cur: Cursor, budget: nat)
    requires Proper(s)
    ensures forall r :: r in Walk(s, cur, budget) ==> r in s.table
    decreases budget
  {
    QueryOrdered(s.table, s.keep, s.byKey, cur);
    var (recs, next) := Page(s, cur);
    assert forall r :: r in recs ==> r in s.table;
    hide Page, Query;
    if |recs| <= budget && !(next.Zero() || recs == [] || budget == |recs|) {
      WalkFromTable(s, next, budget - |recs|);
    }
  }

  lemma {:induction false} ConcatenatedFromTables(sources: seq<Source>, r: Row)
    requires forall i :: 0 <= i < |sources| ==> Proper(sources[i])
    requires r in Concatenated(sources)
    ensures exists i :: 0 <= i < |sources| && r in sources[i].table
  {
    var s := sources[0];
    QueryOrdered(s.table, s.keep, s.byKey, START);
    if r in Matching(s) {
      assert r in s.table;
    } else {
      ConcatenatedFromTables(sources[1..], r);
      var i :| 0 <= i < |sources[1..]| && r in sources[1..][i].table;
      assert r in sources[i + 1].table;
    }
  }

  /** A dirty source spoils the whole export. */
  lemma DirtySource(sources: seq<Source>, budget: nat)
    requires sources != [] && !Clean(sources[0], budget) && Kinds(sources)
    requires forall i :: 0 <= i < |sources| ==> Proper(sources[i])
    ensures WalkAll(sources, budget) != OneShot(sources, budget)
  {
    var s := sources[0];
    var rows := Walk(s, START, budget);
    var all := Matching(s);
    var rest := Concatenated(sources[1..]);
    SourceExactIff(s, budget);
    WalkFromTable(s, START, budget);
    hide Walk, Matching, Clean;
    assert WalkAll(sources, budget) == rows;
    var answer := Take(all + rest, budget);
    if budget <= |all| {
      TakePrefix(all, rest, budget);
    } else if rest != [] {
      assert answer[|all|] == rest[0];
      assert rest[0] in rest;
      ConcatenatedFromTables(sources[1..], rest[0]);
      var i :| 0 <= i < |sources[1..]| && rest[0] in sources[1..][i].table;
      assert sources[1..][i] == sources[i + 1];
      assert rows[|all|] in rows;
      assert rows[|all|] != rest[0];
    } else {
      assert |answer| <= |all|;
    }
  }

  /** Lines of different sources differ: each names its record kind. */
  predicate Kinds(sources: seq<Source>) {
    forall i, j :: 0 <= i < j < |sources| ==> forall r :: r in sources[i].table ==> r !in sources[j].table
  }

  lemma {:induction false} KeepAll(table: seq<Row>)
    ensures Query(table, (r: Row) => true, false, START) == table
  {
    if table != [] {
      KeepAll(table[1..]);
    }
  }

  /** The condition is not idle: five hundred rows at the zero time, and a budget of
      one more, export the first row twice. */
  lemma ZeroTimesRepeat()
    ensures var s := Source(seq(PAGE, (i: nat) => Row(ZERO_TIME, i, "")), (r: Row) => true, false);
      Proper(s) && !AllClean([s], PAGE + 1) && WalkAll([s], PAGE + 1) != OneShot([s], PAGE + 1)
  {
    var s := Source(seq(PAGE, (i: nat) => Row(ZERO_TIME, i, "")), (r: Row) => true, false);
    KeepAll(s.table);
    assert Matching(s) == s.table;
    assert !Continues(s, PAGE - 1);
    assert !Clean(s, PAGE + 1) by {
      assert (PAGE - 1) % PAGE == PAGE - 1;
    }
    DirtySource([s], PAGE + 1);
  }

  // ---- The filter ----

  datatype Filter = Filter(tenant: string, includeManagementLog: bool, maxRows: int)

  function PrepareFilter(f: Filter): Filter {
    var rows := if f.maxRows <= 0 then DEFAULT_MAX_ROWS else f.maxRows;
    f.(maxRows := if rows > MAX_ROWS then MAX_ROWS else rows,
       includeManagementLog := f.tenant == "" && f.includeManagementLog)
  }

  /** The four tables, then the management log if it may be exported at all. */
  function SourcesOf(tables: seq<Source>, log: Source, f: Filter): seq<Source> {
    if f.includeManagementLog && f.tenant == "" then tables + [log] else tables
  }

  /** Whatever was asked for: the budget is between 1 and 20000, a request inside
      it is kept, none means 5000 and more means 20000; and a tenant-scoped export
      never reaches the management log. */
  lemma PreparedIsBounded(f: Filter, tables: seq<Source>, log: Source)
    ensures var p := PrepareFilter(f);
      && 1 <= p.maxRows <= MAX_ROWS && (1 <= f.maxRows <= MAX_ROWS ==> p.maxRows == f.maxRows) && p.tenant == f.tenant
      && (f.maxRows <= 0 ==> p.maxRows == 5000) && (f.maxRows > 20000 ==> p.maxRows == 20000)
      && PrepareFilter(p) == p
      && (f.tenant != "" || !f.includeManagementLog ==> SourcesOf(tables, log, p) == tables)
      && (f.tenant == "" && f.includeManagementLog ==> SourcesOf(tables, log, p) == tables + [log])
  {
  }

  // ---- The artifact ----

  /** digest stands for the hash state: the bytes fed to it so far. */
  class ExportArtifact {
    var lines: seq<string>
    var digest: seq<string>
    var rows: nat
    const limit: nat

    constructor (limit: nat)
      ensures this.limit == limit && lines == [] && Valid()
    {
      this.limit, lines, digest, rows := limit, [], [], 0;
    }

    /** What is hashed and counted is exactly what was emitted. */
    ghost predicate Valid()
      reads this
    {
      digest == lines && rows == |lines| <= limit
    }

    method Write(r: Row) returns (emitted: bool)
      requires Valid()
      modifies this
      ensures Valid() && emitted == (|old(lines)| < limit)
      ensures lines == if emitted then old(lines) + [r.line] else old(lines)
    {
      if rows >= limit {
        return false;
      }
      digest := digest + [r.line];
      lines := lines + [r.line];
      rows := rows + 1;
      return true;
    }

    /** Emits a page until the budget is spent. */
    method WritePage(recs: seq<Row>) returns (all: bool)
      requires Valid()
      modifies this
      ensures Valid() && all == (|old(lines)| + |recs| <= limit)
      ensures lines == old(lines) + Lines(Take(recs, limit - |old(lines)|))
      ensures if all then lines == old(lines) + Lines(recs) && |lines| == |old(lines)| + |recs| else |lines| == limit
    {
      var n := 0;
      while n < |recs|
        invariant 0 <= n <= |recs| && Valid() && |old(lines)| + n <= limit
        invariant lines == old(lines) + Lines(recs[..n])
      {
        var emitted := Write(recs[n]);
        if !emitted {
          return false;
        }
        n := n + 1;
      }
      assert recs[..n] == recs;
      return true;
    }
  }

  function Lines(rows: seq<Row>): seq<string> {
    seq(|rows|, i requires 0 <= i < |rows| => rows[i].line)
  }

  lemma NoLines()
    ensures Lines([]) == []
  {
  }

  lemma LinesAppend(begun: seq<string>, done: seq<Row>, recs: seq<Row>)
    ensures begun + Lines(done) + Lines(recs) == begun + Lines(done + recs)
  {
    LinesJoin(done, recs);
    assert begun + Lines(done) + Lines(recs) == begun + (Lines(done) + Lines(recs));
  }

  lemma LinesJoin(a: seq<Row>, b: seq<Row>)
    ensures Lines(a + b) == Lines(a) + Lines(b)
  {
  }

  lemma WalkUnfold(s: Source, cur: Cursor, budget: nat, done: seq<Row>)
    ensures var (recs, next) := Page(s, cur);
      done + Walk(s, cur, budget)
      == if |recs| > budget then done + Take(recs, budget)
         else if next.Zero() || recs == [] || budget == |recs| then done + recs
         else done + recs + Walk(s, next, budget - |recs|)
  {
    hide Page;
  }

  /** One source; false when the row budget is spent. */
  method WalkSource(s: Source, artifact: ExportArtifact) returns (more: bool)
    requires artifact.Valid()
    modifies artifact
    ensures artifact.Valid()
    ensures artifact.lines == old(artifact.lines) + Lines(Walk(s, START, artifact.limit - |old(artifact.lines)|))
    ensures !more ==> |artifact.lines| == artifact.limit
  {
    hide Page, Walk, Take, Lines;
    var cur := START;
    ghost var begun := artifact.lines;
    ghost var left: nat := artifact.limit - |begun|;
    ghost var whole := Walk(s, START, left);
    ghost var done: seq<Row> := [];
    NoLines();
    assert [] + whole == whole;
    while true
      invariant artifact.Valid() && left == artifact.limit - |artifact.lines|
      invariant artifact.lines == begun + Lines(done) && whole == done + Walk(s, cur, left)
      decreases left
    {
      var (recs, next) := Page(s, cur);
      WalkUnfold(s, cur, left, done);
      var all := artifact.WritePage(recs);
      if !all {
        LinesAppend(begun, done, Take(recs, left));
        return false;
      }
      LinesAppend(begun, done, recs);
      if next.Zero() || recs == [] {
        return true;
      }
      cur := next;
      if artifact.rows >= artifact.limit {
        return false;
      }
      done, left := done + recs, left - |recs|;
    }
  }

  /** Every source in turn, until the sources or the budget run out. */
  method ExportPages(sources: seq<Source>, artifact: ExportArtifact)
    requires artifact.Valid() && artifact.lines == []
    modifies artifact
    ensures artifact.Valid() && artifact.lines == Lines(WalkAll(sources, artifact.limit))
  {
    hide Walk;
    ghost var done: seq<Row> := [];
    var n := 0;
    while n < |sources|
      invariant 0 <= n <= |sources| && artifact.Valid() && artifact.lines == Lines(done)
      invariant WalkAll(sources, artifact.limit) == done + WalkAll(sources[n..], artifact.limit - |artifact.lines|)
    {
      ghost var budget: nat := artifact.limit - |artifact.lines|;
      ghost var rows := Walk(sources[n], START, budget);
      assert sources[n..][0] == sources[n] && sources[n..][1..] == sources[n + 1..];
      var more := WalkSource(sources[n], artifact);
      LinesJoin(done, rows);
      WalkAllStep(sources[n..], budget, done);
      done := done + rows;
      if !more {
        return;
      }
      n := n + 1;
    }
  }

  lemma WalkAllStep(sources: seq<Source>, budget: nat, done: seq<Row>)
    requires sources != []
    ensures var rows := Walk(sources[0], START, budget);
      |rows| <= budget ==>
        && done + WalkAll(sources, budget) == done + rows + WalkAll(sources[1..], budget - |rows|)
        && (|rows| == budget ==> done + WalkAll(sources, budget) == done + rows)
  {
    hide Walk;
    NoBudget(sources[1..]);
  }

  lemma {:induction false} NoBudget(sources: seq<Source>)
    ensures WalkAll(sources, 0) == []
  {
  }
}
