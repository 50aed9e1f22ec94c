/** Sorted lists and their pages (apply_sort in backend/app/domain/sorting.py, list_entities in
    backend/app/domain/backlog.py): which orders make page-by-page reading safe. */
module Sorting {
  import opened Common
  import opened Keys

  /** What a list may be ordered by: the two parts of a natural key, or another column. */
  datatype Column = KeyLength | KeyText | Field(name: string)

  datatype Clause = Clause(column: Column, descending: bool)

  /** A listed row.  The database compares the values of a column somehow; `ranks` stands for
      the outcome. */
  datatype Row = Row(key: string, ranks: map<string, int>)

  const NATURAL: seq<Column> := [KeyLength, KeyText]

  function RankOf(r: Row, name: string): int {
    if name in r.ranks then r.ranks[name] else 0
  }

  predicate Before(c: Column, a: Row, b: Row) {
    match c
    case KeyLength => |a.key| < |b.key|
    case KeyText => TextLess(a.key, b.key)
    case Field(name) => RankOf(a, name) < RankOf(b, name)
  }

  predicate ClauseBefore(c: Clause, a: Row, b: Row) {
    if c.descending then Before(c.column, b, a) else Before(c.column, a, b)
  }

  /** The first clause that tells the rows apart decides. */
  predicate Precedes(cs: seq<Clause>, a: Row, b: Row) {
    cs != [] &&
    (ClauseBefore(cs[0], a, b) || (!ClauseBefore(cs[0], b, a) && Precedes(cs[1..], a, b)))
  }

  predicate Ties(cs: seq<Clause>, a: Row, b: Row) {
    !Precedes(cs, a, b) && !Precedes(cs, b, a)
  }

  // ------------------------------------------------------------------ apply_sort

  type Allowed = map<string, seq<Column>>

  predicate Descending(token: string) {
    token != "" && token[0] == '-'
  }

  function FieldOf(token: string): string {
    if Descending(token) then token[1..] else token
  }

  function Directed(columns: seq<Column>, descending: bool): seq<Clause> {
    seq(|columns|, i requires 0 <= i < |columns| => Clause(columns[i], descending))
  }

  function TokenClauses(raw: string, allowed: Allowed): seq<Clause> {
    var token := Strip(raw);
    if token == "" || FieldOf(token) !in allowed then [] else Directed(allowed[FieldOf(token)], Descending(token))
  }

  function AllClauses(tokens: seq<string>, allowed: Allowed): seq<Clause> {
    if tokens == [] then []
    else AllClauses(tokens[..|tokens| - 1], allowed) + TokenClauses(tokens[|tokens| - 1], allowed)
  }

  predicate Unknown(raw: string, allowed: Allowed) {
    Strip(raw) != "" && FieldOf(Strip(raw)) !in allowed
  }

  /** `tokens` are the comma-separated parts of the sort, none when no sort is asked for.  An unknown field is
      refused; blanks are skipped; an order that names no column falls back to the default. */
  method ApplySort(tokens: seq<string>, allowed: Allowed, fallback: seq<Column>) returns (r: Result<seq<Clause>>)
    ensures r.Err? <==> exists i :: 0 <= i < |tokens| && Unknown(tokens[i], allowed)
    ensures r.Err? ==> r == Err(Invalid)
    ensures r.Ok? ==> r.value == if AllClauses(tokens, allowed) == [] then Directed(fallback, false)
                                 else AllClauses(tokens, allowed)
  {
    var clauses: seq<Clause> := [];
    for i := 0 to |tokens|
      invariant clauses == AllClauses(tokens[..i], allowed)
      invariant forall k :: 0 <= k < i ==> !Unknown(tokens[k], allowed)
    {
      assert tokens[..i + 1][..i] == tokens[..i] && tokens[..i + 1][i] == tokens[i];
      var token := Strip(tokens[i]);
      if token == "" { continue; }
      var desc := token[0] == '-';
      var field := if desc then token[1..] else token;
      if field !in allowed {
        assert Unknown(tokens[i], allowed);
        return Err(Invalid);
      }
      clauses := clauses + Directed(allowed[field], desc);
    }
    assert tokens[..|tokens|] == tokens;
    if clauses == [] { return Ok(Directed(fallback, false)); }
    return Ok(clauses);
  }

  // ------------------------------------------------------------------ what a sort token means

  /** How a caller asks for an order: the field, with a minus in front for descending. */
  function Token(field: string, descending: bool): string {
    if descending then "-" + field else field
  }

  /** Columns one after another, all in this direction. */
  function Asked(fields: seq<(string, bool)>, allowed: Allowed): seq<Clause>
    requires forall i :: 0 <= i < |fields| ==> fields[i].0 in allowed
  {
    if fields == [] then []
    else
      Asked(fields[..|fields| - 1], allowed) + Directed(allowed[fields[|fields| - 1].0], fields[|fields| - 1].1)
  }

  /** What is asked for is what is sorted by: each field in turn, in its own direction, whatever
      blanks stand around it. */
  lemma {:induction false} TokensAreRead(tokens: seq<string>, fields: seq<(string, bool)>, allowed: Allowed)
    requires |tokens| == |fields|
    requires forall i :: 0 <= i < |fields| ==>
               && fields[i].0 in allowed && fields[i].0 != "" && fields[i].0[0] != '-'
               && Strip(tokens[i]) == Token(fields[i].0, fields[i].1)
    ensures AllClauses(tokens, allowed) == Asked(fields, allowed)
    ensures forall i :: 0 <= i < |fields| ==> !Unknown(tokens[i], allowed)
  {
    forall i | 0 <= i < |fields| ensures !Unknown(tokens[i], allowed) {
      TokenIsRead(tokens[i], fields[i].0, fields[i].1, allowed);
    }
    if fields == [] {
    } else {
      var n := |fields| - 1;
      TokensAreRead(tokens[..n], fields[..n], allowed);
      TokenIsRead(tokens[n], fields[n].0, fields[n].1, allowed);
    }
  }

  lemma TokenIsRead(token: string, field: string, descending: bool, allowed: Allowed)
    requires field in allowed && field != "" && field[0] != '-' && Strip(token) == Token(field, descending)
    ensures TokenClauses(token, allowed) == Directed(allowed[field], descending)
    ensures !Unknown(token, allowed)
  {
    hide Strip;
  }

  /** Descending is ascending read backwards, column for column. */
  lemma {:induction false} MinusReverses(columns: seq<Column>, a: Row, b: Row)
    ensures Precedes(Directed(columns, true), a, b) <==> Precedes(Directed(columns, false), b, a)
  {
    if columns == [] {
    } else {
      assert Directed(columns, true)[1..] == Directed(columns[1..], true);
      assert Directed(columns, false)[1..] == Directed(columns[1..], false);
      MinusReverses(columns[1..], a, b);
      hide TextLess;
    }
  }

  /** Under one ascending field the smaller value comes first, and equal values tie. */
  lemma FieldOrders(name: string, a: Row, b: Row)
    requires name in a.ranks && name in b.ranks
    ensures Precedes([Clause(Field(name), false)], a, b) <==> a.ranks[name] < b.ranks[name]
    ensures Ties([Clause(Field(name), false)], a, b) <==> a.ranks[name] == b.ranks[name]
  {
    var cs := [Clause(Field(name), false)];
    assert cs[1..] == [];
    assert Precedes(cs, b, a) <==> b.ranks[name] < a.ranks[name];
  }

  /** Later clauses decide only where the earlier ones tie. */
  lemma {:induction false} ClausesInTurn(first: seq<Clause>, rest: seq<Clause>, a: Row, b: Row)
    ensures Precedes(first + rest, a, b) <==> Precedes(first, a, b) || (Ties(first, a, b) && Precedes(rest, a, b))
  {
    if first == [] {
      assert first + rest == rest;
    } else {
      assert (first + rest)[1..] == first[1..] + rest;
      ClausesInTurn(first[1..], rest, a, b);
      PrecedesAsymmetric(first, a, b);
      hide ClauseBefore;
      ClauseAsymmetric(first[0], a, b);
    }
  }

  lemma ClauseAsymmetric(c: Clause, a: Row, b: Row)
    ensures !(ClauseBefore(c, a, b) && ClauseBefore(c, b, a))
  {
    if c.column.KeyText? { TextTotal(a.key, b.key); }
  }

  // ------------------------------------------------------------------ the order is a weak order

  lemma {:induction false} PrecedesAsymmetric(cs: seq<Clause>, a: Row, b: Row)
    ensures !(Precedes(cs, a, b) && Precedes(cs, b, a))
  {
    if cs == [] {
    } else {
      if cs[0].column.KeyText? { TextTotal(a.key, b.key); }
      PrecedesAsymmetric(cs[1..], a, b);
    }
  }

  lemma BeforeWeak(c: Clause, a: Row, b: Row, d: Row)
    requires !ClauseBefore(c, b, a) && !ClauseBefore(c, d, b)
    ensures !ClauseBefore(c, d, a)
    ensures !ClauseBefore(c, a, d) ==> !ClauseBefore(c, a, b) && !ClauseBefore(c, b, d)
  {
    if c.column.KeyText? {
      TextTotal(a.key, b.key);
      TextTotal(b.key, d.key);
      TextTotal(a.key, d.key);
      if TextLess(a.key, b.key) && TextLess(b.key, d.key) { TextTransitive(a.key, b.key, d.key); }
      if TextLess(d.key, b.key) && TextLess(b.key, a.key) { TextTransitive(d.key, b.key, a.key); }
    }
  }

  lemma {:induction false} NotAfterTransitive(cs: seq<Clause>, a: Row, b: Row, d: Row)
    requires !Precedes(cs, b, a) && !Precedes(cs, d, b)
    ensures !Precedes(cs, d, a)
  {
    hide ClauseBefore;
    if cs == [] {
    } else {
      BeforeWeak(cs[0], a, b, d);
      if !ClauseBefore(cs[0], a, d) { NotAfterTransitive(cs[1..], a, b, d); }
    }
  }

  // ------------------------------------------------------------------ pages

  function Cut(n: nat, total: nat): nat {
    if n <= total then n else total
  }

  /** The rows of one page, as many as are left of them. */
  function Page<T>(rows: seq<T>, page: nat, size: nat): seq<T>
    requires page >= 1
  {
    var lo, hi := Cut((page - 1) * size, |rows|), Cut((page - 1) * size + size, |rows|);
    rows[lo..hi]
  }

  function PageCount(total: nat, size: nat): nat
    requires size >= 1
  {
    if (total + size - 1) / size >= 1 then (total + size - 1) / size else 1
  }

  /** Page after page, each from its own run of the query. */
  function Pages<T>(runs: seq<seq<T>>, size: nat): seq<T> {
    if runs == [] then []
    else Pages(runs[..|runs| - 1], size) + Page(runs[|runs| - 1], |runs|, size)
  }

  lemma {:induction false} PagesArePrefix<T>(runs: seq<seq<T>>, rows: seq<T>, size: nat)
    requires forall i :: 0 <= i < |runs| ==> runs[i] == rows
    ensures Pages(runs, size) == rows[..Cut(|runs| * size, |rows|)]
  {
    if runs == [] {
    } else {
      hide Cut, Page;
      PagesArePrefix(runs[..|runs| - 1], rows, size);
      OnePage(rows, |runs|, size);
    }
  }

  lemma OnePage<T>(rows: seq<T>, page: nat, size: nat)
    requires page >= 1
    ensures rows[..Cut((page - 1) * size, |rows|)] + Page(rows, page, size) == rows[..Cut(page * size, |rows|)]
  {}

  /** If every run of the query returns the same list, its pages put together are that list. */
  lemma EqualRunsPageOut<T>(runs: seq<seq<T>>, size: nat)
    requires size >= 1 && runs != [] && |runs| == PageCount(|runs[0]|, size)
    requires forall i :: 0 <= i < |runs| ==> runs[i] == runs[0]
    ensures Pages(runs, size) == runs[0]
  {
    PagesArePrefix(runs, runs[0], size);
    CeilingCovers(|runs[0]|, size);
    hide PageCount;
  }

  lemma CeilingCovers(total: nat, size: nat)
    requires size >= 1
    ensures PageCount(total, size) * size >= total
  {}

  // ------------------------------------------------------------------ runs of a query

  /** A list the database may return for these rows under this order. */
  ghost predicate Sorted(cs: seq<Clause>, list: seq<Row>, rows: set<Row>) {
    && Enumerates(list, rows)
    && forall i, j :: 0 <= i < j < |list| ==> !Precedes(cs, list[j], list[i])
  }

  ghost predicate NoTies(cs: seq<Clause>, rows: set<Row>) {
    forall a, b :: a in rows && b in rows && Ties(cs, a, b) ==> a == b
  }

  lemma {:induction false} OneSortedList(cs: seq<Clause>, a: seq<Row>, b: seq<Row>, rows: set<Row>)
    requires Sorted(cs, a, rows) && Sorted(cs, b, rows) && NoTies(cs, rows)
    ensures a == b
  {
    hide Precedes;
    EnumerationSize(a, rows);
    EnumerationSize(b, rows);
    if a == [] {
    } else {
      SameHead(cs, a, b, rows);
      SortedTail(cs, a, rows);
      SortedTail(cs, b, rows);
      OneSortedList(cs, a[1..], b[1..], rows - {a[0]});
      assert a == [a[0]] + a[1..] && b == [b[0]] + b[1..];
    }
  }

  lemma SameHead(cs: seq<Clause>, a: seq<Row>, b: seq<Row>, rows: set<Row>)
    requires Sorted(cs, a, rows) && Sorted(cs, b, rows) && NoTies(cs, rows) && a != [] && b != []
    ensures a[0] == b[0]
  {
    hide Precedes;
    assert a[0] in b && b[0] in a;
    var i :| 0 <= i < |b| && b[i] == a[0];
    var j :| 0 <= j < |a| && a[j] == b[0];
    assert i > 0 && j > 0 ==> Ties(cs, a[0], b[0]);
  }

  lemma SortedTail(cs: seq<Clause>, a: seq<Row>, rows: set<Row>)
    requires Sorted(cs, a, rows) && a != []
    ensures Sorted(cs, a[1..], rows - {a[0]})
  {}

  /** Under an order without ties, reading page after page, each from its own run of the
      query, gives every row exactly once, in order, for every page size. */
  lemma UntiedPagesCover(cs: seq<Clause>, runs: seq<seq<Row>>, rows: set<Row>, size: nat)
    requires size >= 1 && |runs| == PageCount(|rows|, size) && NoTies(cs, rows)
    requires forall run :: run in runs ==> Sorted(cs, run, rows)
    ensures Sorted(cs, Pages(runs, size), rows)
  {
    hide NoTies, Sorted;
    assert runs[0] in runs;
    forall i | 0 <= i < |runs| ensures runs[i] == runs[0] {
      assert runs[i] in runs;
      OneSortedList(cs, runs[i], runs[0], rows);
    }
    SortedSize(cs, runs[0], rows);
    EqualRunsPageOut(runs, size);
  }

  lemma SortedSize(cs: seq<Clause>, list: seq<Row>, rows: set<Row>)
    requires Sorted(cs, list, rows)
    ensures |list| == |rows|
  {
    EnumerationSize(list, rows);
  }

  function Swap(list: seq<Row>, i: nat, j: nat): seq<Row>
    requires i < j < |list|
  {
    list[i := list[j]][j := list[i]]
  }

  /** Tied rows may trade places: everything between them ties with both. */
  lemma SwapSorted(cs: seq<Clause>, list: seq<Row>, rows: set<Row>, i: nat, j: nat)
    requires Sorted(cs, list, rows) && i < j < |list| && Ties(cs, list[i], list[j])
    ensures Sorted(cs, Swap(list, i, j), rows)
  {
    hide Precedes;
    var swapped := Swap(list, i, j);
    forall x ensures x in swapped <==> x in rows {
      if x in rows {
        var k :| 0 <= k < |list| && list[k] == x;
        assert x == swapped[if k == i then j else if k == j then i else k];
      }
      if x in swapped {
        var k :| 0 <= k < |swapped| && swapped[k] == x;
        assert x == list[if k == i then j else if k == j then i else k];
      }
    }
    forall k, l | 0 <= k < l < |swapped| ensures !Precedes(cs, swapped[l], swapped[k]) && swapped[k] != swapped[l] {
      SwapPair(cs, list, i, j, k, l);
    }
  }

  lemma SwapPair(cs: seq<Clause>, list: seq<Row>, i: nat, j: nat, k: nat, l: nat)
    requires NoDuplicates(list) && forall x, y :: 0 <= x < y < |list| ==> !Precedes(cs, list[y], list[x])
    requires i < j < |list| && Ties(cs, list[i], list[j]) && k < l < |list|
    ensures !Precedes(cs, Swap(list, i, j)[l], Swap(list, i, j)[k])
    ensures Swap(list, i, j)[k] != Swap(list, i, j)[l]
  {
    hide Precedes;
    if k == i && l < j { NotAfterTransitive(cs, list[j], list[i], list[l]); }
    if l == j && i < k { NotAfterTransitive(cs, list[k], list[j], list[i]); }
  }

  /** The runs that lose a row: every page from `list`, the page of position j from the list
      with i and j swapped. */
  ghost function LosingRuns(list: seq<Row>, i: nat, j: nat): seq<seq<Row>>
    requires i < j < |list|
  {
    seq(|list|, k => if k == j then Swap(list, i, j) else list)
  }

  /** Under an order with a tie there are runs, all of them sorted, whose pages of one row show
      a tied row twice and never show the other. */
  lemma TiedPagesLoseARow(cs: seq<Clause>, list: seq<Row>, rows: set<Row>, i: nat, j: nat)
    requires Sorted(cs, list, rows) && i < j < |list| && Ties(cs, list[i], list[j])
    ensures var runs := LosingRuns(list, i, j);
      && |runs| == PageCount(|rows|, 1)
      && (forall run :: run in runs ==> Sorted(cs, run, rows))
      && Pages(runs, 1) == list[j := list[i]]
      && list[j] in rows && list[j] !in Pages(runs, 1)
  {
    hide Precedes;
    SortedSize(cs, list, rows);
    SwapSorted(cs, list, rows, i, j);
    var runs := LosingRuns(list, i, j);
    PagesOfOne(runs, |list|);
    forall k | 0 <= k < |list| ensures Pages(runs, 1)[k] == list[j := list[i]][k] {}
    assert Pages(runs, 1) == list[j := list[i]];
    var shown := Pages(runs, 1);
    forall k | 0 <= k < |shown| ensures shown[k] != list[j] {}
  }

  /** Pages of one row: the k-th is row k of the k-th run. */
  lemma {:induction false} PagesOfOne<T>(runs: seq<seq<T>>, n: nat)
    requires |runs| <= n && forall k :: 0 <= k < |runs| ==> |runs[k]| == n
    ensures |Pages(runs, 1)| == |runs| && forall k :: 0 <= k < |runs| ==> Pages(runs, 1)[k] == runs[k][k]
  {
    if runs == [] {
    } else {
      PagesOfOne(runs[..|runs| - 1], n);
      assert Page(runs[|runs| - 1], |runs|, 1) == [runs[|runs| - 1][|runs| - 1]];
    }
  }

  /** Two requirements with the status in common, sorted by status: the list of both may be
      read, one row a page, without ever showing the second. */
  lemma SortedByStatusLosesARow()
    ensures var cs := [Clause(Field("status"), false)];
      var a, b := Row("PAY-REQ-1", map["status" := 0]), Row("PAY-REQ-2", map["status" := 0]);
      && a.key != b.key && Ties(cs, a, b)
      && exists runs :: SafeRuns(cs, runs, {a, b}, 1) && b !in Pages(runs, 1)
  {
    var cs := [Clause(Field("status"), false)];
    var a, b := Row("PAY-REQ-1", map["status" := 0]), Row("PAY-REQ-2", map["status" := 0]);
    assert |a.key| == 9 && a.key[8] != b.key[8];
    assert RankOf(a, "status") == RankOf(b, "status");
    assert cs[1..] == [];
    assert Ties(cs, a, b);
    hide Ties, Precedes;
    TiedPairSorted(cs, a, b);
    TiedPagesLoseARow(cs, [a, b], {a, b}, 0, 1);
    assert SafeRuns(cs, LosingRuns([a, b], 0, 1), {a, b}, 1);
  }

  lemma TiedPairSorted(cs: seq<Clause>, a: Row, b: Row)
    requires Ties(cs, a, b) && a != b
    ensures Sorted(cs, [a, b], {a, b})
  {}

  /** So paging is safe, whatever the page size and however the runs turn out, exactly when no
      two of the listed rows tie. */
  lemma PagingIsSafeExactly(cs: seq<Clause>, list: seq<Row>, rows: set<Row>)
    requires Sorted(cs, list, rows)
    ensures NoTies(cs, rows) <==>
              forall runs, size: nat ::
                SafeRuns(cs, runs, rows, size) ==> Enumerates(Pages(runs, size), rows)
  {
    hide Precedes, Ties;
    if NoTies(cs, rows) {
      forall runs, size: nat | SafeRuns(cs, runs, rows, size) ensures Enumerates(Pages(runs, size), rows) {
        UntiedPagesCover(cs, runs, rows, size);
      }
    } else {
      var a, b :| a in rows && b in rows && Ties(cs, a, b) && a != b;
      assert a in list && b in list;
      var x :| 0 <= x < |list| && list[x] == a;
      var y :| 0 <= y < |list| && list[y] == b;
      TiesSymmetric(cs, a, b);
      var i, j := if x < y then x else y, if x < y then y else x;
      TiedPagesLoseARow(cs, list, rows, i, j);
      assert SafeRuns(cs, LosingRuns(list, i, j), rows, 1);
    }
  }

  lemma TiesSymmetric(cs: seq<Clause>, a: Row, b: Row)
    ensures Ties(cs, a, b) <==> Ties(cs, b, a)
  {}

  /** One sorted run of the query for each page there is to read. */
  ghost predicate SafeRuns(cs: seq<Clause>, runs: seq<seq<Row>>, rows: set<Row>, size: nat) {
    size >= 1 && |runs| == PageCount(|rows|, size) && forall run :: run in runs ==> Sorted(cs, run, rows)
  }

  // ------------------------------------------------------------------ orders that name the key

  predicate NamesKey(cs: seq<Clause>) {
    exists i :: 0 <= i < |cs| && cs[i].column.KeyText?
  }

  /** Rows with different keys never tie in an order that names the key, ascending or not:
      the natural order that every list falls back to, and any sort that mentions it. */
  lemma {:induction false} KeysNeverTie(cs: seq<Clause>, a: Row, b: Row)
    requires NamesKey(cs) && Ties(cs, a, b)
    ensures a.key == b.key
  {
    TextTotal(a.key, b.key);
    if cs[0].column.KeyText? {
    } else {
      var i :| 0 <= i < |cs| && cs[i].column.KeyText?;
      assert cs[1..][i - 1] == cs[i];
      KeysNeverTie(cs[1..], a, b);
    }
  }

  /** The default order is the natural one. */
  lemma DefaultIsNatural(a: Row, b: Row)
    ensures NamesKey(Directed(NATURAL, false))
    ensures Precedes(Directed(NATURAL, false), a, b) <==> NaturalLess(a.key, b.key)
  {
    var cs := Directed(NATURAL, false);
    assert cs[1].column.KeyText?;
    var rest := cs[1..];
    assert cs[0] == Clause(KeyLength, false) && rest[0] == Clause(KeyText, false) && rest[1..] == [];
    assert Precedes(rest, a, b) <==> ClauseBefore(rest[0], a, b) || (!ClauseBefore(rest[0], b, a) && Precedes([], a, b));
  }

  /** Reading pages 1 to max(1, ceil(total / size)) of rows with distinct keys gives every row
      exactly once in order, though each page comes from a query of its own, for the natural
      order and for any sort that names the key. */
  lemma KeyedPagesCover(cs: seq<Clause>, runs: seq<seq<Row>>, rows: set<Row>, size: nat)
    requires SafeRuns(cs, runs, rows, size) && NamesKey(cs)
    requires forall a, b :: a in rows && b in rows && a.key == b.key ==> a == b
    ensures Sorted(cs, Pages(runs, size), rows)
  {
    forall a, b | a in rows && b in rows && Ties(cs, a, b) ensures a == b { KeysNeverTie(cs, a, b); }
    hide Ties, NamesKey, Sorted;
    UntiedPagesCover(cs, runs, rows, size);
  }
}
