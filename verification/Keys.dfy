/** Readable keys: minting and printing (backend/app/domain/keys.py), natural ordering
    (backend/app/domain/sorting.py) and paging (backend/app/domain/backlog.py). */
module Keys {
  import opened Common

  type Id = nat

  // ------------------------------------------------------------------ numbers in decimal

  function Digit(n: nat): char
    requires n < 10
  {
    "0123456789"[n]
  }

  function Decimal(n: nat): (s: string)
    ensures s != ""
  {
    if n < 10 then [Digit(n)] else Decimal(n / 10) + [Digit(n % 10)]
  }

  function Power10(e: nat): nat {
    if e == 0 then 1 else 10 * Power10(e - 1)
  }

  /** The number of digits tells the magnitude, both ways. */
  lemma {:induction false} DecimalLength(n: nat, e: nat)
    requires e >= 1
    ensures |Decimal(n)| <= e <==> n < Power10(e)
  {
    if e == 1 {
      assert Power10(1) == 10 * Power10(0);
    } else if n >= 10 {
      DecimalLength(n / 10, e - 1);
      assert n < 10 * Power10(e - 1) <==> n / 10 < Power10(e - 1);
    } else {
      PowerAtLeast10(e);
    }
  }

  lemma {:induction false} PowerAtLeast10(e: nat)
    requires e >= 1
    ensures Power10(e) >= 10
  {
    if e <= 1 {
    } else {
      PowerAtLeast10(e - 1);
    }
  }

  // ------------------------------------------------------------------ natural order

  /** Text order by character code. */
  predicate TextLess(a: string, b: string) {
    b != "" && (a == "" || a[0] < b[0] || (a[0] == b[0] && TextLess(a[1..], b[1..])))
  }

  /** Shorter keys first, and keys of one length in text order. */
  predicate NaturalLess(a: string, b: string) {
    |a| < |b| || (|a| == |b| && TextLess(a, b))
  }

  lemma {:induction false} TextTotal(a: string, b: string)
    ensures a == b || TextLess(a, b) || TextLess(b, a)
    ensures !(TextLess(a, b) && TextLess(b, a))
    ensures a == b ==> !TextLess(a, b)
  {
    if a == "" || b == "" {
    } else {
      TextTotal(a[1..], b[1..]);
      assert a == [a[0]] + a[1..] && b == [b[0]] + b[1..];
    }
  }

  lemma {:induction false} TextTransitive(a: string, b: string, c: string)
    requires TextLess(a, b) && TextLess(b, c)
    ensures TextLess(a, c)
  {
    if a == "" || a[0] != b[0] || b[0] != c[0] {
    } else {
      TextTransitive(a[1..], b[1..], c[1..]);
    }
  }

  lemma {:induction false} TextPrefix(p: string, a: string, b: string)
    ensures TextLess(p + a, p + b) <==> TextLess(a, b)
  {
    if p == "" {
      assert p + a == a && p + b == b;
    } else {
      assert (p + a)[1..] == p[1..] + a && (p + b)[1..] == p[1..] + b;
      TextPrefix(p[1..], a, b);
    }
  }

  /** Of two texts of one length the last characters decide only between equal beginnings. */
  lemma {:induction false} TextLast(a: string, b: string, x: char, y: char)
    requires |a| == |b|
    ensures TextLess(a + [x], b + [y]) <==> TextLess(a, b) || (a == b && x < y)
  {
    if a == "" {
      assert a + [x] == [x] && b + [y] == [y];
      assert [x][1..] == "" && [y][1..] == "";
    } else {
      assert (a + [x])[1..] == a[1..] + [x] && (b + [y])[1..] == b[1..] + [y];
      TextLast(a[1..], b[1..], x, y);
      assert a == [a[0]] + a[1..] && b == [b[0]] + b[1..];
    }
  }

  lemma SameLast(a: string, b: string, x: char, y: char)
    ensures a + [x] == b + [y] <==> a == b && x == y
  {
    assert (a + [x])[..|a|] == a && (b + [y])[..|b|] == b && (a + [x])[|a|] == x && (b + [y])[|b|] == y;
  }

  /** Decimals of one length compare as text just as they do as numbers. */
  lemma {:induction false} DecimalText(m: nat, n: nat)
    requires |Decimal(m)| == |Decimal(n)|
    ensures TextLess(Decimal(m), Decimal(n)) <==> m < n
    ensures Decimal(m) == Decimal(n) <==> m == n
  {
    if m < 10 {
      assert n < 10;
      TextLast("", "", Digit(m), Digit(n));
      assert "" + [Digit(m)] == Decimal(m) && "" + [Digit(n)] == Decimal(n);
    } else {
      assert n >= 10;
      DecimalText(m / 10, n / 10);
      var a, b, x, y := Decimal(m / 10), Decimal(n / 10), Digit(m % 10), Digit(n % 10);
      assert Decimal(m) == a + [x] && Decimal(n) == b + [y];
      assert x < y <==> m % 10 < n % 10;
      assert x == y <==> m % 10 == n % 10;
      hide Decimal, Digit, TextLess;
      TextLast(a, b, x, y);
      SameLast(a, b, x, y);
    }
  }

  lemma DecimalShorter(m: nat, n: nat)
    ensures |Decimal(m)| < |Decimal(n)| ==> m < n
  {
    DecimalLength(m, |Decimal(m)|);
    DecimalLength(n, |Decimal(m)|);
  }

  // ------------------------------------------------------------------ printing

  datatype EntityType = TestCase | Scenario | Requirement | Release | Defect | TestPlan | TestCycle | TestFolder

  function Abbr(t: EntityType): string {
    match t
    case TestCase => "TC"
    case Scenario => "SCN"
    case Requirement => "REQ"
    case Release => "REL"
    case Defect => "DEF"
    case TestPlan => "PLAN"
    case TestCycle => "CYC"
    case TestFolder => "FLD"
  }

  function Print(project: string, t: EntityType, n: nat): string {
    project + "-" + Abbr(t) + "-" + Decimal(n)
  }

  /** ^[A-Z][A-Z0-9]{1,15}$ */
  predicate ProjectKey(s: string) {
    && 2 <= |s| <= 16
    && 'A' <= s[0] <= 'Z'
    && forall i :: 0 <= i < |s| ==> 'A' <= s[i] <= 'Z' || '0' <= s[i] <= '9'
  }

  /** For one project and type, ordering the keys by (length, text) is ordering them by number. */
  lemma NaturalIsNumeric(project: string, t: EntityType, m: nat, n: nat)
    ensures NaturalLess(Print(project, t, m), Print(project, t, n)) <==> m < n
  {
    var prefix := project + "-" + Abbr(t) + "-";
    assert Print(project, t, m) == prefix + Decimal(m) && Print(project, t, n) == prefix + Decimal(n);
    if |Decimal(m)| == |Decimal(n)| {
      TextPrefix(prefix, Decimal(m), Decimal(n));
      DecimalText(m, n);
    } else {
      DecimalShorter(m, n);
      DecimalShorter(n, m);
    }
  }

  lemma DashesTogether(project: string, short: string, number: string)
    ensures project + "-" + short + "-" + number == project + ("-" + short + "-") + number
  {}

  /** Keys as they are read: the project, the type's short name and the number, PAY-TC-142 say. */
  lemma KeysAsRead(project: string, n: nat)
    ensures Print(project, TestCase, n) == project + "-TC-" + Decimal(n)
    ensures Print(project, Scenario, n) == project + "-SCN-" + Decimal(n)
    ensures Print(project, Requirement, n) == project + "-REQ-" + Decimal(n)
    ensures Print(project, Release, n) == project + "-REL-" + Decimal(n)
    ensures Print(project, Defect, n) == project + "-DEF-" + Decimal(n)
    ensures Print(project, TestPlan, n) == project + "-PLAN-" + Decimal(n)
    ensures Print(project, TestCycle, n) == project + "-CYC-" + Decimal(n)
    ensures Print(project, TestFolder, n) == project + "-FLD-" + Decimal(n)
    ensures Decimal(142) == "142"
  {
    assert Decimal(1) == "1" && Decimal(14) == "14";
    hide Decimal;
    forall t ensures Print(project, t, n) == project + ("-" + Abbr(t) + "-") + Decimal(n) {
      DashesTogether(project, Abbr(t), Decimal(n));
    }
    assert "-" + "TC" + "-" == "-TC-" && "-" + "SCN" + "-" == "-SCN-" && "-" + "REQ" + "-" == "-REQ-";
    assert "-" + "REL" + "-" == "-REL-" && "-" + "DEF" + "-" == "-DEF-" && "-" + "PLAN" + "-" == "-PLAN-";
    assert "-" + "CYC" + "-" == "-CYC-" && "-" + "FLD" + "-" == "-FLD-";
  }

  lemma FirstDash(a: string, x: string, b: string, y: string)
    requires '-' !in a && '-' !in b && a + "-" + x == b + "-" + y
    ensures a == b && x == y
  {
    var s, s' := a + "-" + x, b + "-" + y;
    assert s[|a|] == '-' && s'[|b|] == '-';
    assert forall i :: 0 <= i < |b| ==> s'[i] == b[i];
    assert forall i :: 0 <= i < |a| ==> s[i] == a[i];
    assert |a| == |b|;
    assert a == s[..|a|] && b == s'[..|b|] && x == s[|a| + 1..] && y == s'[|b| + 1..];
  }

  /** No two (project, type, number) triples print alike. */
  lemma PrintInjective(p: string, t: EntityType, m: nat, p': string, t': EntityType, n: nat)
    requires ProjectKey(p) && ProjectKey(p') && Print(p, t, m) == Print(p', t', n)
    ensures p == p' && t == t' && m == n
  {
    var rest, rest' := Abbr(t) + "-" + Decimal(m), Abbr(t') + "-" + Decimal(n);
    assert Print(p, t, m) == p + "-" + rest && Print(p', t', n) == p' + "-" + rest';
    AbbrsDiffer(t, t');
    hide Abbr, Decimal;
    FirstDash(p, rest, p', rest');
    FirstDash(Abbr(t), Decimal(m), Abbr(t'), Decimal(n));
    DecimalText(m, n);
  }

  lemma AbbrsDiffer(t: EntityType, t': EntityType)
    ensures '-' !in Abbr(t) && '-' !in Abbr(t')
    ensures Abbr(t) == Abbr(t') ==> t == t'
  {
    if Abbr(t) == Abbr(t') { assert Abbr(t)[0] == Abbr(t')[0] && Abbr(t)[1] == Abbr(t')[1]; }
  }

  const MAX_INT32: nat := 2147483647

  /** Every key fits its 32-character column, and only plan keys can fill it. */
  lemma KeysFit(p: string, t: EntityType, n: nat)
    requires ProjectKey(p) && n <= MAX_INT32
    ensures |Print(p, t, n)| <= 32
    ensures |Print(p, t, n)| == 32 <==> |p| == 16 && t == TestPlan && n >= 1000000000
  {
    assert Power10(9) == 1000000000 && Power10(10) == 10000000000 by {
      assert Power10(3) == 1000;
      assert Power10(6) == 1000000;
      assert Power10(9) == 1000000000;
    }
    DecimalLength(n, 10);
    DecimalLength(n, 9);
  }

  // ------------------------------------------------------------------ the counters

  type Counters = map<(Id, EntityType), nat>

  function NextSeq(counters: Counters, p: Id, t: EntityType): nat {
    if (p, t) in counters then counters[(p, t)] else 1
  }

  /** The keys a run of requests mints, oldest first, and the counters it leaves. */
  function Mint(projects: map<Id, string>, counters: Counters, requests: seq<(Id, EntityType)>): (seq<string>, Counters)
    requires forall r :: r in requests ==> r.0 in projects
    decreases |requests|
  {
    if requests == [] then ([], counters)
    else
      var (keys, after) := Mint(projects, counters, requests[..|requests| - 1]);
      var (p, t) := requests[|requests| - 1];
      var n := NextSeq(after, p, t);
      (keys + [Print(projects[p], t, n)], after[(p, t) := n + 1])
  }

  predicate DistinctProjects(projects: map<Id, string>) {
    && (forall p :: p in projects ==> ProjectKey(projects[p]))
    && (forall p, q :: p in projects && q in projects && projects[p] == projects[q] ==> p == q)
  }

  /** A key below the counter of its project and type. */
  ghost predicate Used(projects: map<Id, string>, counters: Counters, key: string) {
    exists p, t, n: nat :: UsedAs(projects, counters, key, p, t, n)
  }

  predicate UsedAs(projects: map<Id, string>, counters: Counters, key: string, p: Id, t: EntityType, n: nat) {
    p in projects && n < NextSeq(counters, p, t) && key == Print(projects[p], t, n)
  }

  lemma FreshKey(projects: map<Id, string>, counters: Counters, p: Id, t: EntityType)
    requires DistinctProjects(projects) && p in projects
    ensures !Used(projects, counters, Print(projects[p], t, NextSeq(counters, p, t)))
  {
    var key := Print(projects[p], t, NextSeq(counters, p, t));
    if Used(projects, counters, key) {
      var p', t', n: nat :| UsedAs(projects, counters, key, p', t', n);
      PrintInjective(projects[p], t, NextSeq(counters, p, t), projects[p'], t', n);
    }
  }

  /** As long as no project is deleted: over any run of requests, from any counters, no key is
      minted twice, in any project.  What deletion changes is in KeyReuse. */
  lemma {:induction false} KeysNeverRecur(projects: map<Id, string>, counters: Counters, requests: seq<(Id, EntityType)>)
    requires DistinctProjects(projects) && forall r :: r in requests ==> r.0 in projects
    ensures var (keys, after) := Mint(projects, counters, requests);
      NoDuplicates(keys) && forall k :: k in keys ==> Used(projects, after, k)
    decreases |requests|
  {
    if requests == [] {
    } else {
      var before := requests[..|requests| - 1];
      KeysNeverRecur(projects, counters, before);
      var (keys, mid) := Mint(projects, counters, before);
      var (p, t) := requests[|requests| - 1];
      var n := NextSeq(mid, p, t);
      FreshKey(projects, mid, p, t);
      hide Print, Mint;
      StillUsed(projects, mid, keys, p, t);
    }
  }

  lemma StillUsed(projects: map<Id, string>, mid: Counters, keys: seq<string>, p: Id, t: EntityType)
    requires p in projects && forall k :: k in keys ==> Used(projects, mid, k)
    ensures var n := NextSeq(mid, p, t);
      forall k :: k in keys + [Print(projects[p], t, n)] ==> Used(projects, mid[(p, t) := n + 1], k)
  {
    hide Print;
    var n := NextSeq(mid, p, t);
    var key, after := Print(projects[p], t, n), mid[(p, t) := n + 1];
    forall k | k in keys + [key] ensures Used(projects, after, k) {
      if k in keys {
        var p', t', m: nat :| UsedAs(projects, mid, k, p', t', m);
        assert UsedAs(projects, after, k, p', t', m);
      } else {
        assert UsedAs(projects, after, key, p, t, n);
      }
    }
  }

  lemma MintOne(projects: map<Id, string>, counters: Counters, p: Id, t: EntityType)
    requires p in projects
    ensures var n := NextSeq(counters, p, t);
      Mint(projects, counters, [(p, t)]) == ([Print(projects[p], t, n)], counters[(p, t) := n + 1])
  {
    var one := [(p, t)];
    assert one[..|one| - 1] == [] && one[|one| - 1] == (p, t);
    assert Mint(projects, counters, []) == ([], counters);
    var key := Print(projects[p], t, NextSeq(counters, p, t));
    assert [] + [key] == [key];
    hide Print;
  }

  /** entity_counter rows, incremented in place. */
  class KeyMinter {
    var projects: map<Id, string>
    var counters: Counters

    constructor (projects: map<Id, string>)
      ensures this.projects == projects && counters == map[]
    {
      this.projects, counters := projects, map[];
    }

    method NextKey(p: Id, t: EntityType) returns (key: Result<string>)
      modifies this`counters
      ensures p !in projects ==> key == Err(NotFound) && counters == old(counters)
      ensures p in projects ==> key.Ok? && ([key.value], counters) == Mint(projects, old(counters), [(p, t)])
    {
      if p !in projects { return Err(NotFound); }
      if (p, t) !in counters {
        counters := counters[(p, t) := 1];
      }
      var n := counters[(p, t)];
      counters := counters[(p, t) := n + 1];
      MintOne(projects, old(counters), p, t);
      assert counters == old(counters)[(p, t) := n + 1];
      return Ok(projects[p] + "-" + Abbr(t) + "-" + Decimal(n));
    }
  }
}
