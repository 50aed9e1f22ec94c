/** The authoritative result of a cycle test (resolve_cycle_test_result in
    backend/app/domain/execution.py): the resolver re-derives it from the rows by sorting,
    and is shown to agree with a plain register that the last result event overwrites. */
module Resolver {
  import opened Common
  import opened Tables
  import opened Ordering

  // ------------------------------------------------------------------ what the rows say

  /** The correction with the greatest created_at. */
  function Latest(cs: seq<Correction>): (c: Correction)
    requires cs != []
    ensures c in cs && forall d :: d in cs ==> d.at <= c.at
    decreases |cs|
  {
    var last := cs[|cs| - 1];
    if |cs| == 1 then last
    else
      var before := Latest(cs[..|cs| - 1]);
      assert cs == cs[..|cs| - 1] + [last];
      if before.at <= last.at then last else before
  }

  /** Finished rows always have ended_at set (RowOk); 0 stands in for a row that does not. */
  function EndedAt(a: Attempt): Time {
    if a.ended.Some? then a.ended.value else 0
  }

  /** When the attempt was last corrected or, if never, when it ended. */
  function LastEvent(a: Attempt): Time {
    if a.corrections == [] then EndedAt(a) else Latest(a.corrections).at
  }

  function Effective(a: Attempt): Verdict {
    if a.corrections != [] then Latest(a.corrections).newValue
    else if a.overall.Some? then a.overall.value
    else NotRun
  }

  /** The sort key (last event, ended_at, id), compared lexicographically. */
  predicate KeyLess(a: Attempt, i: Id, b: Attempt, j: Id) {
    || LastEvent(a) < LastEvent(b)
    || (LastEvent(a) == LastEvent(b) && EndedAt(a) < EndedAt(b))
    || (LastEvent(a) == LastEvent(b) && EndedAt(a) == EndedAt(b) && i < j)
  }

  ghost predicate IsAuthoritative(attempts: map<Id, Attempt>, t: Id, a: Id) {
    && a in attempts && FinishedOn(attempts[a], t)
    && forall b :: b in attempts && FinishedOn(attempts[b], t) && b != a ==> KeyLess(attempts[b], b, attempts[a], a)
  }

  ghost function Authoritative(attempts: map<Id, Attempt>, t: Id): Option<Id> {
    if exists a :: IsAuthoritative(attempts, t, a) then
      var a :| IsAuthoritative(attempts, t, a);
      Some(a)
    else None
  }

  ghost function Displayed(db: Db, t: Id): Verdict
    requires t in db.tests
  {
    match Authoritative(db.attempts, t)
    case None => if db.tests[t].retest then RetestPending else NotRun
    case Some(a) =>
      if db.tests[t].retest && !HasOpenAttempt(db.attempts, t) then RetestPending
      else if a in db.attempts then Effective(db.attempts[a]) else NotRun
  }

  lemma AuthoritativeIs(attempts: map<Id, Attempt>, t: Id, a: Id)
    requires IsAuthoritative(attempts, t, a)
    ensures Authoritative(attempts, t) == Some(a)
  {}

  lemma KeyAsymmetric(a: Attempt, i: Id, b: Attempt, j: Id)
    ensures !(KeyLess(a, i, b, j) && KeyLess(b, j, a, i))
    ensures i != j ==> KeyLess(a, i, b, j) || KeyLess(b, j, a, i)
  {}

  /** Among attempts last touched at one moment the one that ended later is authoritative, and
      among those that also ended together the one with the greater id. */
  lemma LatestIsAuthoritative(attempts: map<Id, Attempt>, t: Id, a: Id, b: Id)
    requires Authoritative(attempts, t) == Some(a)
    requires b in attempts && FinishedOn(attempts[b], t) && b != a
    ensures a in attempts && LastEvent(attempts[b]) <= LastEvent(attempts[a])
    ensures LastEvent(attempts[b]) == LastEvent(attempts[a]) ==> EndedAt(attempts[b]) <= EndedAt(attempts[a])
    ensures LastEvent(attempts[b]) == LastEvent(attempts[a]) && EndedAt(attempts[b]) == EndedAt(attempts[a]) ==> b < a
  {
    hide LastEvent, EndedAt;
  }

  // ------------------------------------------------------------------ the resolver

  datatype CycleTestResult = CycleTestResult(
    displayed: Verdict, authoritative: Option<Id>, inProgress: Option<Id>, attemptCount: nat)

  type Row = (Id, Attempt)

  /** The rows the query for one cycle test returns, in any order. */
  ghost predicate RowsOf(rows: seq<Row>, attempts: map<Id, Attempt>, t: Id) {
    && (forall r :: r in rows <==> r.0 in attempts && r.1 == attempts[r.0] && r.1.testId == t)
    && NoDuplicates(rows)
  }

  ghost function AttemptIds(attempts: map<Id, Attempt>, t: Id): set<Id> {
    set a | a in attempts && attempts[a].testId == t
  }

  predicate Earlier(a: Row, b: Row) {
    KeyLess(a.1, a.0, b.1, b.0)
  }

  lemma EarlierIsWeakOrder()
    ensures WeakOrder((a: Row, b: Row) => Earlier(a, b))
  {}

  /** The finished attempts in key order, the authoritative one last. */
  method SortByKey(rows: seq<Row>) returns (sorted: seq<Row>)
    ensures multiset(sorted) == multiset(rows)
    ensures forall i, j :: 0 <= i < j < |sorted| ==> !Earlier(sorted[j], sorted[i])
  {
    hide Earlier;
    EarlierIsWeakOrder();
    sorted := SortBy(rows, (a: Row, b: Row) => Earlier(a, b));
  }

  method ResolveCycleTestResult(db: Db, t: Id, rows: seq<Row>) returns (r: CycleTestResult)
    requires t in db.tests && RowsOf(rows, db.attempts, t)
    ensures r.displayed == Displayed(db, t)
    ensures r.authoritative == Authoritative(db.attempts, t)
    ensures r.inProgress.Some? <==> HasOpenAttempt(db.attempts, t)
    ensures r.inProgress.Some? ==> r.inProgress.value in db.attempts && OpenOn(db.attempts[r.inProgress.value], t)
    ensures r.attemptCount == |AttemptIds(db.attempts, t)|
  {
    var inProgress: Option<Id> := None;
    var completed: seq<Row> := [];
    for n := 0 to |rows|
      invariant inProgress.None? ==> forall i :: 0 <= i < n ==> !rows[i].1.status.InProgress?
      invariant inProgress.Some? ==>
        exists i :: 0 <= i < n && rows[i].0 == inProgress.value && rows[i].1.status.InProgress?
      invariant forall x :: x in completed <==> x in rows[..n] && Terminal(x.1.status)
    {
      if inProgress.None? && rows[n].1.status.InProgress? { inProgress := Some(rows[n].0); }
      if Terminal(rows[n].1.status) { completed := completed + [rows[n]]; }
    }
    assert rows[..|rows|] == rows;
    RowCount(rows, db.attempts, t);
    OpenRows(rows, db.attempts, t, inProgress);
    if completed == [] {
      NoneCompleted(rows, completed, db.attempts, t);
      return CycleTestResult(if db.tests[t].retest then RetestPending else NotRun, None, inProgress, |rows|);
    }
    var keyed := SortByKey(completed);
    var winner := keyed[|keyed| - 1];
    LastIsAuthoritative(rows, completed, keyed, db.attempts, t);
    var latest: Option<Verdict> := None;
    if winner.1.corrections != [] { latest := Some(Latest(winner.1.corrections).newValue); }
    var effective := if latest.Some? then latest.value
                     else if winner.1.overall.Some? then winner.1.overall.value else NotRun;
    var displayed := if db.tests[t].retest && inProgress.None? then RetestPending else effective;
    r := CycleTestResult(displayed, Some(winner.0), inProgress, |rows|);
  }

  lemma OpenRows(rows: seq<Row>, attempts: map<Id, Attempt>, t: Id, inProgress: Option<Id>)
    requires RowsOf(rows, attempts, t)
    requires inProgress.None? ==> forall i :: 0 <= i < |rows| ==> !rows[i].1.status.InProgress?
    requires inProgress.Some? ==>
               exists i :: 0 <= i < |rows| && rows[i].0 == inProgress.value && rows[i].1.status.InProgress?
    ensures inProgress.Some? <==> HasOpenAttempt(attempts, t)
    ensures inProgress.Some? ==> inProgress.value in attempts && OpenOn(attempts[inProgress.value], t)
  {
    if inProgress.Some? {
      var i :| 0 <= i < |rows| && rows[i].0 == inProgress.value && rows[i].1.status.InProgress?;
      assert rows[i] in rows;
    }
    if HasOpenAttempt(attempts, t) {
      var a :| a in attempts && OpenOn(attempts[a], t);
      assert (a, attempts[a]) in rows;
    }
  }

  lemma RowCount(rows: seq<Row>, attempts: map<Id, Attempt>, t: Id)
    requires RowsOf(rows, attempts, t)
    ensures |rows| == |AttemptIds(attempts, t)|
  {
    var ids := seq(|rows|, i requires 0 <= i < |rows| => rows[i].0);
    var s := AttemptIds(attempts, t);
    forall x ensures x in ids <==> x in s {
      if x in s {
        assert (x, attempts[x]) in rows;
        var i :| 0 <= i < |rows| && rows[i] == (x, attempts[x]);
        assert ids[i] == x;
      }
      if x in ids {
        var i :| 0 <= i < |ids| && ids[i] == x;
        assert rows[i] in rows;
      }
    }
    forall i, j | 0 <= i < j < |ids| ensures ids[i] != ids[j] {
      assert rows[i] in rows && rows[j] in rows;
    }
    EnumerationSize(ids, s);
  }

  lemma NoneCompleted(rows: seq<Row>, completed: seq<Row>, attempts: map<Id, Attempt>, t: Id)
    requires RowsOf(rows, attempts, t) && completed == []
    requires forall x :: x in completed <==> x in rows && Terminal(x.1.status)
    ensures Authoritative(attempts, t) == None
  {
    forall a | a in attempts && attempts[a].testId == t ensures !Terminal(attempts[a].status) {
      assert (a, attempts[a]) in rows;
    }
  }

  /** The last row of the sorted list has the strictly greatest key, so it is the one
      authoritative attempt whatever order the rows came in. */
  lemma LastIsAuthoritative(
    rows: seq<Row>, completed: seq<Row>, keyed: seq<Row>, attempts: map<Id, Attempt>, t: Id)
    requires RowsOf(rows, attempts, t) && completed != []
    requires forall x :: x in completed <==> x in rows && Terminal(x.1.status)
    requires multiset(keyed) == multiset(completed)
    requires forall i, j :: 0 <= i < j < |keyed| ==> !Earlier(keyed[j], keyed[i])
    ensures keyed != []
    ensures var winner := keyed[|keyed| - 1];
      Authoritative(attempts, t) == Some(winner.0) && winner.0 in attempts && winner.1 == attempts[winner.0]
  {
    hide KeyLess;
    assert |multiset(keyed)| == |keyed| && |multiset(completed)| == |completed|;
    var winner := keyed[|keyed| - 1];
    assert forall x :: x in keyed <==> x in multiset(keyed);
    assert forall x :: x in completed <==> x in multiset(completed);
    assert winner in keyed;
    assert winner in rows;
    forall b | b in attempts && FinishedOn(attempts[b], t) && b != winner.0
      ensures KeyLess(attempts[b], b, winner.1, winner.0)
    {
      assert (b, attempts[b]) in rows;
      assert (b, attempts[b]) in keyed;
      var i :| 0 <= i < |keyed| && keyed[i] == (b, attempts[b]);
      KeyAsymmetric(attempts[b], b, winner.1, winner.0);
    }
    AuthoritativeIs(attempts, t, winner.0);
  }

  /** Wherever an attempt has finished there is an authoritative one, and nowhere else. */
  lemma AuthoritativeExists(attempts: map<Id, Attempt>, t: Id)
    ensures Authoritative(attempts, t).Some? <==> HasFinishedAttempt(attempts, t)
    ensures Authoritative(attempts, t).Some? ==> IsAuthoritative(attempts, t, Authoritative(attempts, t).value)
  {
    hide KeyLess;
    var finished := set a | a in attempts && FinishedOn(attempts[a], t);
    if HasFinishedAttempt(attempts, t) {
      var a :| a in attempts && FinishedOn(attempts[a], t);
      assert a in finished;
      var top := Greatest(attempts, finished);
      assert IsAuthoritative(attempts, t, top);
    }
  }

  lemma {:induction false} Greatest(attempts: map<Id, Attempt>, s: set<Id>) returns (top: Id)
    requires s != {} && s <= attempts.Keys
    ensures top in s && forall b :: b in s && b != top ==> KeyLess(attempts[b], b, attempts[top], top)
  {
    top :| top in s;
    if other :| other in s && other != top {
      var rest := s - {top};
      assert other in rest;
      var best := Greatest(attempts, rest);
      if KeyLess(attempts[top], top, attempts[best], best) {
        top := best;
      } else {
        forall b | b in s && b != top ensures KeyLess(attempts[b], b, attempts[top], top) {}
      }
    }
  }
}
