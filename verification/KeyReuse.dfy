/** Keys over the lives of projects (backend/app/domain/keys.py, projects.py): projects can be
    deleted, their counters go with them, and their keys may be taken again. */
module KeyReuse {
  import opened Common
  import opened Keys

  datatype Project = Project(key: string, archived: bool)

  /** One readable key handed out: to which project, under which project key, and its number. */
  datatype Minting = Minting(project: Id, key: string, entity: EntityType, number: nat)

  /** `rows` are the entities there are, `minted` every key ever handed out. */
  datatype Registry = Registry(
    projects: map<Id, Project>, counters: Counters, rows: set<(Id, EntityType, nat)>, minted: seq<Minting>, nextId: Id)

  datatype Act =
    | CreateProject(key: string)
    | ArchiveProject(p: Id)
    | DeleteProject(p: Id)
    | CreateEntity(p: Id, entity: EntityType)
    | DeleteEntity(p: Id, entity: EntityType, number: nat)

  /** Only requirements and plans can be deleted. */
  predicate Deletable(t: EntityType) {
    t == Requirement || t == TestPlan
  }

  predicate Taken(s: Registry, key: string) {
    exists p :: p in s.projects && s.projects[p].key == key
  }

  predicate HasRows(s: Registry, p: Id) {
    exists r :: r in s.rows && r.0 == p
  }

  function KeyOf(m: Minting): string {
    Print(m.key, m.entity, m.number)
  }

  /** A refused call changes nothing. */
  function Step(s: Registry, act: Act): Registry {
    match act
    case CreateProject(key) =>
      if !ProjectKey(key) || Taken(s, key) then s
      else s.(projects := s.projects[s.nextId := Project(key, false)], nextId := s.nextId + 1)
    case ArchiveProject(p) =>
      if p !in s.projects then s else s.(projects := s.projects[p := s.projects[p].(archived := true)])
    case DeleteProject(p) =>
      if p !in s.projects || !s.projects[p].archived || HasRows(s, p) then s
      else s.(projects := s.projects - {p}, counters := WithoutProject(s.counters, p))
    case CreateEntity(p, t) =>
      if p !in s.projects then s
      else
        var n := NextSeq(s.counters, p, t);
        s.(counters := s.counters[(p, t) := n + 1], rows := s.rows + {(p, t, n)},
           minted := s.minted + [Minting(p, s.projects[p].key, t, n)])
    case DeleteEntity(p, t, n) =>
      if !Deletable(t) then s else s.(rows := s.rows - {(p, t, n)})
  }

  function WithoutProject(counters: Counters, p: Id): Counters {
    map k | k in counters && k.0 != p :: counters[k]
  }

  const EMPTY := Registry(map[], map[], {}, [], 0)

  function Run(s: Registry, acts: seq<Act>): Registry
    decreases |acts|
  {
    if acts == [] then s else Run(Step(s, acts[0]), acts[1..])
  }

  lemma {:induction false} RunAppend(s: Registry, a: seq<Act>, b: seq<Act>)
    ensures Run(s, a + b) == Run(Run(s, a), b)
    decreases |a|
  {
    if a == [] {
      assert a + b == b;
    } else {
      assert (a + b)[1..] == a[1..] + b;
      RunAppend(Step(s, a[0]), a[1..], b);
    }
  }

  // ------------------------------------------------------------------ what every run keeps

  predicate SameEntity(a: Minting, b: Minting) {
    a.project == b.project && a.entity == b.entity && a.number == b.number
  }

  ghost predicate MintingOk(s: Registry, m: Minting) {
    && ProjectKey(m.key) && m.project < s.nextId && m.number >= 1
    && (m.project in s.projects ==>
          && m.key == s.projects[m.project].key
          && m.number < NextSeq(s.counters, m.project, m.entity)
          && (!Deletable(m.entity) ==> (m.project, m.entity, m.number) in s.rows))
    && (m.project !in s.projects ==> Deletable(m.entity))
  }

  ghost predicate Distinct(minted: seq<Minting>) {
    forall i, j :: 0 <= i < j < |minted| ==> !SameEntity(minted[i], minted[j])
  }

  ghost predicate ProjectsOk(s: Registry) {
    && (forall p :: p in s.projects ==> p < s.nextId && ProjectKey(s.projects[p].key))
    && (forall p, q :: p in s.projects && q in s.projects && s.projects[p].key == s.projects[q].key ==> p == q)
  }

  ghost predicate CountersOk(s: Registry) {
    forall k :: k in s.counters ==> s.counters[k] >= 1 && k.0 in s.projects
  }

  ghost predicate Inv(s: Registry) {
    && ProjectsOk(s) && CountersOk(s) && Distinct(s.minted)
    && forall i :: 0 <= i < |s.minted| ==> MintingOk(s, s.minted[i])
  }

  lemma StepKeeps(s: Registry, act: Act)
    requires Inv(s)
    ensures Inv(Step(s, act)) && s.minted <= Step(s, act).minted && s.nextId <= Step(s, act).nextId
  {
    hide ProjectKey;
    match act
    case CreateProject(key) => CreateKeeps(s, key);
    case ArchiveProject(p) => ArchiveKeeps(s, p);
    case DeleteProject(p) => DeleteKeeps(s, p);
    case CreateEntity(p, t) => MintKeeps(s, p, t);
    case DeleteEntity(p, t, n) => DropKeeps(s, p, t, n);
  }

  lemma CreateKeeps(s: Registry, key: string)
    requires Inv(s)
    ensures Inv(Step(s, CreateProject(key)))
  {
    hide ProjectKey;
  }

  lemma ArchiveKeeps(s: Registry, p: Id)
    requires Inv(s)
    ensures Inv(Step(s, ArchiveProject(p)))
  {
    hide ProjectKey;
  }

  lemma DeleteKeeps(s: Registry, p: Id)
    requires Inv(s)
    ensures Inv(Step(s, DeleteProject(p)))
  {
    hide ProjectKey;
  }

  lemma MintKeeps(s: Registry, p: Id, t: EntityType)
    requires Inv(s)
    ensures Inv(Step(s, CreateEntity(p, t)))
  {
    hide ProjectKey;
  }

  lemma DropKeeps(s: Registry, p: Id, t: EntityType, n: nat)
    requires Inv(s)
    ensures Inv(Step(s, DeleteEntity(p, t, n)))
  {
    hide ProjectKey;
  }

  lemma {:induction false} RunKeeps(s: Registry, acts: seq<Act>)
    requires Inv(s)
    ensures Inv(Run(s, acts)) && s.minted <= Run(s, acts).minted && s.nextId <= Run(s, acts).nextId
    decreases |acts|
  {
    hide Inv, Step;
    if acts == [] {
    } else {
      StepKeeps(s, acts[0]);
      RunKeeps(Step(s, acts[0]), acts[1..]);
    }
  }

  // ------------------------------------------------------------------ which keys recur

  /** Two keys of a run are equal only for requirements or plans of two projects of the same
      key, of which at least one is gone. */
  lemma EqualKeys(acts: seq<Act>, i: nat, j: nat)
    requires i < j < |Run(EMPTY, acts).minted|
    ensures var s := Run(EMPTY, acts);
      var a, b := s.minted[i], s.minted[j];
      KeyOf(a) == KeyOf(b) ==>
        && a.project != b.project && a.key == b.key && a.entity == b.entity && a.number == b.number
        && Deletable(a.entity) && (a.project !in s.projects || b.project !in s.projects)
  {
    RunKeeps(EMPTY, acts);
    var s := Run(EMPTY, acts);
    hide Run;
    assert MintingOk(s, s.minted[i]) && MintingOk(s, s.minted[j]);
    if KeyOf(s.minted[i]) == KeyOf(s.minted[j]) {
      var a, b := s.minted[i], s.minted[j];
      PrintInjective(a.key, a.entity, a.number, b.key, b.entity, b.number);
    }
    hide Print, ProjectKey;
  }

  /** The keys of test cases, scenarios, releases, defects, cycles and folders never recur. */
  lemma KeptEntitiesNeverShareKeys(acts: seq<Act>, i: nat, j: nat)
    requires i < j < |Run(EMPTY, acts).minted| && !Deletable(Run(EMPTY, acts).minted[i].entity)
    ensures KeyOf(Run(EMPTY, acts).minted[i]) != KeyOf(Run(EMPTY, acts).minted[j])
  {
    hide Print, Run;
    EqualKeys(acts, i, j);
  }

  /** The key about to be handed out was handed out before exactly when a project that is gone
      had the same project key and the same number of that type. */
  lemma NextKeyRecursExactly(acts: seq<Act>, p: Id, t: EntityType)
    requires p in Run(EMPTY, acts).projects
    ensures var s := Run(EMPTY, acts);
      var n := NextSeq(s.counters, p, t);
      (exists m :: m in s.minted && KeyOf(m) == Print(s.projects[p].key, t, n)) <==>
        exists m :: m in s.minted && m.project !in s.projects
                    && m.key == s.projects[p].key && m.entity == t && m.number == n
  {
    RunKeeps(EMPTY, acts);
    var s := Run(EMPTY, acts);
    hide Run;
    var n := NextSeq(s.counters, p, t);
    forall m | m in s.minted && KeyOf(m) == Print(s.projects[p].key, t, n)
      ensures m.project !in s.projects && m.key == s.projects[p].key && m.entity == t && m.number == n
    {
      var i :| 0 <= i < |s.minted| && s.minted[i] == m;
      assert MintingOk(s, s.minted[i]);
      PrintInjective(m.key, m.entity, m.number, s.projects[p].key, t, n);
    }
    hide Print, ProjectKey;
  }

  // ------------------------------------------------------------------ when a key can come again

  /** The key of `m` is handed out once more on the way from one state to the other. */
  ghost predicate MintedAgain(before: Registry, after: Registry, m: Minting) {
    exists j :: |before.minted| <= j < |after.minted| && KeyOf(after.minted[j]) == KeyOf(m)
  }

  /** The project holds something that can never be deleted. */
  predicate Anchored(s: Registry, p: Id) {
    exists r :: r in s.rows && r.0 == p && !Deletable(r.1)
  }

  /** While a project exists, its keys are not handed out again. */
  lemma StepMintsFresh(s: Registry, act: Act, m: Minting)
    requires Inv(s) && m in s.minted && m.project in s.projects
    ensures s.minted <= Step(s, act).minted && !MintedAgain(s, Step(s, act), m)
  {
    var i :| 0 <= i < |s.minted| && s.minted[i] == m;
    assert MintingOk(s, s.minted[i]);
    if act.CreateEntity? && act.p in s.projects {
      var n := NextSeq(s.counters, act.p, act.entity);
      if Print(s.projects[act.p].key, act.entity, n) == KeyOf(m) {
        PrintInjective(m.key, m.entity, m.number, s.projects[act.p].key, act.entity, n);
      }
    }
    hide Print, ProjectKey;
  }

  lemma AnchorHolds(s: Registry, act: Act, p: Id)
    requires p in s.projects && Anchored(s, p) && p < s.nextId
    ensures p in Step(s, act).projects && Step(s, act).projects[p].key == s.projects[p].key && Anchored(Step(s, act), p)
  {
    var r :| r in s.rows && r.0 == p && !Deletable(r.1);
    assert HasRows(s, p);
    assert r in Step(s, act).rows;
    hide ProjectKey;
  }

  lemma {:induction false} AnchoredNeverAgain(s: Registry, more: seq<Act>, m: Minting)
    requires Inv(s) && m in s.minted && m.project in s.projects && Anchored(s, m.project) && m.project < s.nextId
    ensures !MintedAgain(s, Run(s, more), m)
    decreases |more|
  {
    hide Inv, Step, Anchored;
    if more == [] {
    } else {
      var next := Step(s, more[0]);
      StepKeeps(s, more[0]);
      StepMintsFresh(s, more[0], m);
      AnchorHolds(s, more[0], m.project);
      assert m in next.minted;
      AnchoredNeverAgain(next, more[1..], m);
      RunKeeps(next, more[1..]);
      var after := Run(next, more[1..]);
      forall j | |s.minted| <= j < |after.minted| ensures KeyOf(after.minted[j]) != KeyOf(m) {
        if j < |next.minted| { assert after.minted[j] == next.minted[j]; }
      }
    }
  }

  ghost function RowsOf(s: Registry, p: Id): set<(Id, EntityType, nat)> {
    set r | r in s.rows && r.0 == p
  }

  /** Delete what there is in the project, one by one. */
  lemma {:induction false} Empty(s: Registry, p: Id) returns (acts: seq<Act>)
    requires !Anchored(s, p)
    ensures Run(s, acts) == s.(rows := s.rows - RowsOf(s, p))
    decreases |RowsOf(s, p)|
  {
    if RowsOf(s, p) == {} {
      acts := [];
      assert s.rows - RowsOf(s, p) == s.rows;
    } else {
      var r :| r in RowsOf(s, p);
      var act := DeleteEntity(r.0, r.1, r.2);
      var next := Step(s, act);
      assert next == s.(rows := s.rows - {r});
      assert RowsOf(next, p) == RowsOf(s, p) - {r};
      var rest := Empty(next, p);
      acts := [act] + rest;
      assert acts[1..] == rest;
      assert next.rows - RowsOf(next, p) == s.rows - RowsOf(s, p);
    }
  }

  /** Create entities until the wanted number has been handed out. */
  lemma {:induction false} MintUpTo(s: Registry, p: Id, t: EntityType, n: nat) returns (acts: seq<Act>)
    requires p in s.projects && NextSeq(s.counters, p, t) <= n
    ensures s.minted < Run(s, acts).minted
    ensures Run(s, acts).minted[|Run(s, acts).minted| - 1] == Minting(p, s.projects[p].key, t, n)
    decreases n - NextSeq(s.counters, p, t)
  {
    var act := CreateEntity(p, t);
    var next := Step(s, act);
    if NextSeq(s.counters, p, t) == n {
      acts := [act];
      assert acts[1..] == [];
    } else {
      var rest := MintUpTo(next, p, t, n);
      acts := [act] + rest;
      assert acts[1..] == rest;
    }
  }

  /** Empty the project, archive and delete it, take its key for a new one, and create. */
  lemma FreeToRecur(s: Registry, m: Minting) returns (more: seq<Act>)
    requires Inv(s) && m in s.minted && m.project in s.projects && !Anchored(s, m.project)
    ensures MintedAgain(s, Run(s, more), m)
  {
    var p := m.project;
    var i :| 0 <= i < |s.minted| && s.minted[i] == m;
    assert MintingOk(s, s.minted[i]);
    var emptying := Empty(s, p);
    var empty := s.(rows := s.rows - RowsOf(s, p));
    var turnover := [ArchiveProject(p), DeleteProject(p), CreateProject(m.key)];
    var reborn := Run(empty, turnover);
    TurnedOver(s, empty, p, m.key);
    var minting := MintUpTo(reborn, s.nextId, m.entity, m.number);
    more := emptying + turnover + minting;
    RunAppend(s, emptying + turnover, minting);
    RunAppend(s, emptying, turnover);
    var after := Run(s, more);
    assert after.minted[|after.minted| - 1] == Minting(s.nextId, m.key, m.entity, m.number);
    hide Run, Print, ProjectKey, Inv;
  }

  lemma TurnedOver(s: Registry, empty: Registry, p: Id, key: string)
    requires Inv(s) && p in s.projects && s.projects[p].key == key
    requires empty == s.(rows := s.rows - RowsOf(s, p))
    ensures var reborn := Run(empty, [ArchiveProject(p), DeleteProject(p), CreateProject(key)]);
      && s.nextId in reborn.projects && reborn.projects[s.nextId].key == key && reborn.minted == s.minted
      && forall t :: NextSeq(reborn.counters, s.nextId, t) == 1
  {
    hide ProjectKey;
    var acts := [ArchiveProject(p), DeleteProject(p), CreateProject(key)];
    var archived := Step(empty, acts[0]);
    assert !HasRows(archived, p);
    var gone := Step(archived, acts[1]);
    assert gone.projects == s.projects - {p};
    assert !Taken(gone, key);
    assert acts[1..][1..][1..] == [] && acts[1..][0] == acts[1] && acts[1..][1..][0] == acts[2];
    assert Run(empty, acts) == Run(archived, acts[1..]) == Run(gone, acts[1..][1..]) == Step(gone, acts[2]);
  }

  /** A key of a project there is can be handed out again in some continuation if and only if
      the project holds nothing but requirements and plans. */
  lemma KeyCanRecurExactly(acts: seq<Act>, i: nat)
    requires i < |Run(EMPTY, acts).minted|
    requires Run(EMPTY, acts).minted[i].project in Run(EMPTY, acts).projects
    ensures var s := Run(EMPTY, acts);
      var m := s.minted[i];
      (exists more :: MintedAgain(s, Run(s, more), m)) <==> !Anchored(s, m.project)
  {
    RunKeeps(EMPTY, acts);
    var s := Run(EMPTY, acts);
    var m := s.minted[i];
    assert MintingOk(s, m) && m in s.minted;
    hide Run, Inv, MintedAgain, Anchored;
    if Anchored(s, m.project) {
      forall more ensures !MintedAgain(s, Run(s, more), m) { AnchoredNeverAgain(s, more, m); }
    } else {
      var more := FreeToRecur(s, m);
    }
  }

  const EARLY: seq<Act> := [CreateProject("PAY"), CreateEntity(0, Requirement), DeleteEntity(0, Requirement, 1)]
  const LATE: seq<Act> := [ArchiveProject(0), DeleteProject(0), CreateProject("PAY")]
  const LAST: seq<Act> := [CreateEntity(1, Requirement)]

  const USED := Registry(map[0 := Project("PAY", false)], map[(0, Requirement) := 2], {},
                         [Minting(0, "PAY", Requirement, 1)], 1)

  lemma EarlyRun()
    ensures Run(EMPTY, EARLY) == USED
  {
    var one := Registry(map[0 := Project("PAY", false)], map[], {}, [], 1);
    assert Step(EMPTY, EARLY[0]) == one;
    var two := USED.(rows := {(0, Requirement, 1)});
    assert Step(one, EARLY[1]) == two;
    assert Step(two, EARLY[2]) == USED;
    hide Step;
    assert EARLY[1..][1..][1..] == [] && EARLY[1..][0] == EARLY[1] && EARLY[1..][1..][0] == EARLY[2];
    assert Run(EMPTY, EARLY) == Run(one, EARLY[1..]) == Run(two, EARLY[1..][1..]);
  }

  lemma LateRun()
    ensures Run(USED, LATE) == Registry(map[1 := Project("PAY", false)], map[], {}, USED.minted, 2)
  {
    var archived := USED.(projects := map[0 := Project("PAY", true)]);
    var gone := USED.(projects := map[], counters := map[]);
    assert Step(USED, LATE[0]) == archived;
    assert WithoutProject(archived.counters, 0) == map[];
    assert Step(archived, LATE[1]) == gone;
    assert !Taken(gone, "PAY");
    assert Step(gone, LATE[2]) == Registry(map[1 := Project("PAY", false)], map[], {}, USED.minted, 2);
    hide Step;
    assert LATE[1..][1..][1..] == [] && LATE[1..][0] == LATE[1] && LATE[1..][1..][0] == LATE[2];
    assert Run(USED, LATE) == Run(archived, LATE[1..]) == Run(gone, LATE[1..][1..]);
  }

  /** The shortest such run: the first requirement of a project is deleted, so is the project,
      and the first requirement of a new project of that name has the key of the old one. */
  lemma RequirementKeyRecurs()
    ensures Run(EMPTY, EARLY + LATE + LAST).minted
            == [Minting(0, "PAY", Requirement, 1), Minting(1, "PAY", Requirement, 1)]
  {
    hide Run;
    RunAppend(EMPTY, EARLY + LATE, LAST);
    RunAppend(EMPTY, EARLY, LATE);
    EarlyRun();
    LateRun();
    RunOne(Run(USED, LATE), LAST[0]);
  }

  lemma RunOne(s: Registry, act: Act)
    ensures Run(s, [act]) == Step(s, act)
  {
    assert [act][1..] == [];
    hide Step;
  }
}
