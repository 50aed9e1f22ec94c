/** What the account tables say, told from the acts alone: every column of an account is what the
    last act that gave it said, a session resolves exactly from its sign-in to the act that closes
    it, and a reset token works once. */
module AccountHistory {
  import opened Common
  import opened Tables
  import opened Auth

  /** A history of acts on these accounts. */
  datatype Log = Log(cfg: Config, start: Accounts, acts: History) {

    /** The accounts after the first n acts. */
    function At(n: nat): Accounts
      requires n <= |acts|
    {
      After(cfg, start, acts[..n])
    }

    function Reply(i: nat): Reply
      requires i < |acts|
    {
      Perform(cfg, At(i), acts[i].0, acts[i].1).reply
    }
  }

  lemma NextLog(log: Log, n: nat)
    requires n < |log.acts|
    ensures log.At(n + 1) == Perform(log.cfg, log.At(n), log.acts[n].0, log.acts[n].1).after
  {
    hide Perform;
    assert log.acts[..n + 1][..n] == log.acts[..n];
  }

  lemma StartsThere(log: Log)
    ensures log.At(0) == log.start
  {}

  /** Account ids come from the supply. */
  ghost predicate IdsFresh(s: Accounts) {
    forall u :: u in s.users ==> u < s.nextUser
  }

  // ------------------------------------------------------------------ what an act writes

  datatype Column = Username | Email | Name | Admin | Disabled | Secret | MustChange

  datatype Value = Gone | Text(text: string) | Flag(flag: bool)

  /** What a column of an account holds; nothing where there is no such account. */
  function Holds(s: Accounts, u: Id, col: Column): Value {
    if u !in s.users then Gone
    else
      match col
      case Username => Text(s.users[u].username)
      case Email => Text(s.users[u].email)
      case Name => Text(s.users[u].name)
      case Admin => Flag(s.users[u].admin)
      case Disabled => Flag(s.users[u].disabled)
      case Secret => Text(s.users[u].secret)
      case MustChange => Flag(s.users[u].mustChange)
  }

  function PasswordGives(password: string, mustChange: bool, col: Column): Option<Value> {
    match col
    case Secret => Some(Text(password))
    case MustChange => Some(Flag(mustChange))
    case _ => None
  }

  function UpdateGives(name: Option<string>, email: Option<string>, password: Option<string>, col: Column)
    : Option<Value>
  {
    match col
    case Name => if name.Some? then Some(Text(Strip(name.value))) else None
    case Email => if email.Some? then Some(Text(Lower(Strip(email.value)))) else None
    case _ => if password.Some? then PasswordGives(password.value, false, col) else None
  }

  function CreationGives(
    username: string, email: string, name: string, password: string, admin: bool, col: Column): Option<Value>
  {
    match col
    case Username => Some(Text(Strip(username)))
    case Email => Some(Text(Lower(Strip(email))))
    case Name => Some(Text(if Strip(name) == "" then username else Strip(name)))
    case Admin => Some(Flag(admin))
    case Disabled => Some(Flag(false))
    case _ => PasswordGives(password, false, col)
  }

  /** What an act gives of a column of u, by its arguments and its reply. */
  function ActGives(s: Accounts, act: Act, reply: Reply, u: Id, col: Column): Option<Value> {
    match act
    case SettingStatus(_, x, disabled) =>
      if reply.Done? && x == u && col.Disabled? then Some(Flag(disabled)) else None
    case Updating(x, name, email, password) =>
      if reply.Done? && x == u then UpdateGives(name, email, password, col) else None
    case AdminReset(x, temp) => if reply.Done? && x == u then PasswordGives(temp, true, col) else None
    case UsingResetToken(t, password) =>
      if reply.Done? && t in s.resets && s.resets[t].user == u then PasswordGives(password, false, col) else None
    case Forgetting(found, temp, _) =>
      if reply == Told(EmailSent) && found == Some(u) && u in s.users && !s.users[u].disabled
      then PasswordGives(temp, true, col) else None
    case ChangingOwn(x, _, password, _) =>
      if reply.Done? && x == u then PasswordGives(password, false, col) else None
    case Creating(username, email, name, password, admin) =>
      if reply.Done? && u == s.nextUser then CreationGives(username, email, name, password, admin, col) else None
    case Deleting(_, x, _) => if reply.Done? && x == u then Some(Gone) else None
    case _ => None
  }

  /** One act leaves in each column what it gives, and otherwise what was there. */
  lemma ActWrites(cfg: Config, s: Accounts, now: Time, act: Act, u: Id, col: Column)
    requires IdsFresh(s)
    ensures var r := Perform(cfg, s, now, act);
      var given := ActGives(s, act, r.reply, u, col);
      Holds(r.after, u, col) == if given.Some? then given.value else Holds(s, u, col)
  {
    hide SignIn, SignOut, UpdateUser, CreateUser, InitiatePasswordReset, CompletePasswordReset, RequestPasswordReset,
      ChangeOwnPassword, ActGives, Holds, IdsFresh;
    if act.Updating? {
      UpdateWrites(cfg, s, act.u, act.newName, act.newEmail, act.newPassword, u, col);
    } else if act.Creating? {
      CreationWrites(cfg, s, act.username, act.email, act.name, act.password, act.admin, u, col);
    } else if act.SigningIn? || act.SigningOut? {
      SigningWrites(cfg, s, now, act, u, col);
    } else if act.SettingStatus? || act.Deleting? {
      StatusWrites(cfg, s, now, act, u, col);
    } else {
      PasswordWrites(cfg, s, now, act, u, col);
    }
  }

  lemma SigningWrites(cfg: Config, s: Accounts, now: Time, act: Act, u: Id, col: Column)
    requires act.SigningIn? || act.SigningOut?
    ensures Holds(Perform(cfg, s, now, act).after, u, col) == Holds(s, u, col)
    ensures ActGives(s, act, Perform(cfg, s, now, act).reply, u, col).None?
  {
    hide Locked;
  }

  lemma StatusWrites(cfg: Config, s: Accounts, now: Time, act: Act, u: Id, col: Column)
    requires act.SettingStatus? || act.Deleting?
    ensures var r := Perform(cfg, s, now, act);
      var given := ActGives(s, act, r.reply, u, col);
      Holds(r.after, u, col) == if given.Some? then given.value else Holds(s, u, col)
  {
    hide Revoke;
  }

  lemma PasswordWrites(cfg: Config, s: Accounts, now: Time, act: Act, u: Id, col: Column)
    requires act.AdminReset? || act.UsingResetToken? || act.Forgetting? || act.ChangingOwn?
    ensures var r := Perform(cfg, s, now, act);
      var given := ActGives(s, act, r.reply, u, col);
      Holds(r.after, u, col) == if given.Some? then given.value else Holds(s, u, col)
  {
    hide Revoke, Acceptable;
  }

  lemma UpdateWrites(
    cfg: Config, s: Accounts, x: Id, name: Option<string>, email: Option<string>, password: Option<string>,
    u: Id, col: Column)
    ensures var r := UpdateUser(cfg, s, x, name, email, password);
      var given := ActGives(s, Updating(x, name, email, password), r.reply, u, col);
      Holds(r.after, u, col) == if given.Some? then given.value else Holds(s, u, col)
  {
    hide Acceptable, IdentityOk, EmailTaken, Strip, Lower, Revoke;
  }

  lemma CreationWrites(
    cfg: Config, s: Accounts, username: string, email: string, name: string, password: string, admin: bool,
    u: Id, col: Column)
    requires IdsFresh(s)
    ensures var r := CreateUser(cfg, s, username, email, name, password, admin);
      var given := ActGives(s, Creating(username, email, name, password, admin), r.reply, u, col);
      Holds(r.after, u, col) == if given.Some? then given.value else Holds(s, u, col)
  {
    hide Acceptable, IdentityOk, Known, Strip, Lower;
  }

  lemma IdsStayFresh(cfg: Config, s: Accounts, now: Time, act: Act)
    requires IdsFresh(s)
    ensures IdsFresh(Perform(cfg, s, now, act).after)
  {
    LongerShapes(cfg, s, act);
    hide UpdateUser, CreateUser, Acceptable, Revoke, Locked;
  }

  // ------------------------------------------------------------------ columns over a run

  function Gives(log: Log, i: nat, u: Id, col: Column): Option<Value> {
    if i < |log.acts| then ActGives(log.At(i), log.acts[i].1, log.Reply(i), u, col) else None
  }

  /** Of the first n acts the last that gave this column of u gave x; or none did, and it was x
      from the start. */
  ghost predicate LastGives(log: Log, n: nat, u: Id, col: Column, x: Value) {
    || (exists i :: 0 <= i < n && Gives(log, i, u, col) == Some(x)
          && forall j :: i < j < n ==> Gives(log, j, u, col).None?)
    || (x == Holds(log.start, u, col) && forall i :: 0 <= i < n ==> Gives(log, i, u, col).None?)
  }

  lemma GivesStep(log: Log, m: nat, u: Id, col: Column, x: Value)
    ensures Gives(log, m, u, col) == Some(x) ==> LastGives(log, m + 1, u, col, x)
    ensures Gives(log, m, u, col).None? && LastGives(log, m, u, col, x) ==> LastGives(log, m + 1, u, col, x)
  {
    hide Gives;
    if i :| 0 <= i < m && Gives(log, i, u, col) == Some(x) && forall j :: i < j < m ==> Gives(log, j, u, col).None? {
      assert Gives(log, m, u, col).None? ==> forall j :: i < j < m + 1 ==> Gives(log, j, u, col).None?;
    }
  }

  lemma LastGivesOnce(log: Log, n: nat, u: Id, col: Column, x: Value, y: Value)
    requires LastGives(log, n, u, col, x) && LastGives(log, n, u, col, y)
    ensures x == y
  {
    hide Gives;
  }

  /** Over every run, each column of an account is what the last act that gave it said, or what it
      was at the start. */
  lemma {:induction false} ColumnsAreLastGiven(log: Log, n: nat, u: Id, col: Column)
    requires n <= |log.acts| && IdsFresh(log.start)
    ensures IdsFresh(log.At(n)) && LastGives(log, n, u, col, Holds(log.At(n), u, col))
  {
    hide Perform, IdsFresh, ActGives;
    if n == 0 {
      StartsThere(log);
    } else {
      var m := n - 1;
      ColumnsAreLastGiven(log, m, u, col);
      NextLog(log, m);
      hide LastGives, Holds;
      var now, act := log.acts[m].0, log.acts[m].1;
      IdsStayFresh(log.cfg, log.At(m), now, act);
      ActWrites(log.cfg, log.At(m), now, act, u, col);
      GivesStep(log, m, u, col, Holds(log.At(n), u, col));
    }
  }

  lemma GivenIsHeld(log: Log, n: nat, u: Id, col: Column, x: Value)
    requires n <= |log.acts| && IdsFresh(log.start)
    ensures LastGives(log, n, u, col, x) <==> Holds(log.At(n), u, col) == x
  {
    hide Gives, Holds, IdsFresh;
    ColumnsAreLastGiven(log, n, u, col);
    if LastGives(log, n, u, col, x) {
      LastGivesOnce(log, n, u, col, x, Holds(log.At(n), u, col));
    }
  }

  // ------------------------------------------------------------------ names

  /** No two accounts have the same username, whatever the letter case, so the query that looks
      one up by its name finds at most one. */
  ghost predicate UsernamesOk(s: Accounts) {
    forall u, v :: u in s.users && v in s.users && Lower(s.users[u].username) == Lower(s.users[v].username) ==> u == v
  }

  lemma UsernamesStep(cfg: Config, s: Accounts, now: Time, act: Act)
    requires UsernamesOk(s) && IdsFresh(s)
    ensures UsernamesOk(Perform(cfg, s, now, act).after)
  {
    var after := Perform(cfg, s, now, act).after;
    hide Perform, IdsFresh, Lower;
    if act.Creating? {
      NewUsername(cfg, s, now, act);
    } else {
      forall u | u in after.users ensures u in s.users && after.users[u].username == s.users[u].username {
        ActWrites(cfg, s, now, act, u, Username);
      }
    }
  }

  lemma NewUsername(cfg: Config, s: Accounts, now: Time, act: Act)
    requires UsernamesOk(s) && IdsFresh(s) && act.Creating?
    ensures UsernamesOk(Perform(cfg, s, now, act).after)
  {
    hide Acceptable, IdentityOk, Strip, Lower;
  }

  lemma {:induction false} UsernamesStayUnique(log: Log, n: nat)
    requires n <= |log.acts| && IdsFresh(log.start) && UsernamesOk(log.start)
    ensures IdsFresh(log.At(n)) && UsernamesOk(log.At(n))
  {
    hide Perform, IdsFresh, UsernamesOk;
    if n == 0 {
      StartsThere(log);
    } else {
      UsernamesStayUnique(log, n - 1);
      NextLog(log, n - 1);
      IdsStayFresh(log.cfg, log.At(n - 1), log.acts[n - 1].0, log.acts[n - 1].1);
      UsernamesStep(log.cfg, log.At(n - 1), log.acts[n - 1].0, log.acts[n - 1].1);
    }
  }

  // ------------------------------------------------------------------ lockout

  /** The i-th act made u's password be checked, and it was wrong. */
  predicate Wrong(log: Log, i: nat, u: Id) {
    i < |log.acts| && WrongCheck(log.At(i), log.acts[i].0, log.acts[i].1, u)
  }

  /** The i-th act signs u in, makes the account, or sets its password other than by its own
      change: the count starts again. */
  predicate Restarts(log: Log, i: nat, u: Id) {
    i < |log.acts|
    && ((log.acts[i].1.SigningIn? && log.acts[i].1.found == Some(u) && log.Reply(i).Opened?)
        || (!log.acts[i].1.ChangingOwn? && Gives(log, i, u, Secret).Some?))
  }

  /** The wrong passwords checked for u since the count last started. */
  function WrongSince(log: Log, n: nat, u: Id): nat {
    if n == 0 || Restarts(log, n - 1, u) then 0 else WrongSince(log, n - 1, u) + if Wrong(log, n - 1, u) then 1 else 0
  }

  /** The i-th act is a wrong password that completes a series of `threshold`. */
  predicate Locks(log: Log, i: nat, u: Id) {
    Wrong(log, i, u) && WrongSince(log, i + 1, u) % Threshold(log.cfg) == 0
  }

  /** Some series was completed at a moment less than a lockout ago, and the count has neither
      started again nor completed another series since. */
  ghost predicate LockedOut(log: Log, n: nat, u: Id, until: Time) {
    exists i :: 0 <= i < n && Locks(log, i, u) && until == log.acts[i].0 + log.cfg.lockout
                && forall j :: i < j < n ==> !Restarts(log, j, u) && !Locks(log, j, u)
  }

  /** Nobody starts with a count or a lock. */
  ghost predicate Unlocked(s: Accounts) {
    forall u :: u in s.users ==> s.users[u].failed == 0 && s.users[u].lockedUntil.None?
  }

  ghost predicate LockAsCounted(log: Log, n: nat, u: Id)
    requires n <= |log.acts|
  {
    if u in log.At(n).users then
      var user := log.At(n).users[u];
      && user.failed == WrongSince(log, n, u) % Threshold(log.cfg)
      && match user.lockedUntil
         case Some(until) => LockedOut(log, n, u, until)
         case None => forall until :: !LockedOut(log, n, u, until)
    else forall until :: !LockedOut(log, n, u, until)
  }

  lemma LockedOutOnce(log: Log, n: nat, u: Id, a: Time, b: Time)
    requires LockedOut(log, n, u, a) && LockedOut(log, n, u, b)
    ensures a == b
  {
    hide Locks, Restarts;
  }

  /** What one act does to the count and the lock of an account. */
  lemma CountStep(cfg: Config, s: Accounts, now: Time, act: Act, u: Id)
    requires IdsFresh(s)
    ensures var r := Perform(cfg, s, now, act);
      var restarts :=
        || (act.SigningIn? && act.found == Some(u) && r.reply.Opened?)
        || (!act.ChangingOwn? && ActGives(s, act, r.reply, u, Secret).Some?);
      var wrong := WrongCheck(s, now, act, u);
      && (restarts ==>
            && !wrong
            && (u in r.after.users ==> r.after.users[u].failed == 0 && r.after.users[u].lockedUntil.None?))
      && (wrong ==>
            && u in s.users && u in r.after.users
            && (if s.users[u].failed + 1 >= Threshold(cfg)
                then r.after.users[u].failed == 0 && r.after.users[u].lockedUntil == Some(now + cfg.lockout)
                else r.after.users[u].failed == s.users[u].failed + 1
                     && r.after.users[u].lockedUntil == s.users[u].lockedUntil))
      && (!restarts && !wrong ==>
            && (u in r.after.users <==> u in s.users)
            && (u in s.users ==>
                  && r.after.users[u].failed == s.users[u].failed
                  && r.after.users[u].lockedUntil == s.users[u].lockedUntil))
  {
    LongerShapes(cfg, s, act);
    hide UpdateUser, CreateUser, Acceptable, Revoke, Strip, Lower;
  }

  lemma OneMoreWrong(w: nat, t: nat)
    requires t >= 1
    ensures (w + 1) % t == if w % t + 1 >= t then 0 else w % t + 1
  {
    var q, r := w / t, w % t;
    assert w == q * t + r;
    if r + 1 >= t {
      assert w + 1 == (q + 1) * t;
      RemainderIs(w + 1, q + 1, 0, t);
    } else {
      RemainderIs(w + 1, q, r + 1, t);
    }
  }

  lemma RemainderIs(x: nat, q: nat, r: nat, t: nat)
    requires r < t && x == q * t + r
    ensures x % t == r
  {
    var p, s := x / t, x % t;
    assert x == p * t + s;
    Multiples(q, p, r, s, t);
  }

  lemma Multiples(q: nat, p: nat, r: nat, s: nat, t: nat)
    requires q * t + r == p * t + s && r < t && s < t
    ensures q == p
  {
    if q < p {
      assert p * t == q * t + (p - q) * t;
      AtLeastOnce(p - q, t);
    } else if p < q {
      assert q * t == p * t + (q - p) * t;
      AtLeastOnce(q - p, t);
    }
  }

  lemma AtLeastOnce(k: nat, t: nat)
    requires k >= 1
    ensures k * t >= t
  {}

  /** The stored count is what remains of the wrong passwords since the count last started, after
      whole series of `threshold`; the stored lock is that of the last completed series. */
  lemma {:induction false} LockIsAsCounted(log: Log, n: nat, u: Id)
    requires n <= |log.acts| && IdsFresh(log.start) && Unlocked(log.start)
    ensures IdsFresh(log.At(n)) && LockAsCounted(log, n, u)
  {
    hide Perform, IdsFresh, ActGives;
    if n == 0 {
      StartsThere(log);
    } else {
      var m := n - 1;
      LockIsAsCounted(log, m, u);
      NextLog(log, m);
      IdsStayFresh(log.cfg, log.At(m), log.acts[m].0, log.acts[m].1);
      CountStep(log.cfg, log.At(m), log.acts[m].0, log.acts[m].1, u);
      LockStep(log, m, n, u);
    }
  }

  lemma LockStep(log: Log, m: nat, n: nat, u: Id)
    requires n == m + 1 <= |log.acts| && LockAsCounted(log, m, u) && IdsFresh(log.At(m))
    requires log.At(n) == Perform(log.cfg, log.At(m), log.acts[m].0, log.acts[m].1).after
    ensures LockAsCounted(log, n, u)
  {
    hide Perform, IdsFresh, ActGives, Gives, LockedOut, WrongCheck;
    var now, act := log.acts[m].0, log.acts[m].1;
    CountStep(log.cfg, log.At(m), now, act, u);
    GivenNow(log, m, u);
    forall until
      ensures LockedOut(log, n, u, until) <==>
                || (Locks(log, m, u) && until == now + log.cfg.lockout)
                || (LockedOut(log, m, u, until) && !Restarts(log, m, u) && !Locks(log, m, u))
    {
      LockedOutStep(log, m, u, until);
    }
    OneMoreWrong(WrongSince(log, m, u), Threshold(log.cfg));
    assert Restarts(log, m, u) ==> !Wrong(log, m, u) && WrongSince(log, n, u) == 0;
    assert !Restarts(log, m, u) ==>
        WrongSince(log, n, u) == WrongSince(log, m, u) + if Wrong(log, m, u) then 1 else 0;
    hide WrongSince;
    if Restarts(log, m, u) {
      assert !Locks(log, m, u) && WrongSince(log, n, u) % Threshold(log.cfg) == 0;
      assert forall until :: !LockedOut(log, n, u, until);
    } else if Wrong(log, m, u) {
      assert u in log.At(m).users && u in log.At(n).users;
      assert Locks(log, m, u) <==> log.At(m).users[u].failed + 1 >= Threshold(log.cfg);
    } else {
      assert !Locks(log, m, u);
      assert u in log.At(n).users <==> u in log.At(m).users;
      assert u in log.At(m).users ==> log.At(n).users[u].failed == log.At(m).users[u].failed;
      assert u in log.At(m).users ==> log.At(n).users[u].lockedUntil == log.At(m).users[u].lockedUntil;
      assert WrongSince(log, n, u) == WrongSince(log, m, u);
    }
  }

  lemma GivenNow(log: Log, i: nat, u: Id)
    requires i < |log.acts|
    ensures Gives(log, i, u, Secret) == ActGives(log.At(i), log.acts[i].1, log.Reply(i), u, Secret)
  {
    hide Perform, ActGives;
  }

  lemma LockedOutStep(log: Log, m: nat, u: Id, until: Time)
    requires m < |log.acts|
    ensures LockedOut(log, m + 1, u, until) <==>
              || (Locks(log, m, u) && until == log.acts[m].0 + log.cfg.lockout)
              || (LockedOut(log, m, u, until) && !Restarts(log, m, u) && !Locks(log, m, u))
  {
    hide Locks, Restarts;
    if LockedOut(log, m, u, until) && !Restarts(log, m, u) && !Locks(log, m, u) {
      var i :| 0 <= i < m && Locks(log, i, u) && until == log.acts[i].0 + log.cfg.lockout
               && forall j :: i < j < m ==> !Restarts(log, j, u) && !Locks(log, j, u);
      assert forall j :: i < j < m + 1 ==> !Restarts(log, j, u) && !Locks(log, j, u);
    }
  }

  // ------------------------------------------------------------------ signing in

  /** Sign-in opens, over every run, for exactly the password that was last set for the account,
      by whichever act, or that it was created or started with; while it was last enabled and is
      not locked out by a series of wrong ones. */
  lemma SignInByHistory(log: Log, n: nat, now: Time, u: Id, password: string)
    requires n <= |log.acts| && IdsFresh(log.start) && Unlocked(log.start)
    ensures SignIn(log.cfg, log.At(n), now, Some(u), password).reply.Opened? <==>
              && LastGives(log, n, u, Secret, Text(password)) && LastGives(log, n, u, Disabled, Flag(false))
              && !exists until :: LockedOut(log, n, u, until) && now < until
  {
    hide LastGives, IdsFresh, LockedOut, Unlocked, WrongSince;
    GivenIsHeld(log, n, u, Secret, Text(password));
    GivenIsHeld(log, n, u, Disabled, Flag(false));
    LockIsAsCounted(log, n, u);
    if u in log.At(n).users && log.At(n).users[u].lockedUntil.Some? {
      var end := log.At(n).users[u].lockedUntil.value;
      forall until | LockedOut(log, n, u, until) ensures until == end { LockedOutOnce(log, n, u, until, end); }
    }
  }

  /** After one's own change the new password signs in, the old one does not, and the lock stays as
      it was. */
  lemma OwnChangeTakesEffect(
    cfg: Config, s: Accounts, u: Id, current: string, password: string, keep: Option<Token>, now: Time)
    requires ChangeOwnPassword(s, u, current, password, keep).reply == Done
    requires !s.users[u].disabled && !Locked(s.users[u], now)
    ensures var after := ChangeOwnPassword(s, u, current, password, keep).after;
      && SignIn(cfg, after, now, Some(u), password).reply.Opened?
      && !SignIn(cfg, after, now, Some(u), current).reply.Opened?
      && SignIn(cfg, s, now, Some(u), current).reply.Opened?
  {
    hide Acceptable, Revoke;
  }

  /** The other acts that set a password also lift the lock: whatever was counted before, the new
      password signs an active account in at once, and no other does. */
  lemma ResetTakesEffect(cfg: Config, s: Accounts, now: Time, act: Act, later: Time, u: Id, guess: string)
    requires IdsFresh(s) && u in s.users && !s.users[u].disabled
    requires act.Updating? || act.AdminReset? || act.UsingResetToken? || act.Forgetting?
    requires ActGives(s, act, Perform(cfg, s, now, act).reply, u, Secret).Some?
    ensures var after := Perform(cfg, s, now, act).after;
      SignIn(cfg, after, later, Some(u), guess).reply.Opened? <==>
        ActGives(s, act, Perform(cfg, s, now, act).reply, u, Secret) == Some(Text(guess))
  {
    LongerShapes(cfg, s, act);
    hide UpdateUser, Acceptable, Revoke;
  }

  // ------------------------------------------------------------------ sessions

  /** The i-th act was u's sign-in, and it opened session k. */
  predicate Opens(log: Log, i: nat, k: Token, u: Id) {
    i < |log.acts| && log.acts[i].1.SigningIn? && log.acts[i].1.found == Some(u) && log.Reply(i) == Opened(k)
  }

  /** The act ends session k of u: it signs it out, disables or deletes u, or sets u's password,
      unless that is u's own change made from this session. */
  predicate ClosesNow(s: Accounts, act: Act, reply: Reply, k: Token, u: Id) {
    || act == SigningOut(k)
    || ActGives(s, act, reply, u, Disabled) == Some(Flag(true))
    || (ActGives(s, act, reply, u, Secret).Some? && !(act.ChangingOwn? && act.keep == Some(k)))
  }

  predicate Closes(log: Log, i: nat, k: Token, u: Id) {
    i < |log.acts| && ClosesNow(log.At(i), log.acts[i].1, log.Reply(i), k, u)
  }

  predicate LiveUntil(s: Accounts, k: Token, u: Id, end: Time) {
    k in s.sessions && s.sessions[k] == Session(u, end, false)
  }

  lemma SessionStep(cfg: Config, s: Accounts, now: Time, act: Act, k: Token, u: Id, end: Time)
    requires SessionsOk(s)
    ensures var r := Perform(cfg, s, now, act);
      LiveUntil(r.after, k, u, end) <==>
        || (act.SigningIn? && act.found == Some(u) && r.reply == Opened(k) && end == now + cfg.ttl)
        || (LiveUntil(s, k, u, end) && !ClosesNow(s, act, r.reply, k, u))
  {
    hide UpdateUser, CreateUser, Perform, SessionsOk, ClosesNow, LiveUntil;
    if act.SigningIn? {
      OpeningStep(cfg, s, now, act, k, u, end);
    } else if act.SigningOut? || act.SettingStatus? || act.Deleting? {
      ClosingStep(cfg, s, now, act, k, u, end);
    } else if act.Updating? || act.Creating? {
      ProfileStep(cfg, s, now, act, k, u, end);
    } else {
      PasswordStep(cfg, s, now, act, k, u, end);
    }
  }

  lemma OpeningStep(cfg: Config, s: Accounts, now: Time, act: Act, k: Token, u: Id, end: Time)
    requires SessionsOk(s) && act.SigningIn?
    ensures var r := Perform(cfg, s, now, act);
      && !ClosesNow(s, act, r.reply, k, u)
      && (LiveUntil(r.after, k, u, end) <==>
            (act.found == Some(u) && r.reply == Opened(k) && end == now + cfg.ttl) || LiveUntil(s, k, u, end))
  {
    hide Locked;
  }

  lemma ClosingStep(cfg: Config, s: Accounts, now: Time, act: Act, k: Token, u: Id, end: Time)
    requires SessionsOk(s) && (act.SigningOut? || act.SettingStatus? || act.Deleting?)
    ensures var r := Perform(cfg, s, now, act);
      LiveUntil(r.after, k, u, end) <==> LiveUntil(s, k, u, end) && !ClosesNow(s, act, r.reply, k, u)
  {}

  lemma ProfileStep(cfg: Config, s: Accounts, now: Time, act: Act, k: Token, u: Id, end: Time)
    requires SessionsOk(s) && (act.Updating? || act.Creating?)
    ensures var r := Perform(cfg, s, now, act);
      LiveUntil(r.after, k, u, end) <==> LiveUntil(s, k, u, end) && !ClosesNow(s, act, r.reply, k, u)
  {
    LongerShapes(cfg, s, act);
    hide UpdateUser, CreateUser, Strip, Lower;
  }

  lemma PasswordStep(cfg: Config, s: Accounts, now: Time, act: Act, k: Token, u: Id, end: Time)
    requires SessionsOk(s)
    requires act.AdminReset? || act.UsingResetToken? || act.Forgetting? || act.ChangingOwn?
    ensures var r := Perform(cfg, s, now, act);
      LiveUntil(r.after, k, u, end) <==> LiveUntil(s, k, u, end) && !ClosesNow(s, act, r.reply, k, u)
  {
    hide Acceptable;
  }

  /** Session k of u was opened `ttl` before `end`, and nothing has closed it since. */
  ghost predicate OpenSince(log: Log, n: nat, k: Token, u: Id, end: Time) {
    exists i :: 0 <= i < n && Opens(log, i, k, u) && end == log.acts[i].0 + log.cfg.ttl
                && forall j :: i < j < n ==> !Closes(log, j, k, u)
  }

  lemma OpenStep(log: Log, m: nat, k: Token, u: Id, end: Time)
    requires m < |log.acts|
    ensures OpenSince(log, m + 1, k, u, end) <==>
              || (Opens(log, m, k, u) && end == log.acts[m].0 + log.cfg.ttl)
              || (OpenSince(log, m, k, u, end) && !Closes(log, m, k, u))
  {
    hide Opens, Closes;
    if OpenSince(log, m, k, u, end) && !Closes(log, m, k, u) {
      var i :| 0 <= i < m && Opens(log, i, k, u) && end == log.acts[i].0 + log.cfg.ttl
               && forall j :: i < j < m ==> !Closes(log, j, k, u);
      assert forall j :: i < j < m + 1 ==> !Closes(log, j, k, u);
    }
  }

  lemma {:induction false} LiveIsOpenSince(log: Log, n: nat, k: Token, u: Id, end: Time)
    requires n <= |log.acts| && SessionsOk(log.start) && log.start.sessions == map[]
    ensures SessionsOk(log.At(n))
    ensures LiveUntil(log.At(n), k, u, end) <==> OpenSince(log, n, k, u, end)
  {
    hide Perform, SessionsOk, ClosesNow;
    if n == 0 {
      StartsThere(log);
    } else {
      var m := n - 1;
      LiveIsOpenSince(log, m, k, u, end);
      NextLog(log, m);
      OpenStep(log, m, k, u, end);
      hide OpenSince, LiveUntil;
      StepKeepsSessions(log.cfg, log.At(m), log.acts[m].0, log.acts[m].1);
      SessionStep(log.cfg, log.At(m), log.acts[m].0, log.acts[m].1, k, u, end);
    }
  }

  /** A token resolves to u exactly from u's sign-in that opened it until its time is up, unless
      it was signed out, u was disabled or deleted, or u's password was set in between other than
      by u from this very session. */
  lemma SessionResolvesExactly(log: Log, n: nat, now: Time, k: Token, u: Id)
    requires n <= |log.acts| && SessionsOk(log.start) && log.start.sessions == map[]
    ensures ResolveSession(log.At(n), now, k) == Some(u) <==>
              exists i :: 0 <= i < n && Opens(log, i, k, u) && now < log.acts[i].0 + log.cfg.ttl
                          && forall j :: i < j < n ==> !Closes(log, j, k, u)
  {
    hide Opens, Closes;
    var s := log.At(n);
    LiveIsOpenSince(log, n, k, u, if k in s.sessions then s.sessions[k].expires else 0);
    if i :| 0 <= i < n && Opens(log, i, k, u) && now < log.acts[i].0 + log.cfg.ttl
            && forall j :: i < j < n ==> !Closes(log, j, k, u) {
      LiveIsOpenSince(log, n, k, u, log.acts[i].0 + log.cfg.ttl);
    }
  }

  // ------------------------------------------------------------------ reset tokens

  /** The i-th act used token t and was told it is done. */
  predicate Uses(log: Log, i: nat, t: Id) {
    i < |log.acts| && log.acts[i].1.UsingResetToken? && log.acts[i].1.t == t && log.Reply(i).Done?
  }

  /** The i-th act deleted the account. */
  predicate Deletes(log: Log, i: nat, u: Id) {
    i < |log.acts| && log.acts[i].1.Deleting? && log.acts[i].1.u == u && log.Reply(i).Done?
  }

  ghost predicate UsedBefore(log: Log, n: nat, t: Id) {
    exists i :: 0 <= i < n && Uses(log, i, t)
  }

  ghost predicate DeletedBefore(log: Log, n: nat, u: Id) {
    exists i :: 0 <= i < n && Deletes(log, i, u)
  }

  lemma TokenStep(cfg: Config, s: Accounts, now: Time, act: Act, t: Id)
    ensures var r := Perform(cfg, s, now, act);
      && (t in r.after.resets <==>
            && t in s.resets
            && !(act.Deleting? && r.reply.Done? && (act.u == s.resets[t].user || act.u == s.resets[t].createdBy)))
      && (t in r.after.resets ==>
            r.after.resets[t] ==
              s.resets[t].(used := s.resets[t].used || (act.UsingResetToken? && act.t == t && r.reply.Done?)))
  {
    LongerShapes(cfg, s, act);
    hide UpdateUser, CreateUser, Acceptable, Revoke, Locked;
  }

  /** A token stays as it was handed out, but for whether it was used, until its account or the one
      that handed it out is deleted. */
  lemma {:induction false} TokenIsAsIssued(log: Log, n: nat, t: Id)
    requires n <= |log.acts|
    ensures t in log.At(n).resets <==>
              && t in log.start.resets && !DeletedBefore(log, n, log.start.resets[t].user)
              && !DeletedBefore(log, n, log.start.resets[t].createdBy)
    ensures t in log.At(n).resets ==>
              && t in log.start.resets
              && log.At(n).resets[t] ==
                   log.start.resets[t].(used := log.start.resets[t].used || UsedBefore(log, n, t))
  {
    hide Perform;
    if n == 0 {
      StartsThere(log);
    } else {
      var m := n - 1;
      TokenIsAsIssued(log, m, t);
      NextLog(log, m);
      TokenStep(log.cfg, log.At(m), log.acts[m].0, log.acts[m].1, t);
      forall u ensures DeletedBefore(log, n, u) <==> DeletedBefore(log, m, u) || Deletes(log, m, u) {}
      assert UsedBefore(log, n, t) <==> UsedBefore(log, m, t) || Uses(log, m, t);
      hide DeletedBefore, UsedBefore;
    }
  }

  /** The policy, spelled out. */
  ghost predicate MeetsPolicy(p: string) {
    && |p| >= 12
    && (exists i :: 0 <= i < |p| && 'a' <= p[i] <= 'z') && (exists i :: 0 <= i < |p| && 'A' <= p[i] <= 'Z')
    && (exists i :: 0 <= i < |p| && '0' <= p[i] <= '9')
    && (exists i :: 0 <= i < |p| && IsSymbol(p[i]))
  }

  predicate IsSymbol(c: char) {
    !('a' <= c <= 'z' || 'A' <= c <= 'Z' || '0' <= c <= '9') && c !in {' ', '\t', '\n', '\r'}
  }

  lemma AcceptableExactly(p: string)
    ensures Acceptable(p) <==> MeetsPolicy(p)
  {
    if Acceptable(p) {
      var a :| a in p && IsLower(a);
      var b :| b in p && IsUpper(b);
      var c :| c in p && IsDigit(c);
      var d :| d in p && IsSpecial(d);
      assert IsSymbol(d);
    }
    if MeetsPolicy(p) {
      var i :| 0 <= i < |p| && 'a' <= p[i] <= 'z';
      assert IsLower(p[i]);
      var j :| 0 <= j < |p| && 'A' <= p[j] <= 'Z';
      assert IsUpper(p[j]);
      var k :| 0 <= k < |p| && '0' <= p[k] <= '9';
      assert IsDigit(p[k]);
      var l :| 0 <= l < |p| && IsSymbol(p[l]);
      assert IsSpecial(p[l]);
    }
  }

  /** Using a token succeeds, over every run, exactly once, before it expires, while its account
      and the one that handed it out exist, and with a password that meets the policy. */
  lemma TokenWorksExactly(log: Log, n: nat, now: Time, t: Id, password: string)
    requires n <= |log.acts|
    ensures CompletePasswordReset(log.At(n), now, t, password).reply == Done <==>
              && MeetsPolicy(password) && t in log.start.resets
              && !log.start.resets[t].used && !UsedBefore(log, n, t) && now < log.start.resets[t].expires
              && !DeletedBefore(log, n, log.start.resets[t].user)
              && !DeletedBefore(log, n, log.start.resets[t].createdBy)
              && log.start.resets[t].user in log.At(n).users
  {
    hide MeetsPolicy, Acceptable, UsedBefore, DeletedBefore, Revoke;
    AcceptableExactly(password);
    TokenIsAsIssued(log, n, t);
  }

  // ------------------------------------------------------------------ which acts are done

  /** Which of the other acts on an account are done, told from its columns. */
  ghost predicate MayDo(log: Log, n: nat, act: Act)
    requires n <= |log.acts|
  {
    match act
    case SettingStatus(actor, u, disabled) => u in log.At(n).users && !(disabled && u == actor)
    case AdminReset(u, _) => u in log.At(n).users
    case ChangingOwn(u, current, password, _) =>
      LastGives(log, n, u, Secret, Text(current)) && MeetsPolicy(password) && password != current
    case Deleting(actor, u, footprint) =>
      u != actor && LastGives(log, n, u, Admin, Flag(false)) && !footprint
    case SigningOut(_) => true
    case _ => false
  }

  lemma DoneExactly(log: Log, n: nat, now: Time, act: Act)
    requires n <= |log.acts| && IdsFresh(log.start)
    requires act.SettingStatus? || act.AdminReset? || act.ChangingOwn? || act.Deleting? || act.SigningOut?
    ensures Perform(log.cfg, log.At(n), now, act).reply == Done <==> MayDo(log, n, act)
  {
    hide LastGives, MeetsPolicy, Acceptable, Revoke, IdsFresh;
    match act
    case ChangingOwn(u, current, password, _) =>
      GivenIsHeld(log, n, u, Secret, Text(current));
      AcceptableExactly(password);
    case Deleting(_, u, _) => GivenIsHeld(log, n, u, Admin, Flag(false));
    case _ =>
  }

  /** A request for a new password: an administrator is sent to the maintainer, without email nobody
      is helped, and otherwise an active account, if one was found, gets the temporary password;
      everyone else is told the same. */
  lemma RequestAnsweredExactly(log: Log, n: nat, found: Option<Id>, temp: string, emailEnabled: bool)
    requires n <= |log.acts| && IdsFresh(log.start)
    ensures var r := RequestPasswordReset(log.At(n), found, temp, emailEnabled);
      var admin := found.Some? && LastGives(log, n, found.value, Admin, Flag(true));
      var active := found.Some? && LastGives(log, n, found.value, Disabled, Flag(false));
      && r.reply == Told(if admin then ContactMaintainer else if !emailEnabled then EmailUnavailable else EmailSent)
      && (r.after != log.At(n) ==> !admin && emailEnabled && active)
      && (!admin && emailEnabled && active ==>
            Holds(r.after, found.value, Secret) == Text(temp) && Holds(r.after, found.value, MustChange) == Flag(true))
  {
    hide LastGives, Revoke, IdsFresh;
    if found.Some? {
      GivenIsHeld(log, n, found.value, Admin, Flag(true));
      GivenIsHeld(log, n, found.value, Disabled, Flag(false));
    }
  }

  /** A name and an address that the rules allow beside this username. */
  predicate ProfileFits(cfg: Config, username: string, email: string, name: string) {
    var u := Strip(username);
    && 3 <= |u| <= 64 && Alphanumeric(u[0])
    && (forall i :: 0 <= i < |u| ==> Alphanumeric(u[i]) || u[i] in {'.', '_', '-'})
    && |Strip(email)| <= 320 && cfg.validEmail(Strip(email)) && |Strip(name)| <= 200
  }

  predicate Alphanumeric(c: char) {
    'a' <= c <= 'z' || 'A' <= c <= 'Z' || '0' <= c <= '9'
  }

  ghost predicate AddressFree(s: Accounts, u: Id, email: string) {
    forall v :: v in s.users && v != u ==> Lower(s.users[v].email) != Lower(Strip(email))
  }

  /** An account is made, and its profile changed, exactly when every part that is given is allowed
      and nobody else has the name or the address. */
  lemma ProfileDoneExactly(cfg: Config, s: Accounts, now: Time, act: Act)
    requires IdsFresh(s)
    ensures act.Creating? ==>
              (Perform(cfg, s, now, act).reply == Done <==>
                 && ProfileFits(cfg, act.username, act.email, act.name) && MeetsPolicy(act.password)
                 && AddressFree(s, s.nextUser, act.email)
                 && forall v :: v in s.users ==> Lower(s.users[v].username) != Lower(Strip(act.username)))
    ensures act.Updating? ==>
              (Perform(cfg, s, now, act).reply == Done <==>
                 && act.u in s.users
                 && (act.newPassword.Some? ==> MeetsPolicy(act.newPassword.value))
                 && (act.newName.Some? ==> 1 <= |Strip(act.newName.value)| <= 200)
                 && (act.newEmail.Some? ==>
                       && AddressFree(s, act.u, act.newEmail.value)
                       && ProfileFits(cfg, s.users[act.u].username, Lower(Strip(act.newEmail.value)),
                                      if act.newName.Some? then Strip(act.newName.value) else s.users[act.u].name)))
  {
    hide Acceptable, Strip, Lower, MeetsPolicy, Revoke, IdentityOk, ProfileFits, IsLower, IsUpper, IsDigit;
    if act.Creating? {
      AcceptableExactly(act.password);
      FitsExactly(cfg, act.username, act.email, act.name);
    }
    if act.Updating? && act.newPassword.Some? {
      AcceptableExactly(act.newPassword.value);
    }
    if act.Updating? && act.newEmail.Some? && act.u in s.users {
      FitsExactly(cfg, s.users[act.u].username, Lower(Strip(act.newEmail.value)),
                  if act.newName.Some? then Strip(act.newName.value) else s.users[act.u].name);
    }
  }

  lemma FitsExactly(cfg: Config, username: string, email: string, name: string)
    ensures IdentityOk(cfg, username, email, name) <==> ProfileFits(cfg, username, email, name)
  {
    hide Strip;
    var u := Strip(username);
    if UsernameOk(u) {
      forall i | 0 <= i < |u| ensures Alphanumeric(u[i]) || u[i] in {'.', '_', '-'} {
        assert u[i] in u;
      }
    }
    if forall i :: 0 <= i < |u| ==> Alphanumeric(u[i]) || u[i] in {'.', '_', '-'} {
      forall c | c in u ensures IsLower(c) || IsUpper(c) || IsDigit(c) || c in {'.', '_', '-'} {
        var i :| 0 <= i < |u| && u[i] == c;
        assert Alphanumeric(u[i]) || u[i] in {'.', '_', '-'};
      }
    }
  }
}
