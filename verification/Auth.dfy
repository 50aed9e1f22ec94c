/** Local accounts (backend/app/domain/auth.py): sign-in with lockout, server-side sessions,
    and every operation that sets a password. */
module Auth {
  import opened Common
  import opened Tables

  /** A stored hash is represented by the password it verifies: hashing is taken as
      injective, and re-hashing on sign-in leaves it alone. */
  datatype User = User(
    username: string, email: string, name: string,
    admin: bool, disabled: bool, secret: string, failed: nat, lockedUntil: Option<Time>, mustChange: bool)

  /** Sessions are looked up by token hash; a fresh random token is a fresh number. */
  type Token = nat

  datatype Session = Session(user: Id, expires: Time, revoked: bool)

  datatype Reset = Reset(user: Id, createdBy: Id, expires: Time, used: bool)

  datatype Accounts = Accounts(
    users: map<Id, User>, sessions: map<Token, Session>, resets: map<Id, Reset>, nextUser: Id, nextToken: Token)

  /** failed_login_threshold, failed_login_lockout_minutes and session_ttl_hours, the last
      two in the clock's unit; `validEmail` is what the e-mail library accepts. */
  datatype Config = Config(threshold: int, lockout: nat, ttl: nat, validEmail: string -> bool)

  /** What a request for a new password is told. */
  datatype ResetOutcome = EmailSent | EmailUnavailable | ContactMaintainer

  datatype Reply = Done | Opened(token: Token) | Told(outcome: ResetOutcome) | Refused(error: Error)

  datatype Answer = Answer(after: Accounts, reply: Reply)

  // ------------------------------------------------------------------ password policy

  const MIN_PASSWORD_LENGTH := 12

  predicate IsLower(c: char) { 'a' <= c <= 'z' }
  predicate IsUpper(c: char) { 'A' <= c <= 'Z' }
  predicate IsDigit(c: char) { '0' <= c <= '9' }
  predicate IsSpecial(c: char) { !IsLower(c) && !IsUpper(c) && !IsDigit(c) && !IsSpace(c) }

  predicate Acceptable(p: string) {
    && |p| >= MIN_PASSWORD_LENGTH
    && (exists c :: c in p && IsLower(c))
    && (exists c :: c in p && IsUpper(c))
    && (exists c :: c in p && IsDigit(c))
    && (exists c :: c in p && IsSpecial(c))
  }

  // ------------------------------------------------------------------ names and addresses

  function LowerChar(c: char): char {
    if 'A' <= c <= 'Z' then c + 32 as char else c
  }

  function Lower(s: string): (l: string)
    ensures |l| == |s| && forall i :: 0 <= i < |s| ==> l[i] == LowerChar(s[i])
  {
    seq(|s|, i requires 0 <= i < |s| => LowerChar(s[i]))
  }

  /** Lower case tells letters apart but for their case, and changes nothing else. */
  lemma LowerIgnoresCase(a: char, b: char)
    ensures LowerChar(a) == LowerChar(b) <==>
              a == b || ('A' <= a <= 'Z' && b == a + 32 as char) || ('A' <= b <= 'Z' && a == b + 32 as char)
    ensures !('A' <= LowerChar(a) <= 'Z')
  {}

  /** What is stored of an address. */
  function Address(email: string): string {
    Lower(Strip(email))
  }

  predicate UsernameOk(username: string) {
    && 3 <= |username| <= 64
    && (IsLower(username[0]) || IsUpper(username[0]) || IsDigit(username[0]))
    && forall c :: c in username ==> IsLower(c) || IsUpper(c) || IsDigit(c) || c in {'.', '_', '-'}
  }

  predicate IdentityOk(cfg: Config, username: string, email: string, name: string) {
    UsernameOk(Strip(username)) && |Strip(email)| <= 320 && cfg.validEmail(Strip(email)) && |Strip(name)| <= 200
  }

  predicate EmailTaken(s: Accounts, email: string, u: Id) {
    exists v :: v in s.users && v != u && Lower(s.users[v].email) == email
  }

  // ------------------------------------------------------------------ operations

  /** Every session of the account is revoked, but the kept one. */
  function Revoke(sessions: map<Token, Session>, u: Id, keep: Option<Token>): map<Token, Session> {
    map k | k in sessions ::
      if sessions[k].user == u && keep != Some(k) then sessions[k].(revoked := true) else sessions[k]
  }

  function Locked(user: User, now: Time): bool {
    user.lockedUntil.Some? && user.lockedUntil.value > now
  }

  function Refuse(s: Accounts, error: Error): Answer {
    Answer(s, Refused(error))
  }

  /** `found` is the row the case-insensitive username query returns. */
  function SignIn(cfg: Config, s: Accounts, now: Time, found: Option<Id>, password: string): Answer {
    if found.None? || found.value !in s.users then Refuse(s, Credentials) else
    var u, user := found.value, s.users[found.value];
    if user.disabled || Locked(user, now) then Refuse(s, Credentials) else
    if password != user.secret then
      var count := user.failed + 1;
      var counted := if count >= cfg.threshold
                     then user.(failed := 0, lockedUntil := Some(now + cfg.lockout))
                     else user.(failed := count);
      Refuse(s.(users := s.users[u := counted]), Credentials)
    else
      Answer(s.(users := s.users[u := user.(failed := 0, lockedUntil := None)],
                sessions := s.sessions[s.nextToken := Session(u, now + cfg.ttl, false)],
                nextToken := s.nextToken + 1),
             Opened(s.nextToken))
  }

  function ResolveSession(s: Accounts, now: Time, k: Token): Option<Id> {
    if k !in s.sessions || s.sessions[k].revoked then None else
    if s.sessions[k].expires <= now then None else
    var u := s.sessions[k].user;
    if u !in s.users || s.users[u].disabled then None else Some(u)
  }

  function SignOut(s: Accounts, k: Token): Answer {
    if k in s.sessions && !s.sessions[k].revoked
    then Answer(s.(sessions := s.sessions[k := s.sessions[k].(revoked := true)]), Done)
    else Answer(s, Done)
  }

  function SetUserStatus(s: Accounts, actor: Id, u: Id, disabled: bool): Answer {
    if u !in s.users then Refuse(s, NotFound) else
    if disabled && u == actor then Refuse(s, Invalid) else
    Answer(s.(users := s.users[u := s.users[u].(disabled := disabled)],
              sessions := if disabled then Revoke(s.sessions, u, None) else s.sessions), Done)
  }

  function WithPassword(s: Accounts, u: Id, password: string, mustChange: bool): Accounts
    requires u in s.users
  {
    s.(users := s.users[u := s.users[u].(secret := password, mustChange := mustChange,
                                         failed := 0, lockedUntil := None)],
       sessions := Revoke(s.sessions, u, None))
  }

  function WithName(s: Accounts, u: Id, name: Option<string>): Accounts
    requires u in s.users
  {
    if name.None? then s else s.(users := s.users[u := s.users[u].(name := Strip(name.value))])
  }

  function WithEmail(s: Accounts, u: Id, email: Option<string>): Accounts
    requires u in s.users
  {
    if email.None? then s else s.(users := s.users[u := s.users[u].(email := Address(email.value))])
  }

  /** Password, name and address, each if given; one refusal refuses the whole. */
  function UpdateUser(
    cfg: Config, s: Accounts, u: Id, name: Option<string>, email: Option<string>, password: Option<string>): Answer
  {
    if u !in s.users then Refuse(s, NotFound) else
    if password.Some? && !Acceptable(password.value) then Refuse(s, Invalid) else
    var one := if password.Some? then WithPassword(s, u, password.value, false) else s;
    if name.Some? && !(1 <= |Strip(name.value)| <= 200) then Refuse(s, Invalid) else
    var two := WithName(one, u, name);
    if email.Some? && !IdentityOk(cfg, s.users[u].username, Address(email.value), two.users[u].name)
      then Refuse(s, Invalid) else
    if email.Some? && EmailTaken(s, Address(email.value), u) then Refuse(s, Invalid) else
    Answer(WithEmail(two, u, email), Done)
  }

  function InitiatePasswordReset(s: Accounts, u: Id, temp: string): Answer {
    if u !in s.users then Refuse(s, NotFound) else Answer(WithPassword(s, u, temp, true), Done)
  }

  function CompletePasswordReset(s: Accounts, now: Time, t: Id, password: string): Answer {
    if !Acceptable(password) then Refuse(s, Invalid) else
    if t !in s.resets || s.resets[t].used || s.resets[t].expires <= now then Refuse(s, Credentials) else
    if s.resets[t].user !in s.users then Refuse(s, Credentials) else
    Answer(
      WithPassword(s, s.resets[t].user, password, false).(resets := s.resets[t := s.resets[t].(used := true)]),
      Done)
  }

  /** Administrators are never reset this way, and nobody is while email is not set up. */
  function RequestPasswordReset(s: Accounts, found: Option<Id>, temp: string, emailEnabled: bool): Answer {
    if found.Some? && found.value in s.users && s.users[found.value].admin then Answer(s, Told(ContactMaintainer)) else
    if !emailEnabled then Answer(s, Told(EmailUnavailable)) else
    if found.Some? && found.value in s.users && !s.users[found.value].disabled
    then Answer(WithPassword(s, found.value, temp, true), Told(EmailSent))
    else Answer(s, Told(EmailSent))
  }

  function ChangeOwnPassword(s: Accounts, u: Id, current: string, password: string, keep: Option<Token>): Answer {
    if u !in s.users then Refuse(s, NotFound) else
    if current != s.users[u].secret then Refuse(s, Credentials) else
    if !Acceptable(password) || password == s.users[u].secret then Refuse(s, Invalid) else
    Answer(s.(users := s.users[u := s.users[u].(secret := password, mustChange := false)],
              sessions := Revoke(s.sessions, u, keep)), Done)
  }

  /** Names and addresses are looked up in lower case. */
  predicate Known(s: Accounts, username: string, email: string) {
    exists v :: v in s.users && (Lower(s.users[v].username) == Lower(username) || Lower(s.users[v].email) == email)
  }

  function CreateUser(
    cfg: Config, s: Accounts, username: string, email: string, name: string, password: string, admin: bool): Answer
  {
    if !IdentityOk(cfg, username, email, name) || !Acceptable(password) then Refuse(s, Invalid) else
    if Known(s, Strip(username), Address(email)) then Refuse(s, Invalid) else
    Answer(s.(users := s.users[s.nextUser := User(Strip(username), Address(email), StripOr(name, username),
                                                  admin, false, password, 0, None, false)],
              nextUser := s.nextUser + 1), Done)
  }

  /** `footprint`: the user belongs to a project or authored something. */
  function DeleteUser(s: Accounts, actor: Id, u: Id, footprint: bool): Answer {
    if u == actor then Refuse(s, Invalid) else
    if u !in s.users then Refuse(s, NotFound) else
    if s.users[u].admin || footprint then Refuse(s, Invalid) else
    Answer(s.(users := s.users - {u},
              sessions := map k | k in s.sessions && s.sessions[k].user != u :: s.sessions[k],
              resets := map t | t in s.resets && s.resets[t].user != u && s.resets[t].createdBy != u :: s.resets[t]),
           Done)
  }

  // ------------------------------------------------------------------ the machine

  datatype Act =
    | SigningIn(found: Option<Id>, password: string)
    | SigningOut(k: Token)
    | SettingStatus(actor: Id, u: Id, disabled: bool)
    | Updating(u: Id, newName: Option<string>, newEmail: Option<string>, newPassword: Option<string>)
    | AdminReset(u: Id, temp: string)
    | UsingResetToken(t: Id, password: string)
    | Forgetting(found: Option<Id>, temp: string, emailEnabled: bool)
    | ChangingOwn(u: Id, current: string, password: string, keep: Option<Token>)
    | Creating(username: string, email: string, name: string, password: string, admin: bool)
    | Deleting(actor: Id, u: Id, footprint: bool)

  function Perform(cfg: Config, s: Accounts, now: Time, act: Act): Answer {
    match act
    case SigningIn(found, password) => SignIn(cfg, s, now, found, password)
    case SigningOut(k) => SignOut(s, k)
    case SettingStatus(actor, u, disabled) => SetUserStatus(s, actor, u, disabled)
    case Updating(u, name, email, password) => UpdateUser(cfg, s, u, name, email, password)
    case AdminReset(u, temp) => InitiatePasswordReset(s, u, temp)
    case UsingResetToken(t, password) => CompletePasswordReset(s, now, t, password)
    case Forgetting(found, temp, enabled) => RequestPasswordReset(s, found, temp, enabled)
    case ChangingOwn(u, current, password, keep) => ChangeOwnPassword(s, u, current, password, keep)
    case Creating(username, email, name, password, admin) => CreateUser(cfg, s, username, email, name, password, admin)
    case Deleting(actor, u, footprint) => DeleteUser(s, actor, u, footprint)
  }

  type History = seq<(Time, Act)>

  function After(cfg: Config, s: Accounts, acts: History): Accounts
    decreases |acts|
  {
    if acts == [] then s
    else
      var last := acts[|acts| - 1];
      Perform(cfg, After(cfg, s, acts[..|acts| - 1]), last.0, last.1).after
  }

  lemma {:induction false} AfterAppend(cfg: Config, s: Accounts, a: History, b: History)
    ensures After(cfg, s, a + b) == After(cfg, After(cfg, s, a), b)
    decreases |b|
  {
    if b == [] {
      assert a + b == a;
    } else {
      assert (a + b)[..|a + b| - 1] == a + b[..|b| - 1];
      AfterAppend(cfg, s, a, b[..|b| - 1]);
    }
  }

  /** Any accounts nobody has signed in to yet. */
  ghost predicate Start(s: Accounts) {
    && s.sessions == map[]
    && (forall u :: u in s.users ==> s.users[u].failed == 0 && u < s.nextUser)
  }

  predicate LiveSession(s: Accounts, k: Token) {
    k in s.sessions && !s.sessions[k].revoked
  }

  // ------------------------------------------------------------------ signing in

  /** Sign-in opens a session for exactly the right password of an active, unlocked account,
      and every other attempt gets one and the same refusal. */
  lemma SignInExactly(cfg: Config, s: Accounts, now: Time, found: Option<Id>, password: string)
    ensures var r := SignIn(cfg, s, now, found, password);
      && (r.reply.Opened? <==>
            found.Some? && found.value in s.users && !s.users[found.value].disabled
            && !Locked(s.users[found.value], now) && password == s.users[found.value].secret)
      && (!r.reply.Opened? ==> r.reply == Refused(Credentials) && r.after.sessions == s.sessions)
      && (r.reply.Opened? && s.nextToken !in s.sessions && cfg.ttl > 0 ==>
            ResolveSession(s, now, r.reply.token) == None
            && ResolveSession(r.after, now, r.reply.token) == found)
  {}

  // ------------------------------------------------------------------ what the longer operations do

  ghost predicate UpdatedTo(s: Accounts, u: Id, password: Option<string>, after: Accounts)
    requires u in s.users && u in after.users
  {
    var kept := if password.None? then s.users[u]
                else s.users[u].(secret := password.value, mustChange := false, failed := 0, lockedUntil := None);
    var row := kept.(name := after.users[u].name, email := after.users[u].email);
    after == s.(users := s.users[u := row],
                sessions := if password.None? then s.sessions else Revoke(s.sessions, u, None))
  }

  ghost predicate CreatedIn(s: Accounts, after: Accounts) {
    && s.nextUser in after.users
    && var row := after.users[s.nextUser];
       !row.disabled && row.failed == 0 && row.lockedUntil.None?
       && after == s.(users := s.users[s.nextUser := row], nextUser := s.nextUser + 1)
  }

  /** An update is refused whole, or changes one row: the profile, and with a password the
      counters and the sessions too. */
  lemma UpdateShape(
    cfg: Config, s: Accounts, u: Id, name: Option<string>, email: Option<string>, password: Option<string>)
    ensures var r := UpdateUser(cfg, s, u, name, email, password);
      if r.reply != Done then r.reply.Refused? && r.after == s
      else u in s.users && u in r.after.users && UpdatedTo(s, u, password, r.after)
  {
    hide Acceptable, IdentityOk, EmailTaken, Address, Strip, Revoke;
  }

  /** A new account takes the next id, active and with nothing counted against it. */
  lemma CreateShape(
    cfg: Config, s: Accounts, username: string, email: string, name: string, password: string, admin: bool)
    ensures var r := CreateUser(cfg, s, username, email, name, password, admin);
      if r.reply != Done then r.reply.Refused? && r.after == s else CreatedIn(s, r.after)
  {
    hide Acceptable, IdentityOk, Known, Address, Strip, StripOr;
  }

  /** Both, for an act that is one of them. */
  lemma LongerShapes(cfg: Config, s: Accounts, act: Act)
    ensures act.Updating? ==>
              var r := UpdateUser(cfg, s, act.u, act.newName, act.newEmail, act.newPassword);
              if r.reply != Done then r.reply.Refused? && r.after == s
              else
                && act.u in s.users && act.u in r.after.users
                && UpdatedTo(s, act.u, act.newPassword, r.after)
    ensures act.Creating? ==>
              var r := CreateUser(cfg, s, act.username, act.email, act.name, act.password, act.admin);
              if r.reply != Done then r.reply.Refused? && r.after == s else CreatedIn(s, r.after)
  {
    hide UpdateUser, CreateUser;
    if act.Updating? { UpdateShape(cfg, s, act.u, act.newName, act.newEmail, act.newPassword); }
    if act.Creating? { CreateShape(cfg, s, act.username, act.email, act.name, act.password, act.admin); }
  }

  // ------------------------------------------------------------------ sessions

  /** Tokens come from the supply, and a live session has an account that is not disabled. */
  ghost predicate SessionsOk(s: Accounts) {
    && (forall k :: k in s.sessions ==> k < s.nextToken)
    && (forall k :: LiveSession(s, k) ==> s.sessions[k].user in s.users && !s.users[s.sessions[k].user].disabled)
    && (forall u :: u in s.users ==> u < s.nextUser)
  }

  lemma StepKeepsSessions(cfg: Config, s: Accounts, now: Time, act: Act)
    requires SessionsOk(s)
    ensures SessionsOk(Perform(cfg, s, now, act).after)
  {
    LongerShapes(cfg, s, act);
    hide UpdateUser, CreateUser, Acceptable;
  }

  lemma {:induction false} RunKeepsSessions(cfg: Config, s: Accounts, acts: History)
    requires SessionsOk(s)
    ensures SessionsOk(After(cfg, s, acts))
    decreases |acts|
  {
    if acts == [] {
    } else {
      hide SessionsOk, Perform;
      var last := acts[|acts| - 1];
      RunKeepsSessions(cfg, s, acts[..|acts| - 1]);
      StepKeepsSessions(cfg, After(cfg, s, acts[..|acts| - 1]), last.0, last.1);
    }
  }

  /** The account whose password an act sets. */
  function PasswordSetFor(cfg: Config, s: Accounts, now: Time, act: Act): Option<Id> {
    if Perform(cfg, s, now, act).reply.Refused? then None
    else match act
      case Updating(u, _, _, password) => if password.Some? then Some(u) else None
      case AdminReset(u, _) => Some(u)
      case UsingResetToken(t, _) => if t in s.resets then Some(s.resets[t].user) else None
      case Forgetting(found, _, enabled) =>
        if found.Some? && found.value in s.users && enabled && !s.users[found.value].admin
           && !s.users[found.value].disabled then found else None
      case ChangingOwn(u, _, _, _) => Some(u)
      case _ => None
  }

  /** No other act writes a stored password. */
  lemma OnlyThosePasswordsChange(cfg: Config, s: Accounts, now: Time, act: Act, u: Id)
    requires u in s.users && u in Perform(cfg, s, now, act).after.users && s.nextUser !in s.users
    ensures Perform(cfg, s, now, act).after.users[u].secret != s.users[u].secret ==>
              PasswordSetFor(cfg, s, now, act) == Some(u)
  {
    LongerShapes(cfg, s, act);
    hide UpdateUser, CreateUser, Acceptable;
  }

  /** A session live after a step was opened by it, or was live before, for the same account;
      and if the step set that account's password it was the change that kept this session. */
  lemma LiveBefore(cfg: Config, s: Accounts, now: Time, act: Act, k: Token)
    requires LiveSession(Perform(cfg, s, now, act).after, k)
    requires Perform(cfg, s, now, act).reply != Opened(k)
    ensures LiveSession(s, k) && Perform(cfg, s, now, act).after.sessions[k] == s.sessions[k]
    ensures PasswordSetFor(cfg, s, now, act) == Some(s.sessions[k].user) ==>
              act.ChangingOwn? && act.keep == Some(k)
  {
    LongerShapes(cfg, s, act);
    hide UpdateUser, CreateUser, Acceptable;
  }

  predicate OpenedAt(cfg: Config, s: Accounts, acts: History, i: nat, k: Token, u: Id)
    requires i < |acts|
  {
    var before := After(cfg, s, acts[..i]);
    acts[i].1.SigningIn? && acts[i].1.found == Some(u)
    && Perform(cfg, before, acts[i].0, acts[i].1).reply == Opened(k)
  }

  /** The act at j did not set u's password, or was u's own change made from session k. */
  predicate Spares(cfg: Config, s: Accounts, acts: History, j: nat, k: Token, u: Id)
    requires j < |acts|
  {
    PasswordSetFor(cfg, After(cfg, s, acts[..j]), acts[j].0, acts[j].1) == Some(u) ==>
      acts[j].1.ChangingOwn? && acts[j].1.keep == Some(k)
  }

  lemma {:induction false} LiveHistory(cfg: Config, s: Accounts, acts: History, k: Token) returns (i: nat)
    requires s.sessions == map[] && LiveSession(After(cfg, s, acts), k)
    ensures i < |acts|
    ensures var u := After(cfg, s, acts).sessions[k].user;
      OpenedAt(cfg, s, acts, i, k, u) && forall j :: i < j < |acts| ==> Spares(cfg, s, acts, j, k, u)
    decreases |acts|
  {
    hide Perform, PasswordSetFor;
    var n := |acts| - 1;
    var before := After(cfg, s, acts[..n]);
    var u := After(cfg, s, acts).sessions[k].user;
    if Perform(cfg, before, acts[n].0, acts[n].1).reply == Opened(k) {
      i := n;
      OpenedFor(cfg, before, acts[n].0, acts[n].1, k);
    } else {
      LiveBefore(cfg, before, acts[n].0, acts[n].1, k);
      i := LiveHistory(cfg, s, acts[..n], k);
      assert acts[..n][..i] == acts[..i];
      forall j | i < j < |acts| ensures Spares(cfg, s, acts, j, k, u) {
        if j < n {
          assert acts[..n][..j] == acts[..j];
          assert Spares(cfg, s, acts[..n], j, k, u);
        }
      }
    }
  }

  lemma OpenedFor(cfg: Config, s: Accounts, now: Time, act: Act, k: Token)
    requires Perform(cfg, s, now, act).reply == Opened(k)
    ensures act.SigningIn? && k in Perform(cfg, s, now, act).after.sessions
    ensures act.found == Some(Perform(cfg, s, now, act).after.sessions[k].user)
  {
    LongerShapes(cfg, s, act);
    hide UpdateUser, CreateUser, Acceptable;
  }

  /** Every session that resolves was opened by its account's sign-in, and every password set
      for that account since was the account's own change, made from this very session. */
  lemma ResolvingSessionsAreCurrent(cfg: Config, s: Accounts, acts: History, now: Time, k: Token)
    requires s.sessions == map[] && ResolveSession(After(cfg, s, acts), now, k).Some?
    ensures var u := ResolveSession(After(cfg, s, acts), now, k).value;
      exists i: nat :: i < |acts| && OpenedAt(cfg, s, acts, i, k, u)
                       && forall j :: i < j < |acts| ==> Spares(cfg, s, acts, j, k, u)
  {
    hide After, OpenedAt, Spares;
    var i := LiveHistory(cfg, s, acts, k);
  }

  /** A token that was issued and does not resolve never resolves again: not a revoked or
      expired session, nor one whose account was disabled or deleted and restored. */
  lemma DeadSessionsStayDead(
    cfg: Config, s: Accounts, acts: History, more: History, now: Time, later: Time, k: Token)
    requires Start(s) && now <= later
    requires k < After(cfg, s, acts).nextToken && ResolveSession(After(cfg, s, acts), now, k).None?
    ensures ResolveSession(After(cfg, s, acts + more), later, k).None?
  {
    hide After, Perform;
    AfterAppend(cfg, s, acts, more);
    RunKeepsSessions(cfg, s, acts);
    StaysDead(cfg, After(cfg, s, acts), more, now, k);
  }

  /** Revoked, gone or past its expiry. */
  predicate Dead(s: Accounts, now: Time, k: Token) {
    k < s.nextToken && (LiveSession(s, k) ==> s.sessions[k].expires <= now)
  }

  lemma {:induction false} StaysDead(cfg: Config, s: Accounts, more: History, now: Time, k: Token)
    requires SessionsOk(s) && k < s.nextToken && ResolveSession(s, now, k).None?
    ensures Dead(After(cfg, s, more), now, k)
    decreases |more|
  {
    hide Perform;
    if more == [] {
    } else {
      var m := |more| - 1;
      StaysDead(cfg, s, more[..m], now, k);
      DeadStep(cfg, After(cfg, s, more[..m]), more[m].0, more[m].1, now, k);
    }
  }

  lemma DeadStep(cfg: Config, s: Accounts, at: Time, act: Act, now: Time, k: Token)
    requires Dead(s, now, k)
    ensures Dead(Perform(cfg, s, at, act).after, now, k)
  {
    LongerShapes(cfg, s, act);
    hide UpdateUser, CreateUser, Acceptable;
  }

  // ------------------------------------------------------------------ lockout

  function Threshold(cfg: Config): (t: nat)
    ensures t >= 1 && t >= cfg.threshold
  {
    if cfg.threshold < 1 then 1 else cfg.threshold
  }

  ghost predicate CountsOk(cfg: Config, s: Accounts) {
    forall u :: u in s.users ==> s.users[u].failed < Threshold(cfg) && u < s.nextUser
  }

  lemma {:induction false} FailuresStayBelowThreshold(cfg: Config, s: Accounts, acts: History)
    requires CountsOk(cfg, s)
    ensures CountsOk(cfg, After(cfg, s, acts))
    decreases |acts|
  {
    if acts == [] {
    } else {
      var last := acts[|acts| - 1];
      FailuresStayBelowThreshold(cfg, s, acts[..|acts| - 1]);
      var before := After(cfg, s, acts[..|acts| - 1]);
      CountsStep(cfg, before, last.0, last.1);
    }
  }

  lemma CountsStep(cfg: Config, s: Accounts, now: Time, act: Act)
    requires CountsOk(cfg, s)
    ensures CountsOk(cfg, Perform(cfg, s, now, act).after)
  {
    LongerShapes(cfg, s, act);
    hide UpdateUser, CreateUser, Acceptable;
  }

  /** The act made the sign-in compare a password for u, and it was wrong. */
  predicate WrongCheck(s: Accounts, now: Time, act: Act, u: Id) {
    && act.SigningIn? && act.found == Some(u) && u in s.users
    && !s.users[u].disabled && !Locked(s.users[u], now) && act.password != s.users[u].secret
  }

  /** A sign-in of u, or a password set that resets the counter. */
  predicate Clears(cfg: Config, s: Accounts, now: Time, act: Act, u: Id) {
    || (act.SigningIn? && act.found == Some(u) && Perform(cfg, s, now, act).reply.Opened?)
    || (!act.ChangingOwn? && PasswordSetFor(cfg, s, now, act) == Some(u))
  }

  /** How many of the acts made u's password be checked and found wrong. */
  function WrongChecks(cfg: Config, s: Accounts, acts: History, u: Id): nat
    decreases |acts|
  {
    if acts == [] then 0
    else
      (if WrongCheck(s, acts[0].0, acts[0].1, u) then 1 else 0)
      + WrongChecks(cfg, Perform(cfg, s, acts[0].0, acts[0].1).after, acts[1..], u)
  }

  ghost predicate NothingClears(cfg: Config, s: Accounts, acts: History, u: Id)
    decreases |acts|
  {
    acts != [] ==>
      && !Clears(cfg, s, acts[0].0, acts[0].1, u)
      && NothingClears(cfg, Perform(cfg, s, acts[0].0, acts[0].1).after, acts[1..], u)
  }

  /** All of the acts fall within [from, from + lockout). */
  predicate Within(acts: History, from: Time, lockout: nat) {
    forall i :: 0 <= i < |acts| ==> from <= acts[i].0 < from + lockout
  }

  /** The wrong checks u's account still admits before `until`. */
  function Allowance(cfg: Config, s: Accounts, u: Id, until: Time): nat {
    if u !in s.users then (if u < s.nextUser then 0 else Threshold(cfg))
    else if s.users[u].lockedUntil.Some? && s.users[u].lockedUntil.value >= until then 0
    else if s.users[u].failed >= Threshold(cfg) then 1
    else Threshold(cfg) - s.users[u].failed
  }

  lemma AllowanceStep(cfg: Config, s: Accounts, now: Time, act: Act, u: Id, until: Time)
    requires now < until <= now + cfg.lockout && !Clears(cfg, s, now, act, u) && CountsOk(cfg, s)
    ensures Allowance(cfg, Perform(cfg, s, now, act).after, u, until)
            + (if WrongCheck(s, now, act, u) then 1 else 0) <= Allowance(cfg, s, u, until)
  {
    LongerShapes(cfg, s, act);
    hide UpdateUser, CreateUser, Acceptable;
  }

  lemma {:induction false} ChecksWithinAllowance(cfg: Config, s: Accounts, acts: History, u: Id, from: Time)
    requires Within(acts, from, cfg.lockout) && NothingClears(cfg, s, acts, u) && CountsOk(cfg, s)
    ensures WrongChecks(cfg, s, acts, u) <= Allowance(cfg, s, u, from + cfg.lockout)
    decreases |acts|
  {
    if acts == [] {
    } else {
      hide Perform, Clears, WrongCheck, Allowance, CountsOk;
      var now, act := acts[0].0, acts[0].1;
      AllowanceStep(cfg, s, now, act, u, from + cfg.lockout);
      CountsStep(cfg, s, now, act);
      assert Within(acts[1..], from, cfg.lockout);
      ChecksWithinAllowance(cfg, Perform(cfg, s, now, act).after, acts[1..], u, from);
    }
  }

  /** In any stretch of any run that is shorter than the lockout, and in which the account
      neither signs in nor is reset, at most `threshold` wrong passwords are checked. */
  lemma AtMostThresholdChecks(cfg: Config, s: Accounts, acts: History, stretch: History, u: Id, from: Time)
    requires CountsOk(cfg, s)
    requires Within(stretch, from, cfg.lockout) && NothingClears(cfg, After(cfg, s, acts), stretch, u)
    ensures WrongChecks(cfg, After(cfg, s, acts), stretch, u) <= Threshold(cfg)
  {
    hide After, WrongChecks, NothingClears;
    FailuresStayBelowThreshold(cfg, s, acts);
    ChecksWithinAllowance(cfg, After(cfg, s, acts), stretch, u, from);
  }

  ghost predicate Guess(s: Accounts, u: Id, at: Time, act: Act)
    requires u in s.users
  {
    act.SigningIn? && act.found == Some(u) && act.password != s.users[u].secret && !Locked(s.users[u], at)
  }

  /** The bound is met: as many wrong guesses as are left lock the account, from the last
      one, for the whole lockout; and fewer only count. */
  lemma {:induction false} GuessesLock(cfg: Config, s: Accounts, acts: History, u: Id)
    requires u in s.users && !s.users[u].disabled && s.users[u].failed < Threshold(cfg)
    requires forall i :: 0 <= i < |acts| ==> Guess(s, u, acts[i].0, acts[i].1)
    requires |acts| <= Threshold(cfg) - s.users[u].failed
    ensures var user := s.users[u];
      After(cfg, s, acts) == s.(users := s.users[u :=
        if |acts| < Threshold(cfg) - user.failed then user.(failed := user.failed + |acts|)
        else user.(failed := 0, lockedUntil := Some(acts[|acts| - 1].0 + cfg.lockout))])
    decreases |acts|
  {
    if acts == [] {
      assert s.users[u := s.users[u]] == s.users;
    } else {
      GuessesLock(cfg, s, acts[..|acts| - 1], u);
      assert Guess(s, u, acts[|acts| - 1].0, acts[|acts| - 1].1);
    }
  }

  // ------------------------------------------------------------------ addresses and resets

  /** Addresses are stored in lower case, and no two accounts share one. */
  ghost predicate EmailsOk(s: Accounts) {
    && (forall u :: u in s.users ==> Lower(s.users[u].email) == s.users[u].email)
    && (forall u, v :: u in s.users && v in s.users && s.users[u].email == s.users[v].email ==> u == v)
  }

  lemma AddressIsLower(email: string)
    ensures Lower(Address(email)) == Address(email)
  {
    hide Strip;
  }

  lemma UpdateKeepsEmails(
    cfg: Config, s: Accounts, u: Id, name: Option<string>, email: Option<string>, password: Option<string>)
    requires EmailsOk(s)
    ensures EmailsOk(UpdateUser(cfg, s, u, name, email, password).after)
  {
    var r := UpdateUser(cfg, s, u, name, email, password);
    UpdateShape(cfg, s, u, name, email, password);
    if r.reply == Done {
      UpdatedEmail(cfg, s, u, name, email, password);
      if email.Some? { AddressIsLower(email.value); }
    }
    hide UpdateUser, Address, Lower, Revoke;
  }

  /** An address that was set is nobody else's. */
  lemma UpdatedEmail(
    cfg: Config, s: Accounts, u: Id, name: Option<string>, email: Option<string>, password: Option<string>)
    requires UpdateUser(cfg, s, u, name, email, password).reply == Done && u in s.users
    ensures var after := UpdateUser(cfg, s, u, name, email, password).after;
      && u in after.users
      && after.users[u].email == (if email.Some? then Address(email.value) else s.users[u].email)
      && (email.Some? ==> !EmailTaken(s, Address(email.value), u))
  {
    hide Acceptable, IdentityOk, EmailTaken, Address, Strip, Revoke;
  }

  lemma CreateKeepsEmails(
    cfg: Config, s: Accounts, username: string, email: string, name: string, password: string, admin: bool)
    requires EmailsOk(s)
    ensures EmailsOk(CreateUser(cfg, s, username, email, name, password, admin).after)
  {
    AddressIsLower(email);
    hide Acceptable, IdentityOk, Strip, StripOr, Address, Lower;
  }

  /** Whether an address is taken by another does not depend on one's own row. */
  lemma OwnRowNeverClashes(before: Accounts, after: Accounts, address: string, u: Id)
    requires after.users.Keys == before.users.Keys
    requires forall v :: v in before.users && v != u ==> after.users[v] == before.users[v]
    ensures EmailTaken(after, address, u) <==> EmailTaken(before, address, u)
  {
    hide Lower;
  }

  /** No address changes, and no account is new. */
  ghost predicate EmailsKept(before: map<Id, User>, after: map<Id, User>) {
    forall u :: u in after ==> u in before && after[u].email == before[u].email
  }

  lemma OthersKeepEmails(cfg: Config, s: Accounts, now: Time, act: Act)
    requires !act.Updating? && !act.Creating?
    ensures EmailsKept(s.users, Perform(cfg, s, now, act).after.users)
  {
    hide Acceptable, Locked, Revoke, UpdateUser, CreateUser;
  }

  lemma KeptEmailsOk(before: Accounts, after: Accounts)
    requires EmailsOk(before) && EmailsKept(before.users, after.users)
    ensures EmailsOk(after)
  {
    hide Lower;
  }

  /** Over every run no two accounts have the same address, however it is written. */
  lemma {:induction false} EmailsStayUnique(cfg: Config, s: Accounts, acts: History)
    requires EmailsOk(s)
    ensures EmailsOk(After(cfg, s, acts))
    decreases |acts|
  {
    hide EmailsOk, EmailsKept, UpdateUser, CreateUser;
    if acts == [] {
    } else {
      var now, act := acts[|acts| - 1].0, acts[|acts| - 1].1;
      var before := After(cfg, s, acts[..|acts| - 1]);
      EmailsStayUnique(cfg, s, acts[..|acts| - 1]);
      match act
      case Updating(u, name, email, password) => UpdateKeepsEmails(cfg, before, u, name, email, password);
      case Creating(username, email, name, password, admin) =>
        CreateKeepsEmails(cfg, before, username, email, name, password, admin);
      case _ =>
        OthersKeepEmails(cfg, before, now, act);
        KeptEmailsOk(before, Perform(cfg, before, now, act).after);
    }
  }

  /** What a request for a new password is told does not depend on whether an ordinary account
      was found, nor on what is in it; and it changes something only for an active ordinary
      account with email set up. */
  lemma ResetTellsNothing(s: Accounts, found: Option<Id>, temp: string, emailEnabled: bool)
    requires found.Some? && found.value in s.users ==> !s.users[found.value].admin
    ensures RequestPasswordReset(s, found, temp, emailEnabled).reply
         == RequestPasswordReset(s, None, temp, emailEnabled).reply
    ensures RequestPasswordReset(s, found, temp, emailEnabled).after != s ==>
              emailEnabled && found.Some? && found.value in s.users && !s.users[found.value].disabled
  {}

  // ------------------------------------------------------------------ temporary passwords

  /** _generate_temp_password: one character of each class and a body of twelve, shuffled,
      always meets the policy. */
  lemma TemporaryPasswordsAreAcceptable(
    upper: char, lower: char, digit: char, special: char, body: string, temp: string)
    requires IsUpper(upper) && IsLower(lower) && IsDigit(digit) && IsSpecial(special)
    requires |body| == 12 && multiset(temp) == multiset([upper, lower, digit, special] + body)
    ensures Acceptable(temp)
  {
    var made := [upper, lower, digit, special] + body;
    assert |temp| == |multiset(temp)| == |multiset(made)| == 16;
    assert upper == made[0] && lower == made[1] && digit == made[2] && special == made[3];
    forall c | c in made ensures c in temp {
      assert c in multiset(made);
      assert c in multiset(temp);
    }
  }
}
