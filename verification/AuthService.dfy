/** The account operations as the source writes them: statements that change user and session
    rows in place.  Each is proved against its function in Auth. */
module AuthService {
  import opened Common
  import opened Tables
  import A = Auth

  class Service {
    const cfg: A.Config
    var users: map<Id, A.User>
    var sessions: map<A.Token, A.Session>
    var resets: map<Id, A.Reset>
    var nextUser: Id
    var nextToken: A.Token

    constructor (cfg: A.Config, s: A.Accounts)
      ensures this.cfg == cfg && State() == s
    {
      this.cfg := cfg;
      users, sessions, resets, nextUser, nextToken := s.users, s.sessions, s.resets, s.nextUser, s.nextToken;
    }

    function State(): A.Accounts
      reads this
    {
      A.Accounts(users, sessions, resets, nextUser, nextToken)
    }

    /** The answer a function prescribes is the state and the reply the method leaves. */
    ghost predicate Gives(answer: A.Answer, reply: A.Reply)
      reads this
    {
      answer == A.Answer(State(), reply)
    }

    /** No session of the account is live. */
    ghost predicate SignedOut(u: Id)
      reads this
    {
      forall k :: k in sessions && sessions[k].user == u ==> sessions[k].revoked
    }

    method Authenticate(now: Time, found: Option<Id>, password: string) returns (reply: A.Reply)
      modifies this
      ensures Gives(A.SignIn(cfg, old(State()), now, found, password), reply)
      ensures reply.Opened? ==> found.Some? && reply.token in sessions && sessions[reply.token].user == found.value
    {
      if found.None? || found.value !in users { return A.Refused(Credentials); }
      var u := found.value;
      var user := users[u];
      if user.disabled { return A.Refused(Credentials); }
      if user.lockedUntil.Some? && user.lockedUntil.value > now { return A.Refused(Credentials); }
      if password != user.secret {
        user := user.(failed := user.failed + 1);
        if user.failed >= cfg.threshold {
          user := user.(lockedUntil := Some(now + cfg.lockout));
          user := user.(failed := 0);
        }
        users := users[u := user];
        return A.Refused(Credentials);
      }
      user := user.(failed := 0);
      user := user.(lockedUntil := None);
      users := users[u := user];
      var token := nextToken;
      nextToken := nextToken + 1;
      sessions := sessions[token := A.Session(u, now + cfg.ttl, false)];
      return A.Opened(token);
    }

    method ResolveSession(now: Time, k: A.Token) returns (actor: Option<Id>)
      ensures actor == A.ResolveSession(State(), now, k)
    {
      if k !in sessions { return None; }
      var us := sessions[k];
      if us.revoked { return None; }
      if us.expires <= now { return None; }
      if us.user !in users { return None; }
      if users[us.user].disabled { return None; }
      return Some(us.user);
    }

    method Logout(k: A.Token) returns (reply: A.Reply)
      modifies this
      ensures Gives(A.SignOut(old(State()), k), reply)
      ensures forall now :: A.ResolveSession(State(), now, k).None?
    {
      if k in sessions {
        var us := sessions[k];
        if !us.revoked {
          us := us.(revoked := true);
          sessions := sessions[k := us];
        }
      }
      return A.Done;
    }

    /** The bulk update every password change ends with. */
    method RevokeSessions(u: Id, keep: Option<A.Token>)
      modifies this`sessions
      ensures sessions == A.Revoke(old(sessions), u, keep)
      ensures forall k :: k in sessions && sessions[k].user == u && !sessions[k].revoked ==> keep == Some(k)
    {
      // a session revoked before keeps its mark
      sessions := map k | k in sessions ::
        if sessions[k].user == u && !sessions[k].revoked && (keep.None? || k != keep.value)
        then sessions[k].(revoked := true)
        else sessions[k];
    }

    method SetUserStatus(actor: Id, u: Id, disabled: bool) returns (reply: A.Reply)
      modifies this
      ensures Gives(A.SetUserStatus(old(State()), actor, u, disabled), reply)
      ensures reply == A.Done && disabled ==> SignedOut(u)
    {
      if u !in users { return A.Refused(NotFound); }
      if disabled && u == actor { return A.Refused(Invalid); }
      users := users[u := users[u].(disabled := disabled)];
      if disabled { RevokeSessions(u, None); }
      return A.Done;
    }

    method ResetPassword(u: Id, password: string, mustChange: bool)
      requires u in users
      modifies this`users, this`sessions
      ensures State() == A.WithPassword(old(State()), u, password, mustChange)
      ensures SignedOut(u)
    {
      var user := users[u];
      user := user.(secret := password);
      user := user.(mustChange := mustChange);
      user := user.(failed := 0);
      user := user.(lockedUntil := None);
      users := users[u := user];
      RevokeSessions(u, None);
    }

    method UpdateUser(u: Id, name: Option<string>, email: Option<string>, password: Option<string>)
      returns (reply: A.Reply)
      modifies this
      ensures Gives(A.UpdateUser(cfg, old(State()), u, name, email, password), reply)
      ensures reply == A.Done && password.Some? ==> SignedOut(u)
    {
      hide A.Acceptable, A.IdentityOk, A.Address, Strip, A.Lower;
      ghost var was := State();
      var savedUsers, savedSessions := users, sessions;
      if u !in users { return A.Refused(NotFound); }
      if password.Some? {
        if !A.Acceptable(password.value) { return A.Refused(Invalid); }
        ResetPassword(u, password.value, false);
      }
      if name.Some? {
        var display := Strip(name.value);
        if !(1 <= |display| <= 200) {
          users, sessions := savedUsers, savedSessions;
          return A.Refused(Invalid);
        }
        users := users[u := users[u].(name := display)];
      }
      if email.Some? {
        var address := A.Address(email.value);
        if !A.IdentityOk(cfg, users[u].username, address, users[u].name) {
          users, sessions := savedUsers, savedSessions;
          return A.Refused(Invalid);
        }
        A.OwnRowNeverClashes(was, State(), address, u);
        if A.EmailTaken(State(), address, u) {
          users, sessions := savedUsers, savedSessions;
          return A.Refused(Invalid);
        }
        users := users[u := users[u].(email := address)];
      }
      return A.Done;
    }

    method InitiatePasswordReset(u: Id, temp: string) returns (reply: A.Reply)
      modifies this
      ensures Gives(A.InitiatePasswordReset(old(State()), u, temp), reply)
      ensures reply == A.Done ==> SignedOut(u) && u in users && users[u].mustChange
    {
      if u !in users { return A.Refused(NotFound); }
      ResetPassword(u, temp, true);
      return A.Done;
    }

    method CompletePasswordReset(now: Time, t: Id, password: string) returns (reply: A.Reply)
      modifies this
      ensures Gives(A.CompletePasswordReset(old(State()), now, t, password), reply)
      ensures reply == A.Done ==> t in resets && resets[t].used && SignedOut(resets[t].user)
    {
      if !A.Acceptable(password) { return A.Refused(Invalid); }
      if t !in resets { return A.Refused(Credentials); }
      var prt := resets[t];
      if prt.used || prt.expires <= now { return A.Refused(Credentials); }
      if prt.user !in users { return A.Refused(Credentials); }
      ResetPassword(prt.user, password, false);
      prt := prt.(used := true);
      resets := resets[t := prt];
      return A.Done;
    }

    method RequestPasswordReset(found: Option<Id>, temp: string, emailEnabled: bool) returns (reply: A.Reply)
      modifies this
      ensures Gives(A.RequestPasswordReset(old(State()), found, temp, emailEnabled), reply)
      ensures reply == A.Told(A.EmailSent) && found.Some? && found.value in users && !users[found.value].disabled ==>
                users[found.value].mustChange && SignedOut(found.value)
    {
      if found.Some? && found.value in users && users[found.value].admin { return A.Told(A.ContactMaintainer); }
      if !emailEnabled { return A.Told(A.EmailUnavailable); }
      if found.Some? && found.value in users && !users[found.value].disabled {
        ResetPassword(found.value, temp, true);
      }
      return A.Told(A.EmailSent);
    }

    method ChangeOwnPassword(u: Id, current: string, password: string, keep: Option<A.Token>) returns (reply: A.Reply)
      modifies this
      ensures Gives(A.ChangeOwnPassword(old(State()), u, current, password, keep), reply)
      ensures reply == A.Done ==>
                forall k :: k in sessions && sessions[k].user == u && !sessions[k].revoked ==> keep == Some(k)
    {
      if u !in users { return A.Refused(NotFound); }
      var user := users[u];
      if current != user.secret { return A.Refused(Credentials); }
      if !A.Acceptable(password) { return A.Refused(Invalid); }
      if password == user.secret { return A.Refused(Invalid); }
      user := user.(secret := password);
      user := user.(mustChange := false);
      users := users[u := user];
      RevokeSessions(u, keep);
      return A.Done;
    }

    method DeleteUser(actor: Id, u: Id, footprint: bool) returns (reply: A.Reply)
      modifies this
      ensures Gives(A.DeleteUser(old(State()), actor, u, footprint), reply)
      ensures reply == A.Done ==> SignedOut(u)
    {
      if u == actor { return A.Refused(Invalid); }
      if u !in users { return A.Refused(NotFound); }
      if users[u].admin { return A.Refused(Invalid); }
      if footprint { return A.Refused(Invalid); }
      sessions := map k | k in sessions && sessions[k].user != u :: sessions[k];
      resets := map t | t in resets && resets[t].user != u && resets[t].createdBy != u :: resets[t];
      users := users - {u};
      return A.Done;
    }
  }
}
