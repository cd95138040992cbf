/**
  Login sessions (src/lib/auth.ts): creation with a lazy purge of expired rows, validation,
  logout, and deletion of a user with all of their sessions.
 */
module AuthSessions {

  const SESSION_DURATION := 7 * 24 * 60 * 60

  datatype Session = Session(user: nat, expiresAt: int)

  datatype State = State(now: int, lastUser: nat, users: set<nat>, sessions: map<string, Session>, issued: set<string>)

  datatype Event =
    | AddUser
    | Create(token: string, user: nat, now: int)
    | Destroy(token: string)
    | DestroyAll(user: nat)
    | DeleteUser(user: nat)

  const EMPTY := State(0, 0, {}, map[], {})

  /** Tokens are fresh random strings, the clock does not run backwards, and the user must exist. */
  predicate CanCreate(s: State, token: string, user: nat, now: int) {
    token != "" && token !in s.issued && s.now <= now && user in s.users
  }

  function Purge(sessions: map<string, Session>, now: int): map<string, Session> {
    map t | t in sessions && now <= sessions[t].expiresAt :: sessions[t]
  }

  function Without(sessions: map<string, Session>, user: nat): map<string, Session> {
    map t | t in sessions && sessions[t].user != user :: sessions[t]
  }

  function Step(s: State, e: Event): State {
    match e
    case AddUser => s.(lastUser := s.lastUser + 1, users := s.users + {s.lastUser + 1})
    case Create(token, user, now) =>
      if !CanCreate(s, token, user, now) then s
      else
        s.(now := now, issued := s.issued + {token},
           sessions := Purge(s.sessions[token := Session(user, now + SESSION_DURATION)], now))
    case Destroy(token) => s.(sessions := s.sessions - {token})
    case DestroyAll(user) => s.(sessions := Without(s.sessions, user))
    case DeleteUser(user) => s.(sessions := Without(s.sessions, user), users := s.users - {user})
  }

  function Run(es: seq<Event>): State {
    if es == [] then EMPTY else Step(Run(es[..|es| - 1]), es[|es| - 1])
  }

  /** validateSession at time t */
  predicate Validates(s: State, token: string, t: int) {
    token != "" && token in s.sessions && s.sessions[token].expiresAt > t && s.sessions[token].user in s.users
  }

  // ---- What the history says --------------------------------------------------

  /** Event i created the token. */
  predicate CreatedBy(es: seq<Event>, i: nat, token: string) {
    i < |es| && es[i].Create? && es[i].token == token && CanCreate(Run(es[..i]), token, es[i].user, es[i].now)
  }

  predicate Kills(e: Event, token: string, user: nat) {
    match e
    case Destroy(t) => t == token
    case DestroyAll(u) => u == user
    case DeleteUser(u) => u == user
    case _ => false
  }

  /** Created by event i and neither logged out nor deleted with its user since. */
  predicate AliveSince(es: seq<Event>, i: nat, token: string) {
    CreatedBy(es, i, token) && forall j | i < j < |es| :: !Kills(es[j], token, es[i].user)
  }

  function CreationTime(e: Event): int {
    if e.Create? then e.now else 0
  }

  predicate MatchesHistory(es: seq<Event>, i: nat, token: string) {
    var s := Run(es);
    AliveSince(es, i, token) ==>
      && es[i].Create? && token != "" && token in s.issued && es[i].user in s.users && es[i].now <= s.now
      && (s.now <= es[i].now + SESSION_DURATION ==> token in s.sessions)
      && (token in s.sessions ==> s.sessions[token] == Session(es[i].user, es[i].now + SESSION_DURATION))
  }

  ghost predicate Explained(es: seq<Event>, token: string) {
    token in Run(es).sessions ==> exists i :: 0 <= i < |es| && AliveSince(es, i, token)
  }

  lemma AliveBefore(es: seq<Event>, i: nat, token: string)
    requires AliveSince(es, i, token) && i < |es| - 1
    ensures AliveSince(es[..|es| - 1], i, token)
  {
    assert es[..|es| - 1][..i] == es[..i];
  }

  lemma {:induction false} HistoryForward(es: seq<Event>, i: nat, token: string)
    ensures MatchesHistory(es, i, token)
    decreases |es|
  {
    if AliveSince(es, i, token) {
      var n := |es| - 1;
      if i < n {
        AliveBefore(es, i, token);
        HistoryForward(es[..n], i, token);
      }
    }
  }

  lemma {:induction false} HistoryBackward(es: seq<Event>, token: string)
    ensures Explained(es, token)
    decreases |es|
  {
    if token in Run(es).sessions {
      var n := |es| - 1;
      var before := es[..n];
      if token in Run(before).sessions {
        HistoryBackward(before, token);
        var i :| 0 <= i < |before| && AliveSince(before, i, token);
        HistoryForward(before, i, token);
        assert before[..i] == es[..i] && !Kills(es[n], token, es[i].user);
        assert AliveSince(es, i, token);
      } else {
        assert CreatedBy(es, n, token) && AliveSince(es, n, token);
      }
    }
  }

  /**
    In every run, a token validates at a time not before the last step exactly when some step
    created it less than seven days ago and no later step logged it out or deleted its user:
    when, or whether, expired rows were purged cannot be seen.
   */
  lemma ValidatesExactly(es: seq<Event>, token: string, t: int)
    requires Run(es).now <= t
    ensures Validates(Run(es), token, t)
       <==> exists i :: 0 <= i < |es| && AliveSince(es, i, token) && t - CreationTime(es[i]) < 604800
  {
    hide Run, AliveSince;
    if Validates(Run(es), token, t) {
      HistoryBackward(es, token);
      var i :| 0 <= i < |es| && AliveSince(es, i, token);
      HistoryForward(es, i, token);
    }
    if i :| 0 <= i < |es| && AliveSince(es, i, token) && t - CreationTime(es[i]) < 604800 {
      HistoryForward(es, i, token);
    }
  }

  // ---- Users ------------------------------------------------------------------

  predicate Numbered(s: State) {
    && (forall u | u in s.users :: u <= s.lastUser)
    && forall t | t in s.sessions :: s.sessions[t].user in s.users
  }

  lemma NumberedStep(s: State, e: Event)
    requires Numbered(s)
    ensures Numbered(Step(s, e))
  {
  }

  lemma {:induction false} UsersNumbered(es: seq<Event>)
    ensures Numbered(Run(es))
  {
    if es != [] {
      UsersNumbered(es[..|es| - 1]);
      NumberedStep(Run(es[..|es| - 1]), es[|es| - 1]);
    }
  }

  /** A deleted user never has a session again, because ids are not given out twice. */
  lemma {:induction false} DeletedForever(es: seq<Event>, i: nat, user: nat)
    requires i < |es| && es[i] == DeleteUser(user) && user in Run(es[..i]).users
    ensures var s := Run(es);
            && user !in s.users && user <= s.lastUser
            && (forall t | t in s.sessions :: s.sessions[t].user != user)
    decreases |es|
  {
    var n := |es| - 1;
    UsersNumbered(es[..n]);
    UsersNumbered(es);
    if i < n {
      assert es[..n][..i] == es[..i];
      DeletedForever(es[..n], i, user);
    }
  }

  lemma RunAppend(es: seq<Event>, e: Event)
    ensures Run(es + [e]) == Step(Run(es), e)
  {
    assert (es + [e])[..|es|] == es;
  }

  /** A new user can log in at once, and that session lasts exactly seven days if nothing ends it. */
  lemma NewUserLogsIn(es: seq<Event>, token: string, now: int, t: int)
    requires token != "" && token !in Run(es).issued && Run(es).now <= now
    ensures var user := Run(es).lastUser + 1;
            var s := Run(es + [AddUser] + [Create(token, user, now)]);
            && user in s.users && (Validates(s, token, t) <==> t < now + 7 * 24 * 60 * 60)
            && token in s.sessions && s.sessions[token].user == user
            && !Validates(Step(s, Destroy(token)), token, t) && !Validates(Step(s, DeleteUser(user)), token, t)
  {
    hide Run;
    var user := Run(es).lastUser + 1;
    RunAppend(es, AddUser);
    RunAppend(es + [AddUser], Create(token, user, now));
  }

  // ---- The tables, updated in place -------------------------------------------

  class SessionStore {
    var now: int
    var lastUser: nat
    var users: set<nat>
    var sessions: map<string, Session>
    ghost var issued: set<string>

    ghost function Snapshot(): State
      reads this
    {
      State(now, lastUser, users, sessions, issued)
    }

    constructor ()
      ensures Snapshot() == EMPTY
    {
      now, lastUser, users, sessions, issued := 0, 0, {}, map[], {};
    }

    /** createSession; inserting for a user that does not exist throws. */
    method CreateSession(token: string, user: nat, time: int) returns (ok: bool, expiresAt: int)
      requires token != "" && token !in issued && now <= time
      modifies this
      ensures Snapshot() == Step(old(Snapshot()), Create(token, user, time))
      ensures ok == (user in users)
      ensures ok ==> expiresAt == time + SESSION_DURATION && Validates(Snapshot(), token, time)
    {
      if user !in users {
        return false, 0;
      }
      ok, expiresAt := true, time + SESSION_DURATION;
      sessions := sessions[token := Session(user, expiresAt)];
      issued := issued + {token};
      now := time;
      sessions := map t | t in sessions && !(sessions[t].expiresAt < time) :: sessions[t];
    }

    method ValidateSession(token: string, time: int) returns (user: nat, ok: bool)
      ensures ok == Validates(Snapshot(), token, time)
      ensures ok ==> user == sessions[token].user
    {
      if token == "" || token !in sessions || sessions[token].expiresAt <= time || sessions[token].user !in users {
        return 0, false;
      }
      return sessions[token].user, true;
    }

    method DestroySession(token: string)
      modifies this
      ensures Snapshot() == Step(old(Snapshot()), Destroy(token))
    {
      sessions := sessions - {token};
    }

    method DestroyAllUserSessions(user: nat)
      modifies this
      ensures Snapshot() == Step(old(Snapshot()), DestroyAll(user))
    {
      sessions := map t | t in sessions && sessions[t].user != user :: sessions[t];
    }

    method RemoveUser(user: nat) returns (changed: bool)
      modifies this
      ensures Snapshot() == Step(old(Snapshot()), DeleteUser(user))
      ensures changed == (user in old(users))
    {
      DestroyAllUserSessions(user);
      changed := user in users;
      users := users - {user};
    }
  }
}
