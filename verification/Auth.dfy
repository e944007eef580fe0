/** Refresh tokens and sessions: two maps that point at each other, edited by issue,
    rotation, expiry and revocation. Tokens are named by their hashes; the empty hash is
    the "no token" mark of a session. */
module Auth {
  import opened Wrappers

  type Time = int
  type UserID = string

  datatype Token = Token(userID: UserID, sessionID: string, expiresAt: Time)

  datatype Session = Session(userID: UserID, hash: string, issuedAt: Time, revokedAt: Option<Time>)

  datatype State = State(tokens: map<string, Token>, sessions: map<string, Session>)

  datatype AuthError =
    | MissingToken | InvalidToken | ExpiredToken
    | MissingUser | SessionNotFound | NotOwner

  // ---- The critical sections ----

  function Record(s: State, user: UserID, sessionID: string, hash: string, now: Time, ttl: int): State {
    State(s.tokens[hash := Token(user, sessionID, now + ttl)],
          s.sessions[sessionID := Session(user, hash, now, None)])
  }

  /** The first critical section of a refresh, by what becomes of the presented token:
      unknown, expired (its session is revoked at the second clock reading), or redeemed. */
  function Consume(s: State, hash: string, now: Time, later: Time): (State, Result<UserID, AuthError>) {
    if hash !in s.tokens then (s, Err(InvalidToken))
    else
      var t := s.tokens[hash];
      var tokens := s.tokens - {hash};
      if t.sessionID !in s.sessions then
        (State(tokens, s.sessions), if now > t.expiresAt then Err(ExpiredToken) else Ok(t.userID))
      else if now > t.expiresAt then
        (State(tokens, s.sessions[t.sessionID := s.sessions[t.sessionID].(revokedAt := Some(later))]),
         Err(ExpiredToken))
      else
        (State(tokens, s.sessions[t.sessionID := s.sessions[t.sessionID].(hash := "")]), Ok(t.userID))
  }

  function Revoked(x: Session, now: Time): Session {
    x.(revokedAt := Some(now), hash := "")
  }

  /** The sessions a bulk revocation ends. */
  function Unrevoked(s: State, user: UserID): set<string> {
    set sid | sid in s.sessions && s.sessions[sid].userID == user && s.sessions[sid].revokedAt.None?
  }

  function HashesOf(s: State, ids: set<string>): set<string> {
    set sid | sid in ids && sid in s.sessions :: s.sessions[sid].hash
  }

  function RevokeThese(s: State, ids: set<string>, now: Time): State {
    State(s.tokens - (HashesOf(s, ids) - {""}),
          map sid | sid in s.sessions :: if sid in ids then Revoked(s.sessions[sid], now) else s.sessions[sid])
  }

  /** Which sessions a revocation request ends, or why it is refused. */
  function Targets(s: State, user: UserID, sessionID: string): Result<set<string>, AuthError> {
    if user == "" then Err(MissingUser)
    else if sessionID == "" then Ok(Unrevoked(s, user))
    else if sessionID !in s.sessions then Err(SessionNotFound)
    else if s.sessions[sessionID].userID != user then Err(NotOwner)
    else if s.sessions[sessionID].revokedAt.Some? then Ok({})
    else Ok({sessionID})
  }

  function Revoke(s: State, user: UserID, sessionID: string, now: Time): State {
    match Targets(s, user, sessionID)
    case Err(_) => s
    case Ok(ids) => RevokeThese(s, ids, now)
  }

  /** A list of session ids without repetition. */
  ghost predicate Lists(ids: seq<string>, members: set<string>) {
    && (forall i, j :: 0 <= i < j < |ids| ==> ids[i] != ids[j])
    && (forall x :: x in ids <==> x in members)
  }

  class AuthService {
    var refreshTokens: map<string, Token>
    var sessions: map<string, Session>
    const refreshTTL: int

    function Contents(): State
      reads this
    {
      State(refreshTokens, sessions)
    }

    constructor (ttl: int)
      ensures Contents() == State(map[], map[])
      ensures refreshTTL == if ttl <= 0 then 86_400_000_000_000 else ttl
    {
      refreshTokens, sessions := map[], map[];
      refreshTTL := if ttl <= 0 then 86_400_000_000_000 else ttl;
    }

    method IssueSession(user: UserID, sessionID: string, hash: string, now: Time)
      requires sessionID !in sessions && hash !in refreshTokens
      modifies this
      ensures Contents() == Record(old(Contents()), user, sessionID, hash, now, refreshTTL)
    {
      var refreshExp := now + refreshTTL;
      refreshTokens := refreshTokens[hash := Token(user, sessionID, refreshExp)];
      sessions := sessions[sessionID := Session(user, hash, now, None)];
    }

    method ConsumeToken(hash: string, now: Time, later: Time) returns (r: Result<UserID, AuthError>)
      modifies this
      ensures (Contents(), r) == Consume(old(Contents()), hash, now, later)
    {
      if hash !in refreshTokens {
        return Err(InvalidToken);
      }
      var record := refreshTokens[hash];
      if now > record.expiresAt {
        refreshTokens := refreshTokens - {hash};
        if record.sessionID in sessions {
          var session := sessions[record.sessionID];
          session := session.(revokedAt := Some(later));
          sessions := sessions[record.sessionID := session];
        }
        return Err(ExpiredToken);
      }
      refreshTokens := refreshTokens - {hash};
      if record.sessionID in sessions {
        var session := sessions[record.sessionID];
        session := session.(hash := "");
        sessions := sessions[record.sessionID := session];
      }
      return Ok(record.userID);
    }

    /** A refresh that nothing interrupts: the two critical sections in a row. */
    method RefreshToken(presented: Option<string>, now: Time, later: Time,
                        sessionID: string, hash: string, issuedAt: Time)
      returns (r: Result<UserID, AuthError>)
      requires sessionID !in sessions && hash !in refreshTokens
      modifies this
      ensures presented.None? ==> r == Err(MissingToken) && Contents() == old(Contents())
      ensures presented.Some? ==>
        var (mid, c) := Consume(old(Contents()), presented.value, now, later);
        r == c && Contents() == if c.Ok? then Record(mid, c.value, sessionID, hash, issuedAt, refreshTTL) else mid
    {
      if presented.None? {
        return Err(MissingToken);
      }
      r := ConsumeToken(presented.value, now, later);
      if r.Ok? {
        IssueSession(r.value, sessionID, hash, issuedAt);
      }
    }

    method RevokeSessions(user: UserID, sessionID: string, now: Time)
      returns (r: Result<seq<string>, AuthError>)
      modifies this
      ensures Contents() == Revoke(old(Contents()), user, sessionID, now)
      ensures match Targets(old(Contents()), user, sessionID)
        case Err(e) => r == Err(e)
        case Ok(ids) => r.Ok? && Lists(r.value, ids)
    {
      if user == "" {
        return Err(MissingUser);
      }
      if sessionID != "" {
        if sessionID !in sessions {
          return Err(SessionNotFound);
        }
        var session := sessions[sessionID];
        if session.userID != user {
          return Err(NotOwner);
        }
        if session.revokedAt.Some? {
          NothingRevoked(Contents(), now);
          return Ok([]);
        }
        if session.hash != "" {
          refreshTokens := refreshTokens - {session.hash};
        }
        session := session.(revokedAt := Some(now));
        session := session.(hash := "");
        sessions := sessions[sessionID := session];
        OneMoreRevoked(old(Contents()), {}, sessionID, now);
        NothingRevoked(old(Contents()), now);
        assert {} + {sessionID} == {sessionID};
        return Ok([sessionID]);
      }

      ghost var s := Contents();
      var revokedIDs: seq<string> := [];
      var rest := sessions.Keys;
      NothingRevoked(s, now);
      ghost var done: set<string> := {};
      while rest != {}
        invariant rest <= s.sessions.Keys
        invariant done == Unrevoked(s, user) - rest
        invariant Lists(revokedIDs, done)
        invariant Contents() == RevokeThese(s, done, now)
        decreases rest
      {
        var sid :| sid in rest;
        var session := sessions[sid];
        rest := rest - {sid};
        if session.userID == user && session.revokedAt.None? {
          if session.hash != "" {
            refreshTokens := refreshTokens - {session.hash};
          }
          session := session.(revokedAt := Some(now));
          session := session.(hash := "");
          sessions := sessions[sid := session];
          revokedIDs := revokedIDs + [sid];
          OneMoreRevoked(s, done, sid, now);
          done := done + {sid};
        }
      }
      assert done == Unrevoked(s, user);
      return Ok(revokedIDs);
    }
  }

  lemma NothingRevoked(s: State, now: Time)
    ensures RevokeThese(s, {}, now) == s
  {
  }

  lemma OneMoreRevoked(s: State, done: set<string>, sid: string, now: Time)
    requires sid in s.sessions && sid !in done
    ensures var mid := RevokeThese(s, done, now);
      RevokeThese(s, done + {sid}, now) ==
        State(if s.sessions[sid].hash == "" then mid.tokens else mid.tokens - {s.sessions[sid].hash},
              mid.sessions[sid := Revoked(s.sessions[sid], now)])
  {
  }
}
