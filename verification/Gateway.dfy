/** Just-in-time grants and gateway sessions. Starting a session under a grant checks the
    grant in one critical section and stores the session in a later one. */
module Gateway {
  import opened Wrappers
  import opened Text

  type ID = nat
  type Time = int

  const SECOND: int := 1_000_000_000
  const PROTOCOLS: set<string> := {"ssh", "rdp", "http"}

  datatype GrantStatus = Pending | Approved | Denied

  datatype Grant = Grant(
    id: ID, userID: string, assetID: string, protocol: string, reason: string, status: GrantStatus,
    ttlSeconds: int, createdAt: Time, expiresAt: Time, approvedAt: Option<Time>, approverID: string, denyReason: string)

  datatype SessionStatus = Active | Terminated

  datatype Session = Session(
    id: ID, userID: string, assetID: string, protocol: string, status: SessionStatus,
    createdAt: Time, terminatedAt: Option<Time>, terminateReason: string)

  datatype GatewayError =
    | FieldsRequired | UnsupportedProtocol | BadTTL | ApproverRequired | GrantNotFound | NotPending | GrantExpired
    | NotApproved | UserMismatch | AssetMismatch | ProtocolMismatch | SessionNotFound | AlreadyTerminated

  datatype State = State(grants: map<ID, Grant>, sessions: map<ID, Session>)

  /** The trimmed fields of a request to start a session. */
  datatype Target = Target(userID: string, assetID: string, protocol: string)

  function TargetOf(user: string, asset: string, protocol: string): Result<Target, GatewayError> {
    var t := Target(TrimSpace(user), TrimSpace(asset), ToLower(TrimSpace(protocol)));
    if t.userID == "" || t.assetID == "" || t.protocol == "" then Err(FieldsRequired)
    else if t.protocol !in PROTOCOLS then Err(UnsupportedProtocol)
    else Ok(t)
  }

  function RequestOutcome(user: string, asset: string, protocol: string, reason: string, ttl: int, id: ID, now: Time)
    : Result<Grant, GatewayError>
  {
    var t := TargetOf(user, asset, protocol);
    var seconds := if ttl == 0 then 3600 else ttl;
    if TrimSpace(user) == "" || TrimSpace(asset) == "" || TrimSpace(protocol) == "" || TrimSpace(reason) == "" then
      Err(FieldsRequired)
    else if t.Err? then Err(t.error)
    else if seconds < 60 || seconds > 86400 then Err(BadTTL)
    else Ok(Grant(id, t.value.userID, t.value.assetID, t.value.protocol, TrimSpace(reason), Pending, seconds,
                  now, now + seconds * SECOND, None, "", ""))
  }

  function ApproveNext(s: State, id: ID, approver: string, now: Time, later: Time)
    : (State, Result<Grant, GatewayError>)
  {
    if TrimSpace(approver) == "" then (s, Err(ApproverRequired))
    else if id !in s.grants then (s, Err(GrantNotFound))
    else if s.grants[id].status != Pending then (s, Err(NotPending))
    else if now > s.grants[id].expiresAt then (s, Err(GrantExpired))
    else
      var g := s.grants[id].(status := Approved, approvedAt := Some(later), approverID := TrimSpace(approver));
      (s.(grants := s.grants[id := g]), Ok(g))
  }

  function DenyNext(s: State, id: ID, approver: string, reason: string): (State, Result<Grant, GatewayError>) {
    if TrimSpace(approver) == "" then (s, Err(ApproverRequired))
    else if id !in s.grants then (s, Err(GrantNotFound))
    else if s.grants[id].status != Pending then (s, Err(NotPending))
    else
      var g := s.grants[id].(status := Denied, approverID := TrimSpace(approver), denyReason := TrimSpace(reason));
      (s.(grants := s.grants[id := g]), Ok(g))
  }

  /** The check of a grant against the session to be started. */
  function GrantCheck(s: State, id: ID, t: Target, now: Time): Result<(), GatewayError> {
    if id !in s.grants then Err(GrantNotFound)
    else
      var g := s.grants[id];
      if g.status != Approved then Err(NotApproved)
      else if now > g.expiresAt then Err(GrantExpired)
      else if !EqualFold(g.userID, t.userID) then Err(UserMismatch)
      else if !EqualFold(g.assetID, t.assetID) then Err(AssetMismatch)
      else if !EqualFold(g.protocol, t.protocol) then Err(ProtocolMismatch)
      else Ok(())
  }

  function TerminateNext(s: State, id: ID, reason: string, now: Time): (State, Result<(), GatewayError>) {
    if id !in s.sessions then (s, Err(SessionNotFound))
    else if s.sessions[id].status == Terminated then (s, Err(AlreadyTerminated))
    else
      (s.(sessions := s.sessions[id := s.sessions[id].(status := Terminated, terminatedAt := Some(now),
                                                       terminateReason := TrimSpace(reason))]), Ok(()))
  }

  function Started(t: Target, id: ID, now: Time): Session {
    Session(id, t.userID, t.assetID, t.protocol, Active, now, None, "")
  }

  class GatewayService {
    var grants: map<ID, Grant>
    var sessions: map<ID, Session>

    function Contents(): State
      reads this
    {
      State(grants, sessions)
    }

    constructor ()
      ensures Contents() == State(map[], map[])
    {
      grants, sessions := map[], map[];
    }

    method ValidateJITGrant(grantID: ID, t: Target, now: Time) returns (r: Result<(), GatewayError>)
      ensures r == GrantCheck(Contents(), grantID, t, now)
      ensures r.Ok? <==>
        && grantID in grants && grants[grantID].status == Approved && now <= grants[grantID].expiresAt
        && EqualFold(grants[grantID].userID, t.userID) && EqualFold(grants[grantID].assetID, t.assetID)
        && EqualFold(grants[grantID].protocol, t.protocol)
    {
      hide EqualFold;
      if grantID !in grants {
        return Err(GrantNotFound);
      }
      var grant := grants[grantID];
      if grant.status != Approved {
        return Err(NotApproved);
      }
      if now > grant.expiresAt {
        return Err(GrantExpired);
      }
      if !EqualFold(grant.userID, t.userID) {
        return Err(UserMismatch);
      }
      if !EqualFold(grant.assetID, t.assetID) {
        return Err(AssetMismatch);
      }
      if !EqualFold(grant.protocol, t.protocol) {
        return Err(ProtocolMismatch);
      }
      return Ok(());
    }

    /** Starting a session with nothing in between the check and the insertion. */
    method InitiateSession(user: string, asset: string, protocol: string, grantID: Option<ID>,
                           sessionID: ID, checkedAt: Time, now: Time) returns (r: Result<Session, GatewayError>)
      requires sessionID !in sessions
      modifies this`sessions
      ensures var t := TargetOf(user, asset, protocol);
        r == if t.Err? then Err(t.error)
             else if grantID.Some? && GrantCheck(old(Contents()), grantID.value, t.value, checkedAt).Err?
             then Err(GrantCheck(old(Contents()), grantID.value, t.value, checkedAt).error)
             else Ok(Started(t.value, sessionID, now))
      ensures sessions == if r.Ok? then old(sessions)[sessionID := r.value] else old(sessions)
    {
      hide TrimSpace, ToLower, GrantCheck;
      var target := Target(TrimSpace(user), TrimSpace(asset), ToLower(TrimSpace(protocol)));
      if target.userID == "" || target.assetID == "" || target.protocol == "" {
        return Err(FieldsRequired);
      }
      if target.protocol !in PROTOCOLS {
        return Err(UnsupportedProtocol);
      }
      if grantID.Some? {
        var checked := ValidateJITGrant(grantID.value, target, checkedAt);
        if checked.Err? {
          return Err(checked.error);
        }
      }
      var session := Session(sessionID, target.userID, target.assetID, target.protocol, Active, now, None, "");
      sessions := sessions[session.id := session];
      return Ok(session);
    }

    method TerminateSession(sessionID: ID, reason: string, now: Time) returns (r: Result<(), GatewayError>)
      modifies this`sessions
      ensures (Contents(), r) == TerminateNext(old(Contents()), sessionID, reason, now)
    {
      hide TrimSpace;
      if sessionID !in sessions {
        return Err(SessionNotFound);
      }
      var session := sessions[sessionID];
      if session.status == Terminated {
        return Err(AlreadyTerminated);
      }
      session := session.(status := Terminated);
      session := session.(terminatedAt := Some(now));
      session := session.(terminateReason := TrimSpace(reason));
      sessions := sessions[sessionID := session];
      return Ok(());
    }

    method RequestJITGrant(user: string, asset: string, protocol: string, reason: string, ttlSeconds: int,
                           grantID: ID, now: Time) returns (r: Result<Grant, GatewayError>)
      requires grantID !in grants
      modifies this`grants
      ensures r == RequestOutcome(user, asset, protocol, reason, ttlSeconds, grantID, now)
      ensures grants == if r.Ok? then old(grants)[grantID := r.value] else old(grants)
    {
      hide TrimSpace;
      var userID, assetID := TrimSpace(user), TrimSpace(asset);
      var proto, why := ToLower(TrimSpace(protocol)), TrimSpace(reason);
      assert proto == "" <==> TrimSpace(protocol) == "" by {
        assert |proto| == |TrimSpace(protocol)|;
      }
      if userID == "" || assetID == "" || proto == "" || why == "" {
        return Err(FieldsRequired);
      }
      if proto !in PROTOCOLS {
        return Err(UnsupportedProtocol);
      }
      var ttl := ttlSeconds;
      if ttl == 0 {
        ttl := 3600;
      }
      if ttl < 60 || ttl > 86400 {
        return Err(BadTTL);
      }
      var grant := Grant(grantID, userID, assetID, proto, why, Pending, ttl, now, now + ttl * SECOND, None, "", "");
      grants := grants[grant.id := grant];
      return Ok(grant);
    }

    method ApproveJITGrant(grantID: ID, approver: string, now: Time, later: Time)
      returns (r: Result<Grant, GatewayError>)
      modifies this`grants
      ensures (Contents(), r) == ApproveNext(old(Contents()), grantID, approver, now, later)
    {
      hide TrimSpace;
      var approverID := TrimSpace(approver);
      if approverID == "" {
        return Err(ApproverRequired);
      }
      if grantID !in grants {
        return Err(GrantNotFound);
      }
      var grant := grants[grantID];
      if grant.status != Pending {
        return Err(NotPending);
      }
      if now > grant.expiresAt {
        return Err(GrantExpired);
      }
      grant := grant.(status := Approved);
      grant := grant.(approvedAt := Some(later));
      grant := grant.(approverID := approverID);
      grants := grants[grantID := grant];
      return Ok(grant);
    }

    method DenyJITGrant(grantID: ID, approver: string, reason: string) returns (r: Result<Grant, GatewayError>)
      modifies this`grants
      ensures (Contents(), r) == DenyNext(old(Contents()), grantID, approver, reason)
    {
      hide TrimSpace;
      var approverID := TrimSpace(approver);
      if approverID == "" {
        return Err(ApproverRequired);
      }
      if grantID !in grants {
        return Err(GrantNotFound);
      }
      var grant := grants[grantID];
      if grant.status != Pending {
        return Err(NotPending);
      }
      grant := grant.(status := Denied);
      grant := grant.(approverID := approverID);
      grant := grant.(denyReason := TrimSpace(reason));
      grants := grants[grantID := grant];
      return Ok(grant);
    }
  }
}
