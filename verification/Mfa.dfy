/** Multi-factor challenges. Verifying one looks it up in one critical section and deletes it
    in a later one, after which a session is issued. */
module Mfa {
  import opened Wrappers
  import opened Text

  type ID = nat
  type Time = int

  const LIFETIME: int := 300_000_000_000

  datatype Challenge = Challenge(id: ID, userID: string, method_: string, secret: string, expiresAt: Time)

  datatype MfaError =
    | InvalidPayload | UnsupportedMethod | NoRandomness | UnknownChallenge | MethodMismatch | ChallengeExpired
    | WrongSecret

  /** The response to a challenge: a code for one method, an assertion for the other. */
  datatype Answer = Answer(challenge: Option<ID>, method_: string, code: string, assertion: string)

  function Made(user: string, requested: string, secret: Option<string>, id: ID, now: Time)
    : Result<Challenge, MfaError>
  {
    if user == "" || requested == "" then Err(InvalidPayload)
    else if ToLower(requested) != "totp" && ToLower(requested) != "webauthn" then Err(UnsupportedMethod)
    else if secret.None? then Err(NoRandomness)
    else Ok(Challenge(id, user, ToLower(requested), secret.value, now + LIFETIME))
  }

  /** What the lookup and the tests that follow it make of an answer: the challenge it meets,
      or the reason it is turned away. */
  function Judge(challenges: map<ID, Challenge>, a: Answer, now: Time): Result<Challenge, MfaError> {
    if a.challenge.None? || a.method_ == "" then Err(InvalidPayload)
    else if a.challenge.value !in challenges then Err(UnknownChallenge)
    else
      var c := challenges[a.challenge.value];
      if c.method_ != ToLower(a.method_) then Err(MethodMismatch)
      else if now > c.expiresAt then Err(ChallengeExpired)
      else if c.method_ == "totp" then (if a.code == "" || a.code != c.secret then Err(WrongSecret) else Ok(c))
      else if c.method_ != "webauthn" then Err(UnsupportedMethod)
      else if a.assertion == "" || a.assertion != c.secret then Err(WrongSecret)
      else Ok(c)
  }

  /** The answers that go on to the second critical section, which deletes the challenge. */
  predicate Deletes(r: Result<Challenge, MfaError>) {
    r.Ok? || r.error == ChallengeExpired
  }

  class MfaService {
    var challenges: map<ID, Challenge>

    constructor ()
      ensures challenges == map[]
    {
      challenges := map[];
    }

    method CreateMFAChallenge(userID: string, requested: string, secret: Option<string>, id: ID, now: Time)
      returns (r: Result<Challenge, MfaError>)
      requires id !in challenges
      modifies this
      ensures r == Made(userID, requested, secret, id, now)
      ensures challenges == if r.Ok? then old(challenges)[id := r.value] else old(challenges)
    {
      hide ToLower;
      if userID == "" || requested == "" {
        return Err(InvalidPayload);
      }
      var chosen := ToLower(requested);
      if chosen != "totp" && chosen != "webauthn" {
        return Err(UnsupportedMethod);
      }
      var challenge := Challenge(id, userID, chosen, "", now + LIFETIME);
      if secret.None? {
        return Err(NoRandomness);
      }
      challenge := challenge.(secret := secret.value);
      challenges := challenges[id := challenge];
      return Ok(challenge);
    }

    /** A verification with nothing in between: whose session is to be issued, if any. */
    method VerifyMFA(a: Answer, now: Time) returns (r: Result<string, MfaError>)
      modifies this
      ensures var j := Judge(old(challenges), a, now);
        && r == (if j.Ok? then Ok(j.value.userID) else Err(j.error))
        && challenges == (if Deletes(j) then old(challenges) - {a.challenge.value} else old(challenges))
    {
      hide ToLower;
      if a.challenge.None? || a.method_ == "" {
        return Err(InvalidPayload);
      }
      var chosen, id := ToLower(a.method_), a.challenge.value;
      if id !in challenges {
        return Err(UnknownChallenge);
      }
      var challenge := challenges[id];
      if challenge.method_ != chosen {
        return Err(MethodMismatch);
      }
      if now > challenge.expiresAt {
        challenges := challenges - {id};
        return Err(ChallengeExpired);
      }
      if chosen == "totp" {
        if a.code == "" || a.code != challenge.secret {
          return Err(WrongSecret);
        }
      } else if chosen == "webauthn" {
        if a.assertion == "" || a.assertion != challenge.secret {
          return Err(WrongSecret);
        }
      } else {
        return Err(UnsupportedMethod);
      }
      challenges := challenges - {id};
      return Ok(challenge.userID);
    }
  }
}
