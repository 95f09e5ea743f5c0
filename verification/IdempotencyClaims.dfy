/** The api_idempotency row and the three transactions that touch it: the
    claim, the fenced completion and the marking of a clean failure. */
module IdempotencyClaims {
  import opened Rows

  const LEASE_MS := 600_000

  datatype Status = InProgress | Done | FailedClean

  /** A claim; owner is the claiming runner's fresh token. */
  datatype Claim = Claim(sha: string, status: Status, owner: nat, fence: nat, response: Option<string>, lease: int)

  type Claims = map<string, Claim>

  datatype Outcome = Claimed(fence: nat) | Stored(body: string) | Conflict | Busy

  const EMPTY_BODY := "{}"

  function BodyOf(c: Claim): string {
    if c.response.Some? then c.response.value else EMPTY_BODY
  }

  predicate Live(c: Claim, now: int) { c.status == InProgress && c.lease > now }

  /** _claim, one transaction. */
  function ClaimStep(db: Claims, key: string, sha: string, owner: nat, now: int): (Claims, Outcome) {
    if key !in db then
      (db[key := Claim(sha, InProgress, owner, 0, None, now + LEASE_MS)], Claimed(0))
    else
      var c := db[key];
      if c.status == Done then (db, if c.sha != sha then Conflict else Stored(BodyOf(c)))
      else if c.sha != sha then (db, Conflict)
      else if Live(c, now) then (db, Busy)
      else
        (db[key := c.(status := InProgress, owner := owner, fence := c.fence + 1, lease := now + LEASE_MS)],
         Claimed(c.fence + 1))
  }

  /** Whether the WHERE of the fenced update matches. */
  predicate Holds(db: Claims, key: string, owner: nat, fence: nat) {
    key in db && db[key].owner == owner && db[key].fence == fence
  }

  /** _fenced_done; None when no row matched and the transaction is rolled back. */
  function FencedDone(db: Claims, key: string, owner: nat, fence: nat, body: string): Option<Claims> {
    if Holds(db, key, owner, fence) then Some(db[key := db[key].(status := Done, response := Some(body))]) else None
  }

  /** _after_failure's conditional update. */
  function MarkedFailed(db: Claims, key: string, owner: nat, fence: nat): Claims {
    if Holds(db, key, owner, fence) && db[key].status == InProgress
    then db[key := db[key].(status := FailedClean)] else db
  }

  class Idempotency {
    var claims: Claims

    constructor ()
      ensures claims == map[]
    {
      claims := map[];
    }

    method TakeClaim(key: string, sha: string, owner: nat, now: int) returns (out: Outcome)
      modifies this
      ensures (claims, out) == ClaimStep(old(claims), key, sha, owner, now)
      ensures forall k :: k != key ==> Get(claims, k) == Get(old(claims), k)
      ensures key in old(claims) && (old(claims)[key].status == Done || Live(old(claims)[key], now)) ==> claims == old(claims)
      ensures key !in old(claims) ==>
                out == Claimed(0) && claims == old(claims)[key := Claim(sha, InProgress, owner, 0, None, now + 600_000)]
      ensures key in old(claims) ==> var c := old(claims)[key];
                if c.sha != sha then out == Conflict && claims == old(claims)
                else if c.status == Done then
                  out == Stored(if c.response.Some? then c.response.value else "{}") && claims == old(claims)
                else if c.status == InProgress && c.lease > now then out == Busy && claims == old(claims)
                else out == Claimed(c.fence + 1)
                     && claims == old(claims)[key := Claim(sha, InProgress, owner, c.fence + 1, c.response, now + 600_000)]
    {
      if key !in claims {
        claims := claims[key := Claim(sha, InProgress, owner, 0, None, now + LEASE_MS)];
        return Claimed(0);
      }
      var c := claims[key];
      if c.status == Done {
        if c.sha != sha { return Conflict; }
        return Stored(BodyOf(c));
      }
      if c.sha != sha { return Conflict; }
      if Live(c, now) { return Busy; }
      var fence := c.fence + 1;
      claims := claims[key := Claim(c.sha, InProgress, owner, fence, c.response, now + LEASE_MS)];
      return Claimed(fence);
    }

    method Complete(key: string, owner: nat, fence: nat, body: string) returns (ok: bool)
      modifies this
      ensures ok == FencedDone(old(claims), key, owner, fence, body).Some?
      ensures ok <==> key in old(claims) && old(claims)[key].owner == owner && old(claims)[key].fence == fence
      ensures claims == if ok then old(claims)[key := old(claims)[key].(status := Done, response := Some(body))] else old(claims)
    {
      ok := key in claims && claims[key].owner == owner && claims[key].fence == fence;
      if ok {
        claims := claims[key := claims[key].(status := Done, response := Some(body))];
      }
    }

    /** The read of _after_failure: a done row's body is the answer. */
    method CompletedBody(key: string) returns (body: Option<string>)
      ensures body.Some? <==> key in claims && claims[key].status == Done
      ensures body.Some? ==> body.value == if claims[key].response.Some? then claims[key].response.value else "{}"
    {
      if key in claims && claims[key].status == Done { return Some(BodyOf(claims[key])); }
      return None;
    }

    method MarkFailed(key: string, owner: nat, fence: nat)
      modifies this
      ensures claims == MarkedFailed(old(claims), key, owner, fence)
      ensures claims == if key in old(claims) && old(claims)[key].owner == owner && old(claims)[key].fence == fence
                           && old(claims)[key].status == InProgress
                        then old(claims)[key := old(claims)[key].(status := FailedClean)] else old(claims)
    {
      if key in claims && claims[key].owner == owner && claims[key].fence == fence
         && claims[key].status == InProgress {
        claims := claims[key := claims[key].(status := FailedClean)];
      }
    }
  }
}
