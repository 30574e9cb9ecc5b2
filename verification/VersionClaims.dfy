/**
 Version claims: the create-once objects through which the writers of one
 document, on any replica, compete for its next version.
 */
module VersionClaims {

  /** Nanoseconds after which a claim that was never written is abandoned: thirty seconds. */
  const CLAIM_TTL: int := 30_000_000_000

  /** How many versions past the live one a writer tries before it gives up. */
  const CLAIM_SKIPS: int := 8

  /** A claim as another writer finds it: stamped by its writer, or released after a failed write. */
  datatype Claim = Claimed(at: int) | Released

  /** A writer whose clock read `at` skips this claim. */
  predicate Passable(c: Claim, at: int) {
    c.Released? || at - c.at > CLAIM_TTL
  }

  /** The loop over the versions after `live` ends by creating the claim of `v`. */
  predicate Claimable(claims: map<int, Claim>, live: int, at: int, v: int) {
    && live < v <= live + CLAIM_SKIPS
    && v !in claims
    && forall u :: live < u < v ==> u in claims && Passable(claims[u], at)
  }

  /** At most one version is claimable, so which one a writer gets is not a choice. */
  lemma {:induction false} ClaimableUnique(claims: map<int, Claim>, live: int, at: int, v: int, w: int)
    requires Claimable(claims, live, at, v) && Claimable(claims, live, at, w)
    ensures v == w
  {
  }

  /**
   A writer alone with `dead` released or abandoned claims gets the version
   past them exactly when there are fewer than eight: the window is tight.
   */
  lemma {:induction false} LoneWriter(claims: map<int, Claim>, live: int, at: int, dead: nat)
    requires forall u :: live < u <= live + dead ==> u in claims && Passable(claims[u], at)
    requires live + dead + 1 !in claims
    ensures Claimable(claims, live, at, live + dead + 1) <==> dead < CLAIM_SKIPS
    ensures (exists v :: Claimable(claims, live, at, v)) <==> dead < CLAIM_SKIPS
  {
  }
}
