// What is on disk after any history that starts with an empty queue, and what its operations answer then.
module PendingHistories {
  import opened Wrappers
  import opened PendingQueue
  import opened PendingRuns

  function Queue(ops: seq<Op>, n: nat): Sessions
    requires n <= |ops|
  {
    After(map[], ops, n)
  }

  // The operation wrote a claim; one that died while writing it left a claim that names no owner.
  predicate Claims(ops: seq<Op>, j: nat)
    requires j < |ops|
  {
    && (ops[j].Acquire? || ops[j].TornClaim?)
    && Grants(Queue(ops, j), ops[j].session, ops[j].key, ops[j].now, CLAIM_TTL_MS)
  }

  predicate SameKey(a: Op, s: Session, key: Key) {
    (a.Acquire? || a.TornClaim? || a.Release?) && a.session == s && a.key == key
  }

  function ClaimBy(op: Op): Claim
    requires op.Acquire? || op.TornClaim?
  {
    Claim(if op.Acquire? then Some(op.token) else None, op.now)
  }

  // A release by the owner of the claim.
  predicate Frees(op: Op, claim: Op) {
    op.Release? && claim.Acquire? && op.session == claim.session && op.key == claim.key && op.token == claim.token
  }

  ghost predicate Unreleased(ops: seq<Op>, j: nat, n: nat) {
    j < n <= |ops| && forall k :: j < k < n ==> !Frees(ops[k], ops[j])
  }

  // The claim of the j-th operation was neither released, nor taken over, nor swept with its directory.
  ghost predicate Standing(ops: seq<Op>, j: nat, n: nat) {
    && j < n <= |ops| && Claims(ops, j) && Unreleased(ops, j, n)
    && (forall k :: j < k < n && SameKey(ops[k], ops[j].session, ops[j].key) ==> !Claims(ops, k))
    && Stays(map[], ops, j + 1, n, ops[j].session)
  }

  lemma ClaimWrites(q: Sessions, op: Op)
    requires op.Acquire? || op.TornClaim?
    requires Grants(q, op.session, op.key, op.now, CLAIM_TTL_MS)
    ensures ClaimOf(Step(q, op), op.session, op.key) == Some(ClaimBy(op))
  {
  }

  // What one operation does to one claim.
  lemma StepClaim(q: Sessions, op: Op, s: Session, key: Key)
    ensures var before, after := ClaimOf(q, s, key), ClaimOf(Step(q, op), s, key);
      var grants := (op.Acquire? || op.TornClaim?) && SameKey(op, s, key) && Grants(q, s, key, op.now, CLAIM_TTL_MS);
      after == if grants then Some(ClaimBy(op))
               else if before.None? || s !in Step(q, op) || (op.Release? && SameKey(op, s, key) && before.value.owner == Some(op.token)) then None
               else before
  {
  }

  lemma {:induction false} StandingIsOnDisk(ops: seq<Op>, j: nat, n: nat)
    requires Standing(ops, j, n)
    ensures ClaimOf(Queue(ops, n), ops[j].session, ops[j].key) == Some(ClaimBy(ops[j]))
    decreases n
  {
    hide Step, ClaimOf, Grants;
    var s, key := ops[j].session, ops[j].key;
    if n == j + 1 {
      ClaimWrites(Queue(ops, j), ops[j]);
    } else {
      StandingIsOnDisk(ops, j, n - 1);
      StepClaim(Queue(ops, n - 1), ops[n - 1], s, key);
      assert s in Queue(ops, n);
      assert !Frees(ops[n - 1], ops[j]);
      if SameKey(ops[n - 1], s, key) {
        assert !Claims(ops, n - 1);
      }
    }
  }

  lemma {:induction false} OnDiskIsStanding(ops: seq<Op>, n: nat, s: Session, key: Key) returns (j: nat)
    requires n <= |ops| && ClaimOf(Queue(ops, n), s, key).Some?
    ensures Standing(ops, j, n) && ops[j].session == s && ops[j].key == key
    decreases n
  {
    hide Step, Grants;
    StepClaim(Queue(ops, n - 1), ops[n - 1], s, key);
    if SameKey(ops[n - 1], s, key) && !ops[n - 1].Release? && Claims(ops, n - 1) {
      j := n - 1;
    } else {
      j := OnDiskIsStanding(ops, n - 1, s, key);
      StandingIsOnDisk(ops, j, n - 1);
    }
  }

  /** A claim is on disk exactly if some operation wrote it and it was neither released by its owner, nor taken
      over, nor swept with its directory. */
  lemma ClaimExactly(ops: seq<Op>, n: nat, s: Session, key: Key, claim: Claim)
    requires n <= |ops|
    ensures ClaimOf(Queue(ops, n), s, key) == Some(claim)
      <==> (exists j: nat :: Standing(ops, j, n) && SameKey(ops[j], s, key) && ClaimBy(ops[j]) == claim)
  {
    hide ClaimOf, Claims, Stays, Unreleased;
    if ClaimOf(Queue(ops, n), s, key) == Some(claim) {
      var j := OnDiskIsStanding(ops, n, s, key);
      StandingIsOnDisk(ops, j, n);
      ClaimsIs(ops, j);
    }
    forall j: nat | Standing(ops, j, n) && SameKey(ops[j], s, key)
      ensures (ops[j].Acquire? || ops[j].TornClaim?) && ClaimOf(Queue(ops, n), s, key) == Some(ClaimBy(ops[j]))
    {
      StandingIsOnDisk(ops, j, n);
      ClaimsIs(ops, j);
    }
  }

  lemma ClaimsIs(ops: seq<Op>, j: nat)
    requires j < |ops| && Claims(ops, j)
    ensures ops[j].Acquire? || ops[j].TornClaim?
  {
  }

  // An earlier claim of the same key that its owner has not released and that is not expired.
  ghost predicate Blocks(ops: seq<Op>, j: nat, i: nat)
    requires i < |ops|
  {
    && j < i && Claims(ops, j) && Unreleased(ops, j, i) && (ops[i].Acquire? || ops[i].TornClaim?)
    && SameKey(ops[j], ops[i].session, ops[i].key) && Unexpired(ops[j], ops[i].now)
  }

  // An unreleased claim stays until it expires.
  lemma {:induction false} UnexpiredStands(ops: seq<Op>, j: nat, n: nat, now: Time)
    requires j < n <= |ops| && Claims(ops, j) && Unreleased(ops, j, n) && Unexpired(ops[j], now) && AllBy(ops, j, n, now)
    ensures ClaimOf(Queue(ops, n), ops[j].session, ops[j].key) == Some(ClaimBy(ops[j]))
    decreases n
  {
    hide Step, Grants;
    if n == j + 1 {
      ClaimWrites(Queue(ops, j), ops[j]);
    } else {
      UnexpiredStands(ops, j, n - 1, now);
      assert !Frees(ops[n - 1], ops[j]);
      StepKeepsClaim(Queue(ops, n - 1), ops[n - 1], ops[j].session, ops[j].key, ClaimBy(ops[j]));
    }
  }

  /** An acquire is refused exactly if the key is malformed, a reminder is ready under it, or an earlier claim of it,
      a torn one included, is neither released by its owner nor expired. */
  lemma RefusedExactly(ops: seq<Op>, i: nat)
    requires LockOrder(ops) && i < |ops| && ops[i].Acquire?
    ensures !Won(map[], ops, i) <==>
      || !ValidKey(ops[i].key)
      || FileOf(Queue(ops, i), ops[i].session, Ready(ops[i].key)).Some?
      || exists j: nat :: Blocks(ops, j, i)
  {
    hide Step, FileOf, ValidKey, Claims, Unreleased;
    var s, key, now := ops[i].session, ops[i].key, ops[i].now;
    forall j: nat | Blocks(ops, j, i)
      ensures ClaimOf(Queue(ops, i), s, key).Some? && !Expired(ClaimOf(Queue(ops, i), s, key).value, now, CLAIM_TTL_MS)
    {
      ClaimsIs(ops, j);
      UnexpiredStands(ops, j, i, now);
    }
    if ClaimOf(Queue(ops, i), s, key).Some? && !Expired(ClaimOf(Queue(ops, i), s, key).value, now, CLAIM_TTL_MS) {
      var j := OnDiskIsStanding(ops, i, s, key);
      StandingIsOnDisk(ops, j, i);
      ClaimsIs(ops, j);
      assert Blocks(ops, j, i);
    }
  }

  /** After its owner's release of a claim that is not expired a key is free at once: unless a reminder is ready,
      the next acquire of it is granted, whoever asks. */
  lemma FreeAfterRelease(ops: seq<Op>, j: nat, r: nat, i: nat)
    requires LockOrder(ops) && j < r < i < |ops| && ops[i].Acquire? && ValidKey(ops[i].key)
    requires Claims(ops, j) && Unreleased(ops, j, r) && Frees(ops[r], ops[j]) && Unexpired(ops[j], ops[r].now)
    requires SameKey(ops[i], ops[j].session, ops[j].key)
    requires forall k :: r < k < i && SameKey(ops[k], ops[i].session, ops[i].key) ==> !Claims(ops, k)
    requires FileOf(Queue(ops, i), ops[i].session, Ready(ops[i].key)).None?
    ensures Won(map[], ops, i)
  {
    hide Step, FileOf, ValidKey, Claims, Grants;
    UnexpiredStands(ops, j, r, ops[r].now);
    StepClaim(Queue(ops, r), ops[r], ops[j].session, ops[j].key);
    NoneUntilClaimed(ops, r + 1, i, ops[i].session, ops[i].key);
    assert Grants(Queue(ops, i), ops[i].session, ops[i].key, ops[i].now, CLAIM_TTL_MS) by {
      GrantsFree(Queue(ops, i), ops[i].session, ops[i].key, ops[i].now);
    }
  }

  lemma GrantsFree(q: Sessions, s: Session, key: Key, now: Time)
    requires ValidKey(key) && FileOf(q, s, Ready(key)).None? && ClaimOf(q, s, key).None?
    ensures Grants(q, s, key, now, CLAIM_TTL_MS)
  {
  }

  lemma {:induction false} NoneUntilClaimed(ops: seq<Op>, m: nat, n: nat, s: Session, key: Key)
    requires m <= n <= |ops| && ClaimOf(Queue(ops, m), s, key).None?
    requires forall k :: m <= k < n && SameKey(ops[k], s, key) ==> !Claims(ops, k)
    ensures ClaimOf(Queue(ops, n), s, key).None?
    decreases n
  {
    hide Step, ClaimOf, Grants;
    if n > m {
      NoneUntilClaimed(ops, m, n - 1, s, key);
      StepClaim(Queue(ops, n - 1), ops[n - 1], s, key);
    }
  }

  // ---- Sweeps ----

  // A time the sweep looks at.
  predicate HasTime(d: Dir, t: Time) {
    || d.changed == t
    || (d.claims.Some? && d.claims.value.changed == t)
    || exists name :: name in d.files && d.files[name].changed == t
  }

  lemma StepTimes(q: Sessions, op: Op, s: Session, t: Time)
    requires s in Step(q, op) && HasTime(Step(q, op)[s], t)
    ensures (s in q && HasTime(q[s], t)) || (!op.Sweep? && t == op.now && (s !in q || Step(q, op)[s] != q[s]))
  {
  }

  // The i-th operation wrote in the directory that is there n operations in.
  ghost predicate WroteIn(ops: seq<Op>, i: nat, n: nat, s: Session) {
    i < n <= |ops| && Touches(map[], ops, i, s) && Stays(map[], ops, i + 1, n, s)
  }

  lemma {:induction false} TimesAreWrites(ops: seq<Op>, n: nat, s: Session, t: Time) returns (i: nat)
    requires n <= |ops| && s in Queue(ops, n) && HasTime(Queue(ops, n)[s], t)
    ensures WroteIn(ops, i, n, s) && ops[i].now == t
    decreases n
  {
    hide Step, HasTime;
    var before := Queue(ops, n - 1);
    StepTimes(before, ops[n - 1], s, t);
    if s in before && HasTime(before[s], t) {
      i := TimesAreWrites(ops, n - 1, s, t);
    } else {
      i := n - 1;
    }
  }

  lemma OlderByTimes(d: Dir, cutoff: Time)
    ensures AllOlder(d, cutoff) <==> forall t :: HasTime(d, t) ==> t < cutoff
  {
    if forall t :: HasTime(d, t) ==> t < cutoff {
      assert HasTime(d, d.changed);
      assert d.claims.Some? ==> HasTime(d, d.claims.value.changed);
      forall name | name in d.files ensures d.files[name].changed < cutoff {
        assert HasTime(d, d.files[name].changed);
      }
    }
  }

  lemma LiveByClaims(q: Sessions, s: Session, now: Time)
    requires s in q
    ensures HasLiveClaim(q[s], now) <==> exists key :: ClaimOf(q, s, key).Some? && !Expired(ClaimOf(q, s, key).value, now, CLAIM_TTL_MS)
  {
    if HasLiveClaim(q[s], now) {
      var key :| key in q[s].claims.value.rows && !Expired(q[s].claims.value.rows[key], now, CLAIM_TTL_MS);
      assert ClaimOf(q, s, key).Some?;
    }
  }

  // Nothing was written in the directory since the cutoff.
  ghost predicate Quiet(ops: seq<Op>, n: nat, s: Session, cutoff: Time) {
    n <= |ops| && forall i: nat :: WroteIn(ops, i, n, s) ==> ops[i].now < cutoff
  }

  // No claim of the session stands unexpired.
  ghost predicate Unclaimed(ops: seq<Op>, n: nat, s: Session, now: Time) {
    forall j: nat :: Standing(ops, j, n) && ops[j].session == s ==> !Unexpired(ops[j], now)
  }

  lemma QuietIsOlder(ops: seq<Op>, n: nat, s: Session, cutoff: Time)
    requires LockOrder(ops) && n <= |ops| && s in Queue(ops, n)
    ensures Quiet(ops, n, s, cutoff) <==> AllOlder(Queue(ops, n)[s], cutoff)
  {
    hide Touches, Stays, HasTime, AllOlder, LockOrder;
    var d := Queue(ops, n)[s];
    OlderByTimes(d, cutoff);
    if Quiet(ops, n, s, cutoff) {
      forall t | HasTime(d, t) ensures t < cutoff {
        var i := TimesAreWrites(ops, n, s, t);
      }
    }
    forall i: nat | WroteIn(ops, i, n, s)
      ensures AllOlder(d, cutoff) ==> ops[i].now < cutoff
    {
      TouchLasts(map[], ops, i, n, s);
      TouchedIsYoung(d, ops[i].now, cutoff);
    }
  }

  lemma TouchedIsYoung(d: Dir, t: Time, cutoff: Time)
    requires TouchedSince(d, t)
    ensures AllOlder(d, cutoff) ==> t < cutoff
  {
  }

  lemma UnclaimedIsDead(ops: seq<Op>, n: nat, s: Session, now: Time)
    requires n <= |ops| && s in Queue(ops, n)
    ensures Unclaimed(ops, n, s, now) <==> !HasLiveClaim(Queue(ops, n)[s], now)
  {
    hide HasLiveClaim, ClaimOf, Grants, Unreleased, Stays;
    LiveByClaims(Queue(ops, n), s, now);
    forall j: nat | Standing(ops, j, n) && ops[j].session == s
      ensures (ops[j].Acquire? || ops[j].TornClaim?) && ClaimOf(Queue(ops, n), s, ops[j].key) == Some(ClaimBy(ops[j]))
    {
      StandingIsOnDisk(ops, j, n);
      ClaimsIs(ops, j);
    }
    forall key | ClaimOf(Queue(ops, n), s, key).Some? && !Expired(ClaimOf(Queue(ops, n), s, key).value, now, CLAIM_TTL_MS)
      ensures !Unclaimed(ops, n, s, now)
    {
      var j := OnDiskIsStanding(ops, n, s, key);
      ClaimsIs(ops, j);
    }
  }

  /** A sweep removes a directory exactly if it is idle: every operation that wrote in it since it was made came
      before the cutoff, and no claim in it stands unexpired. */
  lemma SweepTakesExactlyIdle(ops: seq<Op>, k: nat, s: Session)
    requires LockOrder(ops) && k < |ops| && ops[k].Sweep? && s in Queue(ops, k)
    ensures s !in Queue(ops, k + 1) <==> Quiet(ops, k, s, ops[k].now - ops[k].staleDays * DAY_MS) && Unclaimed(ops, k, s, ops[k].now)
  {
    hide Quiet, Unclaimed, AllOlder, HasLiveClaim;
    QuietIsOlder(ops, k, s, ops[k].now - ops[k].staleDays * DAY_MS);
    UnclaimedIsDead(ops, k, s, ops[k].now);
  }
}
