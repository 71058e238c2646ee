// Any interleaving of queue operations by any number of processes (pendingReminders.ts).
module PendingRuns {
  import opened Wrappers
  import opened PendingQueue

  datatype Op =
    | Acquire(session: Session, key: Key, token: Token, now: Time)
    | TornClaim(session: Session, key: Key, now: Time)   // a process that died while writing its claim
    | Release(session: Session, key: Key, token: Token, now: Time)
    | Publish(session: Session, key: Key, text: string, raced: bool, now: Time)
    | Append(session: Session, id: string, text: string, now: Time)
    | Drain(session: Session, now: Time)
    | Sweep(staleDays: nat, now: Time)

  function Step(q: Sessions, op: Op): Sessions {
    match op
    case Acquire(s, key, token, now) => Acquired(q, s, key, Claim(Some(token), now), now, CLAIM_TTL_MS)
    case TornClaim(s, key, now) => Acquired(q, s, key, Claim(None, now), now, CLAIM_TTL_MS)
    case Release(s, key, token, now) => Released(q, s, key, token, now)
    case Publish(s, key, text, raced, now) => Published(q, s, key, text, raced, now)
    case Append(s, id, text, now) => Appended(q, s, id, text, now)
    case Drain(s, now) => Drained(q, s, now)
    case Sweep(staleDays, now) => Swept(q, now, staleDays)
  }

  function After(q: Sessions, ops: seq<Op>, n: nat): Sessions
    requires n <= |ops|
  {
    if n == 0 then q else Step(After(q, ops, n - 1), ops[n - 1])
  }

  // Operations are listed in the order of the lock. All but the sweep read their clock under it; a sweep
  // may have read its own long before it got the lock.
  ghost predicate LockOrder(ops: seq<Op>) {
    forall i, j :: 0 <= i < j < |ops| && !ops[j].Sweep? ==> ops[i].now <= ops[j].now
  }

  ghost predicate AllBy(ops: seq<Op>, from: nat, to: nat, now: Time) {
    forall k :: from <= k < to && k < |ops| ==> ops[k].now <= now
  }

  // ---- Claims ----

  predicate Won(q: Sessions, ops: seq<Op>, i: nat)
    requires i < |ops|
  {
    ops[i].Acquire? && Grants(After(q, ops, i), ops[i].session, ops[i].key, ops[i].now, CLAIM_TTL_MS)
  }

  // The i-th operation won a claim, and n operations in, its owner has not released it.
  ghost predicate Holds(q: Sessions, ops: seq<Op>, i: nat, n: nat) {
    && i < n <= |ops| && Won(q, ops, i)
    && forall k :: i < k < n && ops[k].Release? ==> !(ops[k].session == ops[i].session && ops[k].key == ops[i].key && ops[k].token == ops[i].token)
  }

  predicate Unexpired(op: Op, now: Time) {
    now - op.now <= CLAIM_TTL_MS
  }

  // No operation but its owner's release takes a claim away before it expires.
  lemma StepKeepsClaim(q: Sessions, op: Op, s: Session, key: Key, claim: Claim)
    requires ClaimOf(q, s, key) == Some(claim) && !Expired(claim, op.now, CLAIM_TTL_MS)
    requires op.Release? ==> !(op.session == s && op.key == key && claim.owner == Some(op.token))
    ensures ClaimOf(Step(q, op), s, key) == Some(claim)
  {
  }

  lemma {:induction false} HeldIsOnDisk(q: Sessions, ops: seq<Op>, i: nat, n: nat, now: Time)
    requires Holds(q, ops, i, n) && Unexpired(ops[i], now) && AllBy(ops, i, n, now)
    ensures ClaimOf(After(q, ops, n), ops[i].session, ops[i].key) == Some(Claim(Some(ops[i].token), ops[i].now))
    decreases n
  {
    hide Step;
    if n == i + 1 {
      GrantWrites(After(q, ops, i), ops[i]);
    } else {
      HeldIsOnDisk(q, ops, i, n - 1, now);
      StepKeepsClaim(After(q, ops, n - 1), ops[n - 1], ops[i].session, ops[i].key, Claim(Some(ops[i].token), ops[i].now));
    }
  }

  lemma GrantWrites(q: Sessions, op: Op)
    requires op.Acquire? && Grants(q, op.session, op.key, op.now, CLAIM_TTL_MS)
    ensures ClaimOf(Step(q, op), op.session, op.key) == Some(Claim(Some(op.token), op.now))
  {
  }

  // Two claims of one session and key that are neither released nor expired are the same claim.
  lemma OneLiveClaim(q: Sessions, ops: seq<Op>, i: nat, j: nat, n: nat, now: Time)
    requires LockOrder(ops) && Holds(q, ops, i, n) && Holds(q, ops, j, n) && AllBy(ops, 0, n, now)
    requires ops[i].session == ops[j].session && ops[i].key == ops[j].key
    requires Unexpired(ops[i], now) && Unexpired(ops[j], now)
    ensures i == j
  {
    if i < j {
      NoSecondGrant(q, ops, i, j);
    } else if j < i {
      NoSecondGrant(q, ops, j, i);
    }
  }

  // A key is granted again only after its owner released the claim or the claim expired.
  lemma NoSecondGrant(q: Sessions, ops: seq<Op>, i: nat, m: nat)
    requires LockOrder(ops) && i < m < |ops| && Won(q, ops, i) && Won(q, ops, m)
    requires ops[i].session == ops[m].session && ops[i].key == ops[m].key
    ensures !Unexpired(ops[i], ops[m].now)
      || exists k :: i < k < m && ops[k] == Release(ops[i].session, ops[i].key, ops[i].token, ops[k].now)
  {
    if Holds(q, ops, i, m) && Unexpired(ops[i], ops[m].now) {
      HeldIsOnDisk(q, ops, i, m, ops[m].now);
    }
  }

  // Once another owner has won a claim, no claim of it names the old owner, as long as its token is not used again.
  lemma {:induction false} OldOwnerGone(q: Sessions, ops: seq<Op>, m: nat, n: nat, token: Token)
    requires m < n <= |ops| && Won(q, ops, m) && ops[m].token != token && NotReused(ops, m, n, token)
    ensures var c := ClaimOf(After(q, ops, n), ops[m].session, ops[m].key); c.None? || c.value.owner != Some(token)
    decreases n
  {
    hide Step;
    if n == m + 1 {
      GrantWrites(After(q, ops, m), ops[m]);
    } else {
      OldOwnerGone(q, ops, m, n - 1, token);
      OtherOwnersStay(After(q, ops, n - 1), ops[n - 1], ops[m].session, ops[m].key, token);
    }
  }

  ghost predicate NotReused(ops: seq<Op>, from: nat, to: nat, token: Token) {
    forall k :: from < k < to && k < |ops| && ops[k].Acquire? ==> ops[k].token != token
  }

  lemma OtherOwnersStay(q: Sessions, op: Op, s: Session, key: Key, token: Token)
    requires ClaimOf(q, s, key).None? || ClaimOf(q, s, key).value.owner != Some(token)
    requires op.Acquire? ==> op.token != token
    ensures ClaimOf(Step(q, op), s, key).None? || ClaimOf(Step(q, op), s, key).value.owner != Some(token)
  {
  }

  function Without(ops: seq<Op>, r: nat): seq<Op>
    requires r < |ops|
  {
    ops[..r] + ops[r + 1..]
  }

  lemma {:induction false} SamePrefix(q: Sessions, ops: seq<Op>, other: seq<Op>, n: nat)
    requires n <= |ops| && n <= |other| && ops[..n] == other[..n]
    ensures After(q, ops, n) == After(q, other, n)
    decreases n
  {
    hide Step;
    if n > 0 {
      assert ops[n - 1] == ops[..n][n - 1] && other[n - 1] == other[..n][n - 1];
      assert ops[..n - 1] == ops[..n][..n - 1] && other[..n - 1] == other[..n][..n - 1];
      SamePrefix(q, ops, other, n - 1);
    }
  }

  // An owner that lost its claim to another may still release it, at any later time: whatever comes before and
  // after, the queue is at every point what it would be without that release.
  lemma {:induction false} LateRelease(q: Sessions, ops: seq<Op>, m: nat, r: nat, n: nat)
    requires m < r < n <= |ops| && Won(q, ops, m)
    requires ops[r].Release? && ops[r].session == ops[m].session && ops[r].key == ops[m].key
    requires ops[r].token != ops[m].token && NotReused(ops, m, r, ops[r].token)
    ensures After(q, ops, n) == After(q, Without(ops, r), n - 1)
    decreases n
  {
    hide Step;
    var other := Without(ops, r);
    if n == r + 1 {
      OldOwnerGone(q, ops, m, r, ops[r].token);
      ForeignReleaseIsNothing(After(q, ops, r), ops[r]);
      SamePrefix(q, ops, other, r);
    } else {
      LateRelease(q, ops, m, r, n - 1);
      assert other[n - 2] == ops[n - 1];
    }
  }

  lemma ForeignReleaseIsNothing(q: Sessions, op: Op)
    requires op.Release?
    requires ClaimOf(q, op.session, op.key).None? || ClaimOf(q, op.session, op.key).value.owner != Some(op.token)
    ensures Step(q, op) == q
  {
  }

  // ---- Reminders ----

  datatype Deposit = Deposit(session: Session, name: Name, file: File)

  // The file an operation reports as published or appended.
  function Deposits(q: Sessions, op: Op): Option<Deposit> {
    match op
    case Publish(s, key, text, _, now) =>
      if ValidKey(key) && FileOf(q, s, Ready(key)).None? then Some(Deposit(s, Ready(key), File(text, now))) else None
    case Append(s, id, text, now) =>
      if FileOf(q, s, Legacy(id)).None? then Some(Deposit(s, Legacy(id), File(text, now))) else None
    case _ => None
  }

  // An operation that removes a file: a drain of its session, which returns it, or a sweep with a later cutoff.
  predicate Removes(op: Op, d: Deposit) {
    || (op.Drain? && op.session == d.session)
    || (op.Sweep? && d.file.changed < op.now - op.staleDays * DAY_MS)
  }

  lemma DepositWrites(q: Sessions, op: Op)
    requires Deposits(q, op).Some?
    ensures var d := Deposits(q, op).value; FileOf(Step(q, op), d.session, d.name) == Some(d.file)
  {
  }

  // Every operation leaves a file as it is, or removes it.
  lemma StepKeepsFile(q: Sessions, op: Op, d: Deposit)
    requires FileOf(q, d.session, d.name) == Some(d.file)
    ensures FileOf(Step(q, op), d.session, d.name) == Some(d.file)
      || (Removes(op, d) && FileOf(Step(q, op), d.session, d.name) == None)
    ensures op.Drain? && op.session == d.session ==> FileOf(Step(q, op), d.session, d.name) == None
  {
  }

  ghost predicate Queued(q: Sessions, ops: seq<Op>, from: nat, to: nat, d: Deposit)
    requires to <= |ops|
  {
    forall m :: from <= m <= to ==> FileOf(After(q, ops, m), d.session, d.name) == Some(d.file)
  }

  // After the i-th operation the file was there, unchanged, up to the k-th operation, which removed it.
  ghost predicate RemovedAt(q: Sessions, ops: seq<Op>, i: nat, k: nat, d: Deposit)
    requires k < |ops|
  {
    && Queued(q, ops, i + 1, k, d) && Removes(ops[k], d)
    && FileOf(After(q, ops, k + 1), d.session, d.name) == None
    && (forall m :: i < m < k ==> !(ops[m].Drain? && ops[m].session == d.session))
  }

  // A reported reminder stays in the queue unchanged until the first drain of its session, which returns
  // it, or until a sweep whose cutoff lies after it.
  lemma {:induction false} ReminderFate(q: Sessions, ops: seq<Op>, i: nat, n: nat)
    requires i < n <= |ops| && Deposits(After(q, ops, i), ops[i]).Some?
    ensures var d := Deposits(After(q, ops, i), ops[i]).value;
      || (Queued(q, ops, i + 1, n, d) && forall m :: i < m < n ==> !(ops[m].Drain? && ops[m].session == d.session))
      || (exists k :: i < k < n && RemovedAt(q, ops, i, k, d))
    decreases n
  {
    hide Step, FileOf, Removes;
    var d := Deposits(After(q, ops, i), ops[i]).value;
    if n == i + 1 {
      DepositWrites(After(q, ops, i), ops[i]);
    } else {
      ReminderFate(q, ops, i, n - 1);
      if Queued(q, ops, i + 1, n - 1, d) && forall m :: i < m < n - 1 ==> !(ops[m].Drain? && ops[m].session == d.session) {
        StepKeepsFile(After(q, ops, n - 1), ops[n - 1], d);
        if FileOf(After(q, ops, n), d.session, d.name) == None {
          assert RemovedAt(q, ops, i, n - 1, d);
        }
      }
    }
  }

  // Between two reported publishes of one name its file was removed.
  lemma RemovedBetween(q: Sessions, ops: seq<Op>, i: nat, j: nat)
    requires i < j < |ops|
    requires Deposits(After(q, ops, i), ops[i]).Some? && Deposits(After(q, ops, j), ops[j]).Some?
    requires var a, b := Deposits(After(q, ops, i), ops[i]).value, Deposits(After(q, ops, j), ops[j]).value;
      a.session == b.session && a.name == b.name
    ensures exists k :: i < k < j && RemovedAt(q, ops, i, k, Deposits(After(q, ops, i), ops[i]).value)
  {
    hide Step, RemovedAt;
    ReminderFate(q, ops, i, j);
    assert FileOf(After(q, ops, j), Deposits(After(q, ops, i), ops[i]).value.session, Deposits(After(q, ops, i), ops[i]).value.name) == None;
  }

  // The k-th operation is a drain that returns what the i-th operation deposited.
  ghost predicate Returns(q: Sessions, ops: seq<Op>, i: nat, k: nat, d: Deposit) {
    i < k < |ops| && ops[k].Drain? && ops[k].session == d.session && Queued(q, ops, i + 1, k, d)
  }

  // Over a whole history a deposit is returned by at most one drain, at one position of what it returns; and
  // it is returned if its session is drained and no sweep with a later cutoff came first.
  lemma DrainReturnsOnce(q: Sessions, ops: seq<Op>, i: nat, n: nat)
    requires i < n <= |ops| && Deposits(After(q, ops, i), ops[i]).Some?
    ensures var d := Deposits(After(q, ops, i), ops[i]).value;
      && (forall k, l :: Returns(q, ops, i, k, d) && Returns(q, ops, i, l, d) ==> k == l)
      && ((exists m :: i < m < n && ops[m].Drain? && ops[m].session == d.session) && (forall m :: i < m < n && ops[m].Sweep? ==> !Removes(ops[m], d)) ==>
            exists k: nat :: k < n && Returns(q, ops, i, k, d))
      && (forall k, names :: Returns(q, ops, i, k, d) && d.session in After(q, ops, k) && DrainOrder(After(q, ops, k)[d.session].files, names) ==>
            OncePlaced(names, d.name))
  {
    hide Step, Removes, DrainOrder;
    var d := Deposits(After(q, ops, i), ops[i]).value;
    forall k, l | Returns(q, ops, i, k, d) && Returns(q, ops, i, l, d)
      ensures k == l
    {
      if k < l {
        DrainEmpties(q, ops, i, k, l, d);
      } else if l < k {
        DrainEmpties(q, ops, i, l, k, d);
      }
    }
    ReminderFate(q, ops, i, n);
    if (exists m :: i < m < n && ops[m].Drain? && ops[m].session == d.session) && (forall m :: i < m < n && ops[m].Sweep? ==> !Removes(ops[m], d)) {
      var k :| i < k < n && RemovedAt(q, ops, i, k, d);
      RemoverIs(ops[k], d);
      assert Returns(q, ops, i, k, d);
    }
    forall k, names | Returns(q, ops, i, k, d) && d.session in After(q, ops, k) && DrainOrder(After(q, ops, k)[d.session].files, names)
      ensures OncePlaced(names, d.name)
    {
      PlacedOnce(After(q, ops, k)[d.session].files, names, d.name);
    }
  }

  ghost predicate OncePlaced(names: seq<Name>, name: Name) {
    exists i :: 0 <= i < |names| && names[i] == name && forall j :: 0 <= j < |names| && names[j] == name ==> j == i
  }

  lemma PlacedOnce(files: map<Name, File>, names: seq<Name>, name: Name)
    requires DrainOrder(files, names) && name in files
    ensures OncePlaced(names, name)
  {
    var i :| 0 <= i < |names| && names[i] == name;
    assert forall j :: 0 <= j < |names| && names[j] == name ==> j == i;
  }

  lemma RemoverIs(op: Op, d: Deposit)
    requires Removes(op, d) && !op.Sweep?
    ensures op.Drain? && op.session == d.session
  {
  }

  // A drained file is not there for a later drain.
  lemma DrainEmpties(q: Sessions, ops: seq<Op>, i: nat, k: nat, l: nat, d: Deposit)
    requires k < l && Returns(q, ops, i, k, d)
    ensures !Returns(q, ops, i, l, d)
  {
    hide Step;
    assert FileOf(After(q, ops, k), d.session, d.name) == Some(d.file);
    StepKeepsFile(After(q, ops, k), ops[k], d);
    assert FileOf(After(q, ops, k + 1), d.session, d.name) == None;
  }

  // ---- Sweeps ----

  // Some time the sweep looks at is `t` or later.
  predicate TouchedSince(dir: Dir, t: Time) {
    dir.changed >= t || (dir.claims.Some? && dir.claims.value.changed >= t)
  }

  // The i-th operation, no sweep, wrote in the directory of the session.
  predicate Touches(q: Sessions, ops: seq<Op>, i: nat, s: Session)
    requires i < |ops|
  {
    && !ops[i].Sweep? && s in After(q, ops, i + 1)
    && (s !in After(q, ops, i) || After(q, ops, i + 1)[s] != After(q, ops, i)[s])
  }

  lemma TouchLeavesTime(q: Sessions, op: Op, s: Session)
    requires !op.Sweep? && s in Step(q, op) && (s !in q || Step(q, op)[s] != q[s])
    ensures TouchedSince(Step(q, op)[s], op.now)
  {
  }

  lemma TimeStays(q: Sessions, op: Op, s: Session, t: Time)
    requires s in q && TouchedSince(q[s], t) && (op.Sweep? || op.now >= t) && s in Step(q, op)
    ensures TouchedSince(Step(q, op)[s], t)
  {
  }

  ghost predicate Stays(q: Sessions, ops: seq<Op>, from: nat, to: nat, s: Session)
    requires to <= |ops|
  {
    forall m :: from <= m <= to ==> s in After(q, ops, m)
  }

  lemma {:induction false} TouchLasts(q: Sessions, ops: seq<Op>, i: nat, n: nat, s: Session)
    requires LockOrder(ops) && i < n <= |ops| && Touches(q, ops, i, s) && Stays(q, ops, i + 1, n, s)
    ensures s in After(q, ops, n) && TouchedSince(After(q, ops, n)[s], ops[i].now)
    decreases n
  {
    hide Step, TouchedSince;
    if n == i + 1 {
      TouchLeavesTime(After(q, ops, i), ops[i], s);
    } else {
      TouchLasts(q, ops, i, n - 1, s);
      assert After(q, ops, n) == Step(After(q, ops, n - 1), ops[n - 1]);
      TimeStays(After(q, ops, n - 1), ops[n - 1], s, ops[i].now);
    }
  }

  // Only a sweep ever removes a directory, and only one that is idle: every operation that wrote in it since
  // it was made came before the cutoff, and every claim won in it was released or is expired by the sweep's clock.
  lemma SweepTakesOnlyIdle(q: Sessions, ops: seq<Op>, k: nat, s: Session)
    requires LockOrder(ops) && k < |ops| && s in After(q, ops, k) && s !in After(q, ops, k + 1)
    ensures ops[k].Sweep?
    ensures forall i :: 0 <= i < k && Touches(q, ops, i, s) && Stays(q, ops, i + 1, k, s) ==> ops[i].now < ops[k].now - ops[k].staleDays * DAY_MS
    ensures forall i :: 0 <= i < k && Holds(q, ops, i, k) && ops[i].session == s && AllBy(ops, i, k, ops[k].now) ==> !Unexpired(ops[i], ops[k].now)
  {
    hide Touches, Stays, AllBy;
    OnlySweepsRemove(After(q, ops, k), ops[k], s);
    forall i | 0 <= i < k && Touches(q, ops, i, s) && Stays(q, ops, i + 1, k, s)
      ensures ops[i].now < ops[k].now - ops[k].staleDays * DAY_MS
    {
      TouchLasts(q, ops, i, k, s);
    }
    forall i | 0 <= i < k && Holds(q, ops, i, k) && ops[i].session == s && AllBy(ops, i, k, ops[k].now)
      ensures !Unexpired(ops[i], ops[k].now)
    {
      if Unexpired(ops[i], ops[k].now) {
        HeldIsOnDisk(q, ops, i, k, ops[k].now);
        LiveClaimIsLive(After(q, ops, k)[s], ops[i].key, Claim(Some(ops[i].token), ops[i].now), ops[k].now);
      }
    }
  }

  lemma OnlySweepsRemove(q: Sessions, op: Op, s: Session)
    requires s in q && s !in Step(q, op)
    ensures op.Sweep? && Sweepable(q[s], op.now, op.staleDays)
  {
  }

  lemma LiveClaimIsLive(dir: Dir, key: Key, claim: Claim, now: Time)
    requires dir.claims.Some? && key in dir.claims.value.rows && dir.claims.value.rows[key] == claim && !Expired(claim, now, CLAIM_TTL_MS)
    ensures HasLiveClaim(dir, now)
  {
  }
}
