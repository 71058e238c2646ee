// The queue of pending reminders (pendingReminders.ts). Every operation runs under the queue lock, so each is
// one step on the tree of session directories.
module PendingQueue {
  import opened Wrappers

  type Session = string
  type Key = string
  type Token = nat
  type Time = int

  const CLAIM_TTL_MS: Time := 5 * 60 * 1000
  const DAY_MS: Time := 24 * 60 * 60 * 1000

  datatype Name = Ready(key: Key) | Legacy(id: string)
  datatype File = File(text: string, changed: Time)
  // A claim whose writer died before writing names no owner; its file time stands for its creation.
  datatype Claim = Claim(owner: Option<Token>, createdAt: Time)
  datatype Claims = Claims(changed: Time, rows: map<Key, Claim>)
  datatype Dir = Dir(changed: Time, files: map<Name, File>, claims: Option<Claims>)
  type Sessions = map<Session, Dir>

  predicate ValidKey(key: Key) {
    |key| == 64 && forall i :: 0 <= i < |key| ==> 'a' <= key[i] <= 'f' || '0' <= key[i] <= '9'
  }

  function DirOf(q: Sessions, s: Session, now: Time): Dir {
    if s in q then q[s] else Dir(now, map[], None)
  }

  // `mkdir -p` of the session directory and its claims directory.
  function WithClaims(q: Sessions, s: Session, now: Time): (d: Dir)
    ensures d.claims.Some?
  {
    var d := DirOf(q, s, now);
    if d.claims.Some? then d else d.(changed := now, claims := Some(Claims(now, map[])))
  }

  function ClaimOf(q: Sessions, s: Session, key: Key): Option<Claim> {
    if s in q && q[s].claims.Some? && key in q[s].claims.value.rows then Some(q[s].claims.value.rows[key]) else None
  }

  function FileOf(q: Sessions, s: Session, name: Name): Option<File> {
    if s in q && name in q[s].files then Some(q[s].files[name]) else None
  }

  predicate Expired(c: Claim, now: Time, ttl: Time) {
    now - c.createdAt > ttl
  }

  // Whether an acquire at `now` takes the claim.
  predicate Grants(q: Sessions, s: Session, key: Key, now: Time, ttl: Time) {
    && ValidKey(key)
    && FileOf(q, s, Ready(key)).None?
    && (ClaimOf(q, s, key).None? || Expired(ClaimOf(q, s, key).value, now, ttl))
  }

  function WithClaim(q: Sessions, s: Session, key: Key, claim: Claim, now: Time): Sessions {
    var d := WithClaims(q, s, now);
    q[s := d.(claims := Some(Claims(now, d.claims.value.rows[key := claim])))]
  }

  function Acquired(q: Sessions, s: Session, key: Key, claim: Claim, now: Time, ttl: Time): Sessions {
    if Grants(q, s, key, now, ttl) then WithClaim(q, s, key, claim, now)
    else if ValidKey(key) && FileOf(q, s, Ready(key)).None? then q[s := WithClaims(q, s, now)]
    else q
  }

  function Released(q: Sessions, s: Session, key: Key, token: Token, now: Time): Sessions {
    if ClaimOf(q, s, key).None? || ClaimOf(q, s, key).value.owner != Some(token) then q
    else q[s := q[s].(claims := Some(Claims(now, q[s].claims.value.rows - {key})))]
  }

  // `raced`: the ready file appeared between the first look and the lock.
  function Published(q: Sessions, s: Session, key: Key, text: string, raced: bool, now: Time): Sessions {
    if !ValidKey(key) then q
    else if FileOf(q, s, Ready(key)).Some? then
      if raced then q[s := q[s].(changed := now)] else q
    else
      var d := DirOf(q, s, now);
      q[s := d.(changed := now, files := d.files[Ready(key) := File(text, now)])]
  }

  function Appended(q: Sessions, s: Session, id: string, text: string, now: Time): Sessions {
    var d := DirOf(q, s, now);
    if Legacy(id) in d.files then q[s := d] else q[s := d.(changed := now, files := d.files[Legacy(id) := File(text, now)])]
  }

  function Drained(q: Sessions, s: Session, now: Time): Sessions {
    if s in q && q[s].files != map[] then q[s := q[s].(changed := now, files := map[])] else q
  }

  predicate HasLiveClaim(d: Dir, now: Time) {
    d.claims.Some? && exists key :: key in d.claims.value.rows && !Expired(d.claims.value.rows[key], now, CLAIM_TTL_MS)
  }

  // Every time the sweep looks at is older than the cutoff.
  predicate AllOlder(d: Dir, cutoff: Time) {
    && d.changed < cutoff
    && (forall name :: name in d.files ==> d.files[name].changed < cutoff)
    && (d.claims.Some? ==> d.claims.value.changed < cutoff)
  }

  predicate Sweepable(d: Dir, now: Time, staleDays: nat) {
    !HasLiveClaim(d, now) && AllOlder(d, now - staleDays * DAY_MS)
  }

  function Swept(q: Sessions, now: Time, staleDays: nat): Sessions {
    map s | s in q && !Sweepable(q[s], now, staleDays) :: q[s]
  }

  // The order drained reminders come in: by time, then by an order of the names.
  ghost predicate DrainOrder(files: map<Name, File>, names: seq<Name>) {
    && (forall name :: name in names <==> name in files)
    && (forall i, j :: 0 <= i < j < |names| ==> names[i] != names[j])
    && (forall i, j :: 0 <= i < j < |names| ==> files[names[i]].changed <= files[names[j]].changed)
  }

  class Queue {
    var sessions: Sessions

    constructor ()
      ensures sessions == map[]
    {
      sessions := map[];
    }

    // A claim file that exists is taken over only once it has expired; the second try then creates it.
    method AcquirePendingClaim(s: Session, key: Key, token: Token, now: Time, ttl: Time) returns (r: Result<Option<Token>>)
      modifies this
      ensures r.Err? <==> !ValidKey(key)
      ensures r.Ok? ==> (r.value == if Grants(old(sessions), s, key, now, ttl) then Some(token) else None)
      ensures sessions == Acquired(old(sessions), s, key, Claim(Some(token), now), now, ttl)
    {
      if !ValidKey(key) {
        return Err("pending semantic key is invalid");
      }
      if FileOf(sessions, s, Ready(key)).Some? {
        return Ok(None);
      }
      ghost var q := sessions;
      var d := WithClaims(sessions, s, now);
      sessions := sessions[s := d];
      ClaimSurvivesMkdir(q, s, key, now);
      for attempt := 0 to 2
        invariant s in sessions && sessions[s].claims.Some?
        invariant attempt == 0 ==> sessions == q[s := d]
        invariant attempt == 1 ==>
          && ClaimOf(q, s, key).Some? && Expired(ClaimOf(q, s, key).value, now, ttl)
          && sessions == q[s := d.(claims := Some(Claims(now, d.claims.value.rows - {key})))]
        invariant attempt != 2
      {
        var claims := sessions[s].claims.value;
        if key !in claims.rows {
          ghost var rows := claims.rows;
          sessions := sessions[s := sessions[s].(claims := Some(Claims(now, claims.rows[key := Claim(Some(token), now)])))];
          assert (d.claims.value.rows - {key})[key := Claim(Some(token), now)] == d.claims.value.rows[key := Claim(Some(token), now)];
          return Ok(Some(token));
        }
        if now - claims.rows[key].createdAt <= ttl {
          return Ok(None);
        }
        sessions := sessions[s := sessions[s].(claims := Some(Claims(now, claims.rows - {key})))];
      }
      return Ok(None);
    }

    method ReleasePendingClaim(s: Session, key: Key, token: Token, now: Time)
      modifies this
      ensures sessions == Released(old(sessions), s, key, token, now)
    {
      if s in sessions && sessions[s].claims.Some? && key in sessions[s].claims.value.rows {
        var claims := sessions[s].claims.value;
        if claims.rows[key].owner == Some(token) {
          sessions := sessions[s := sessions[s].(claims := Some(Claims(now, claims.rows - {key})))];
        }
      }
    }

    method PublishPendingReminder(s: Session, key: Key, text: string, raced: bool, now: Time) returns (r: Result<bool>)
      modifies this
      ensures r.Err? <==> !ValidKey(key)
      ensures r.Ok? ==> (r.value <==> FileOf(old(sessions), s, Ready(key)).None?)
      ensures sessions == Published(old(sessions), s, key, text, raced, now)
    {
      if !ValidKey(key) {
        return Err("pending semantic key is invalid");
      }
      var ready := FileOf(sessions, s, Ready(key)).Some?;
      if ready && !raced {
        return Ok(false);
      }
      var d := DirOf(sessions, s, now);
      d := d.(changed := now);
      if !ready {
        d := d.(files := d.files[Ready(key) := File(text, now)]);
      }
      sessions := sessions[s := d];
      return Ok(!ready);
    }

    method AppendPendingReminder(s: Session, id: string, text: string, now: Time) returns (r: Result<()>)
      modifies this
      ensures r.Ok? <==> FileOf(old(sessions), s, Legacy(id)).None?
      ensures sessions == Appended(old(sessions), s, id, text, now)
    {
      var d := DirOf(sessions, s, now);
      sessions := sessions[s := d];
      if Legacy(id) in d.files {
        return Err("EEXIST");
      }
      sessions := sessions[s := d.(changed := now, files := d.files[Legacy(id) := File(text, now)])];
      return Ok(());
    }

    // Every file of the session is read once, in order, and unlinked.
    method DrainPendingReminders(s: Session, now: Time) returns (reminders: seq<string>, ghost names: seq<Name>)
      modifies this
      ensures sessions == Drained(old(sessions), s, now)
      ensures s !in old(sessions) ==> reminders == [] && names == []
      ensures s in old(sessions) ==>
        && var files := old(sessions)[s].files;
        && DrainOrder(files, names) && |reminders| == |names|
        && forall i :: 0 <= i < |names| ==> names[i] in files && reminders[i] == files[names[i]].text
    {
      hide DrainOrder;
      reminders, names := [], [];
      if s !in sessions {
        return;
      }
      ghost var before := sessions;
      var files := sessions[s].files;
      var entries := SortByTime(files);
      EntriesExist(files, entries);
      names := entries;
      for k := 0 to |entries|
        invariant |reminders| == k
        invariant forall i :: 0 <= i < k ==> reminders[i] == files[entries[i]].text
        invariant sessions == AfterUnlinks(before, s, entries[..k], now)
      {
        reminders := reminders + [files[entries[k]].text];
        UnlinkStep(before, s, entries, k, now);
        sessions := sessions[s := sessions[s].(changed := now, files := sessions[s].files - {entries[k]})];
      }
      AllUnlinked(before, s, entries, now);
    }

    method SortByTime(files: map<Name, File>) returns (entries: seq<Name>)
      ensures DrainOrder(files, entries)
    {
      entries := [];
      var left := files.Keys;
      while left != {}
        invariant left <= files.Keys
        invariant forall name :: name in entries <==> name in files && name !in left
        invariant forall i, j :: 0 <= i < j < |entries| ==> entries[i] != entries[j]
        invariant forall i, j :: 0 <= i < j < |entries| ==> files[entries[i]].changed <= files[entries[j]].changed
        invariant forall i, name :: 0 <= i < |entries| && name in left ==> files[entries[i]].changed <= files[name].changed
        decreases left
      {
        var next := Oldest(files, left);
        entries := entries + [next];
        left := left - {next};
      }
    }

    method Oldest(files: map<Name, File>, left: set<Name>) returns (next: Name)
      requires left != {} && left <= files.Keys
      ensures next in left && forall name :: name in left ==> files[next].changed <= files[name].changed
    {
      next :| next in left;
      var rest := left - {next};
      while rest != {}
        invariant rest <= left && next in left
        invariant forall name :: name in left - rest ==> files[next].changed <= files[name].changed
        decreases rest
      {
        var name :| name in rest;
        if files[name].changed < files[next].changed {
          next := name;
        }
        rest := rest - {name};
      }
    }

    method HasNonExpiredPendingClaim(d: Dir, now: Time) returns (live: bool)
      ensures live == HasLiveClaim(d, now)
    {
      if d.claims.None? {
        return false;
      }
      var rows := d.claims.value.rows;
      var left := rows.Keys;
      while left != {}
        invariant left <= rows.Keys
        invariant forall key :: key in rows && key !in left ==> Expired(rows[key], now, CLAIM_TTL_MS)
        decreases left
      {
        var key :| key in left;
        if now - rows[key].createdAt <= CLAIM_TTL_MS {
          return true;
        }
        left := left - {key};
      }
      return false;
    }

    method NewestTime(d: Dir) returns (newest: Time)
      ensures forall cutoff :: newest < cutoff <==> AllOlder(d, cutoff)
    {
      newest := d.changed;
      if d.claims.Some? && d.claims.value.changed > newest {
        newest := d.claims.value.changed;
      }
      var left := d.files.Keys;
      ghost var base := newest;
      while left != {}
        invariant left <= d.files.Keys && newest >= base
        invariant forall name :: name in d.files && name !in left ==> d.files[name].changed <= newest
        invariant newest == base || exists name :: name in d.files && d.files[name].changed == newest
        decreases left
      {
        var name :| name in left;
        if d.files[name].changed > newest {
          newest := d.files[name].changed;
        }
        left := left - {name};
      }
    }

    method CleanupStalePendingDirs(staleDays: nat, now: Time) returns (removed: set<Session>)
      modifies this
      ensures sessions == Swept(old(sessions), now, staleDays)
      ensures removed == old(sessions).Keys - sessions.Keys
    {
      var cutoff := now - staleDays * DAY_MS;
      var left := sessions.Keys;
      ghost var q := sessions;
      removed := {};
      while left != {}
        invariant left <= q.Keys && removed <= q.Keys - left
        invariant forall s :: s in sessions <==> s in q && s !in removed
        invariant forall s :: s in sessions ==> sessions[s] == q[s]
        invariant forall s :: s in q && s !in left ==> (s in removed <==> Sweepable(q[s], now, staleDays))
        decreases left
      {
        var s :| s in left;
        left := left - {s};
        var live := HasNonExpiredPendingClaim(sessions[s], now);
        if !live {
          var newest := NewestTime(sessions[s]);
          if newest < cutoff {
            sessions := sessions - {s};
            removed := removed + {s};
          }
        }
      }
    }
  }

  lemma ClaimSurvivesMkdir(q: Sessions, s: Session, key: Key, now: Time)
    ensures var after := q[s := WithClaims(q, s, now)]; ClaimOf(after, s, key) == ClaimOf(q, s, key)
  {
  }

  // The queue after the named files of a session were unlinked, one after the other.
  ghost function AfterUnlinks(q: Sessions, s: Session, names: seq<Name>, now: Time): (r: Sessions)
    requires s in q
    ensures s in r
  {
    if names == [] then q else q[s := q[s].(changed := now, files := q[s].files - Names(names))]
  }

  ghost function Names(names: seq<Name>): set<Name> {
    set name | name in names
  }

  lemma UnlinkStep(q: Sessions, s: Session, names: seq<Name>, k: nat, now: Time)
    requires s in q && k < |names|
    ensures var mid := AfterUnlinks(q, s, names[..k], now);
      AfterUnlinks(q, s, names[..k + 1], now) == mid[s := mid[s].(changed := now, files := mid[s].files - {names[k]})]
  {
    assert names[..k + 1] == names[..k] + [names[k]];
    assert Names(names[..k + 1]) == Names(names[..k]) + {names[k]};
    assert q[s].files - Names(names[..k + 1]) == q[s].files - Names(names[..k]) - {names[k]};
    assert names[..0] == [] && Names([]) == {};
    assert q[s].files - {} == q[s].files;
  }

  lemma EntriesExist(files: map<Name, File>, names: seq<Name>)
    requires DrainOrder(files, names)
    ensures forall i :: 0 <= i < |names| ==> names[i] in files
  {
  }

  lemma AllUnlinked(q: Sessions, s: Session, names: seq<Name>, now: Time)
    requires s in q && DrainOrder(q[s].files, names)
    ensures AfterUnlinks(q, s, names[..|names|], now) == Drained(q, s, now)
  {
    assert names[..|names|] == names;
    if names == [] {
      assert q[s].files == map[];
    } else {
      assert names[0] in q[s].files;
      assert q[s].files - Names(names) == map[];
    }
  }
}
