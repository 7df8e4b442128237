/** API keys and their audit ledger: safenestt/security/api_keys.py, and the key check that
    safenestt/persistence/migrate.py repeats in SQL.

    Argon2 verification is idealised: a stored hash accepts the key it was made from and no
    other, so a row carries that key (`secret`). The SHA-256 fingerprint is a parameter about
    which nothing is assumed; its column is unique. Rows are never deleted, so a key's id is
    its position in the table. */
module ApiKeys {
  import opened Basics

  datatype KeyRow = KeyRow(
    secret: string, fingerprint: string, tenant: string, active: bool, revoked: bool,
    revokedAt: Option<int>, expiresAt: Option<int>, lastUsedAt: Option<int>, useCount: nat)

  datatype Action =
    | Create | Revoke | CleanupExpired
    | ValidateSuccess | ValidateRevoked | ValidateExpired | ValidateInactive

  datatype AuditRow = AuditRow(keyId: nat, action: Action, actor: string)

  datatype KeyStore = KeyStore(keys: seq<KeyRow>, audit: seq<AuditRow>)
  {
    function Logged(id: nat, action: Action, actor: Option<string>): KeyStore {
      this.(audit := audit + [AuditRow(id, action, if actor.None? || actor.value == "" then "system" else actor.value)])
    }
  }

  datatype ExpiryArgument = NoExpiry | Malformed | ExpiresAt(at: int)

  datatype Answer =
    | Created(fingerprint: string)
    | InvalidExpiry
    | FingerprintTaken
    | Revoked(found: bool)
    | Accepted(tenant: string, fingerprint: string)
    | Refused(why: Action)
    | NotFound
    | Cleaned(count: nat)
    | RotationRefused
    // the old key is revoked, and creating the new one raised
    | RotationStranded

  datatype Op =
    | DoCreate(secret: string, tenant: string, expiry: ExpiryArgument, actor: Option<string>)
    | DoRevoke(secret: string, now: int, actor: Option<string>)
    | DoValidate(secret: string, now: int, actor: Option<string>)
    | DoRotate(secret: string, tenant: string, replacement: string, now: int, actor: Option<string>)
    | DoCleanup(now: int)

  // The first row at or after i that verifies the key (among active rows only, if asked).
  function Find(keys: seq<KeyRow>, secret: string, activeOnly: bool, i: nat): (r: nat)
    requires i <= |keys|
    ensures i <= r <= |keys|
    ensures r < |keys| ==> keys[r].secret == secret && (activeOnly ==> keys[r].active)
    ensures forall j :: i <= j < r ==> !(keys[j].secret == secret && (activeOnly ==> keys[j].active))
    decreases |keys| - i
  {
    if i == |keys| || (keys[i].secret == secret && (activeOnly ==> keys[i].active)) then i
    else Find(keys, secret, activeOnly, i + 1)
  }

  predicate Taken(keys: seq<KeyRow>, fingerprint: string) {
    exists i :: 0 <= i < |keys| && keys[i].fingerprint == fingerprint
  }

  function AfterCreate(
    fp: string -> string, s: KeyStore, secret: string, tenant: string, expiry: ExpiryArgument,
    actor: Option<string>): (KeyStore, Answer)
  {
    if expiry.Malformed? then (s, InvalidExpiry)
    else if Taken(s.keys, fp(secret)) then (s, FingerprintTaken)
    else
      var row := KeyRow(secret, fp(secret), tenant, true, false, None,
                        if expiry.ExpiresAt? then Some(expiry.at) else None, None, 0);
      (KeyStore(s.keys + [row], s.audit).Logged(|s.keys|, Create, actor), Created(fp(secret)))
  }

  function RevokeRow(s: KeyStore, i: nat, now: int, actor: Option<string>): (KeyStore, Answer)
    requires i <= |s.keys|
  {
    if i == |s.keys| then (s, Revoked(false))
    else
      var row := s.keys[i].(revoked := true, revokedAt := Some(now), active := false);
      (KeyStore(s.keys[i := row], s.audit).Logged(i, Revoke, actor), Revoked(true))
  }

  function AfterRevoke(s: KeyStore, secret: string, now: int, actor: Option<string>): (KeyStore, Answer) {
    RevokeRow(s, Find(s.keys, secret, true, 0), now, actor)
  }

  // Why a matching key is turned away, checked in this order.
  function Refusal(row: KeyRow, now: int): Option<Action> {
    if row.revoked then Some(ValidateRevoked)
    else if row.expiresAt.Some? && now > row.expiresAt.value then Some(ValidateExpired)
    else if !row.active then Some(ValidateInactive)
    else None
  }

  function ValidateRow(s: KeyStore, i: nat, fingerprint: string, now: int, actor: Option<string>): (KeyStore, Answer)
    requires i <= |s.keys|
  {
    if i == |s.keys| then (s, NotFound)
    else
      var row := s.keys[i];
      match Refusal(row, now)
      case Some(why) => (s.Logged(i, why, actor), Refused(why))
      case None =>
        (KeyStore(s.keys[i := row.(lastUsedAt := Some(now), useCount := row.useCount + 1)], s.audit)
           .Logged(i, ValidateSuccess, actor),
         Accepted(row.tenant, fingerprint))
  }

  function AfterValidate(
    fp: string -> string, s: KeyStore, secret: string, now: int, actor: Option<string>): (KeyStore, Answer)
  {
    ValidateRow(s, Find(s.keys, secret, false, 0), fp(secret), now, actor)
  }

  function AfterRotate(
    fp: string -> string, s: KeyStore, secret: string, tenant: string, replacement: string, now: int,
    actor: Option<string>): (KeyStore, Answer)
  {
    var (checked, answer) := AfterValidate(fp, s, secret, now, actor);
    if !answer.Accepted? then (checked, RotationRefused)
    else
      var revoked := AfterRevoke(checked, secret, now, actor).0;
      var (end, created) := AfterCreate(fp, revoked, replacement, tenant, NoExpiry, actor);
      (end, if created.Created? then created else RotationStranded)
  }

  predicate Due(row: KeyRow, now: int) {
    row.active && row.expiresAt.Some? && row.expiresAt.value < now
  }

  // Clean the rows from i on; the answer counts them.
  function CleanFrom(s: KeyStore, i: nat, now: int, count: nat): (KeyStore, Answer)
    requires i <= |s.keys|
    decreases |s.keys| - i
  {
    if i == |s.keys| then (s, Cleaned(count))
    else if Due(s.keys[i], now) then
      var next := KeyStore(s.keys[i := s.keys[i].(active := false)], s.audit).Logged(i, CleanupExpired, None);
      CleanFrom(next, i + 1, now, count + 1)
    else CleanFrom(s, i + 1, now, count)
  }

  function Apply(fp: string -> string, s: KeyStore, op: Op): (KeyStore, Answer) {
    match op
    case DoCreate(secret, tenant, expiry, actor) => AfterCreate(fp, s, secret, tenant, expiry, actor)
    case DoRevoke(secret, now, actor) => AfterRevoke(s, secret, now, actor)
    case DoValidate(secret, now, actor) => AfterValidate(fp, s, secret, now, actor)
    case DoRotate(secret, tenant, replacement, now, actor) =>
      AfterRotate(fp, s, secret, tenant, replacement, now, actor)
    case DoCleanup(now) => CleanFrom(s, 0, now, 0)
  }

  function Run(fp: string -> string, s: KeyStore, ops: seq<Op>): KeyStore
    decreases |ops|
  {
    if ops == [] then s else Run(fp, Apply(fp, s, ops[0]).0, ops[1..])
  }

  const Empty := KeyStore([], [])

  // establish_tenant_context counts the rows that meet this condition.
  predicate SqlLive(row: KeyRow, tenant: string, fingerprint: string, now: int) {
    row.fingerprint == fingerprint && row.tenant == tenant && row.active && !row.revoked
    && (row.expiresAt.None? || row.expiresAt.value > now)
  }

  predicate SqlAccepts(keys: seq<KeyRow>, tenant: string, fingerprint: string, now: int) {
    exists i :: 0 <= i < |keys| && SqlLive(keys[i], tenant, fingerprint, now)
  }

  class APIKeyStore {
    const fp: string -> string
    var keys: seq<KeyRow>
    var audit: seq<AuditRow>

    constructor (fp: string -> string)
      ensures this.fp == fp && State() == Empty
    {
      this.fp := fp;
      keys, audit := [], [];
    }

    ghost function State(): KeyStore
      reads this
    {
      KeyStore(keys, audit)
    }

    method RecordAudit(id: nat, action: Action, actor: Option<string>)
      modifies this`audit
      ensures State() == old(State()).Logged(id, action, actor)
    {
      audit := audit + [AuditRow(id, action, if actor.None? || actor.value == "" then "system" else actor.value)];
    }

    method CreateKey(secret: string, tenant: string, expiry: ExpiryArgument, actor: Option<string>) returns (a: Answer)
      modifies this
      ensures (State(), a) == AfterCreate(fp, old(State()), secret, tenant, expiry, actor)
    {
      var parsed := None;
      if expiry.Malformed? {
        return InvalidExpiry;
      } else if expiry.ExpiresAt? {
        parsed := Some(expiry.at);
      }
      if exists i :: 0 <= i < |keys| && keys[i].fingerprint == fp(secret) {
        return FingerprintTaken;
      }
      keys := keys + [KeyRow(secret, fp(secret), tenant, true, false, None, parsed, None, 0)];
      RecordAudit(|keys| - 1, Create, actor);
      return Created(fp(secret));
    }

    method RevokeKey(secret: string, now: int, actor: Option<string>) returns (a: Answer)
      modifies this
      ensures (State(), a) == AfterRevoke(old(State()), secret, now, actor)
    {
      var i := 0;
      while i < |keys|
        invariant 0 <= i <= |keys|
        invariant keys == old(keys) && audit == old(audit)
        invariant Find(keys, secret, true, 0) == Find(keys, secret, true, i)
      {
        if keys[i].active && keys[i].secret == secret {
          keys := keys[i := keys[i].(revoked := true, revokedAt := Some(now), active := false)];
          RecordAudit(i, Revoke, actor);
          return Revoked(true);
        }
        i := i + 1;
      }
      return Revoked(false);
    }

    method ValidateKey(secret: string, now: int, actor: Option<string>) returns (a: Answer)
      modifies this
      ensures (State(), a) == AfterValidate(fp, old(State()), secret, now, actor)
    {
      var i := 0;
      while i < |keys|
        invariant 0 <= i <= |keys|
        invariant keys == old(keys) && audit == old(audit)
        invariant Find(keys, secret, false, 0) == Find(keys, secret, false, i)
      {
        var row := keys[i];
        if row.secret == secret {
          if row.revoked {
            RecordAudit(i, ValidateRevoked, actor);
            return Refused(ValidateRevoked);
          }
          if row.expiresAt.Some? && now > row.expiresAt.value {
            RecordAudit(i, ValidateExpired, actor);
            return Refused(ValidateExpired);
          }
          if !row.active {
            RecordAudit(i, ValidateInactive, actor);
            return Refused(ValidateInactive);
          }
          keys := keys[i := row.(lastUsedAt := Some(now), useCount := row.useCount + 1)];
          RecordAudit(i, ValidateSuccess, actor);
          return Accepted(row.tenant, fp(secret));
        }
        i := i + 1;
      }
      return NotFound;
    }

    method RotateKey(
      secret: string, tenant: string, replacement: string, now: int, actor: Option<string>)
      returns (a: Answer)
      modifies this
      ensures (State(), a) == AfterRotate(fp, old(State()), secret, tenant, replacement, now, actor)
    {
      a := ValidateKey(secret, now, actor);
      if !a.Accepted? {
        return RotationRefused;
      }
      var _ := RevokeKey(secret, now, actor);
      a := CreateKey(replacement, tenant, NoExpiry, actor);
      if !a.Created? {
        return RotationStranded;
      }
    }

    method CleanupExpiredKeys(now: int) returns (a: Answer)
      modifies this
      ensures (State(), a) == CleanFrom(old(State()), 0, now, 0)
    {
      var i, count := 0, 0;
      while i < |keys|
        invariant 0 <= i <= |keys|
        invariant CleanFrom(State(), i, now, count) == CleanFrom(old(State()), 0, now, 0)
      {
        if keys[i].active && keys[i].expiresAt.Some? && keys[i].expiresAt.value < now {
          keys := keys[i := keys[i].(active := false)];
          RecordAudit(i, CleanupExpired, None);
          count := count + 1;
        }
        i := i + 1;
      }
      return Cleaned(count);
    }
  }

  // ---------------------------------------------------------------- what each operation does

  // Audit rows name who acted; nobody in particular is the system.
  ghost predicate By(actor: Option<string>, name: string) {
    if actor.Some? && actor.value != "" then name == actor.value else name == "system"
  }

  // The audit table gained this one row.
  ghost predicate LoggedOne(before: KeyStore, after: KeyStore, id: nat, action: Action, actor: Option<string>) {
    && |after.audit| == |before.audit| + 1 && after.audit[..|before.audit|] == before.audit
    && var row := after.audit[|before.audit|];
    && row.keyId == id && row.action == action && By(actor, row.actor)
  }

  // Row i became this one and no other row changed.
  ghost predicate ChangedOne(before: KeyStore, after: KeyStore, i: nat, row: KeyRow) {
    && i < |before.keys| == |after.keys| && after.keys[i] == row
    && forall j :: 0 <= j < |before.keys| && j != i ==> after.keys[j] == before.keys[j]
  }

  ghost predicate FirstWith(keys: seq<KeyRow>, secret: string, activeOnly: bool, i: nat) {
    && i < |keys| && keys[i].secret == secret && (activeOnly ==> keys[i].active)
    && forall j :: 0 <= j < i && keys[j].secret == secret ==> activeOnly && !keys[j].active
  }

  /** Creating adds one fresh active key and its create row; with a malformed expiry or a
      fingerprint that some key has, nothing happens. */
  lemma CreationStores(
    fp: string -> string, s: KeyStore, secret: string, tenant: string, expiry: ExpiryArgument, actor: Option<string>)
    ensures var (end, a) := AfterCreate(fp, s, secret, tenant, expiry, actor);
      var taken := exists i :: 0 <= i < |s.keys| && s.keys[i].fingerprint == fp(secret);
      && (expiry.Malformed? ==> (end, a) == (s, InvalidExpiry))
      && (!expiry.Malformed? && taken ==> (end, a) == (s, FingerprintTaken))
      && (!expiry.Malformed? && !taken ==>
            && a == Created(fp(secret))
            && |end.keys| == |s.keys| + 1 && end.keys[..|s.keys|] == s.keys
            && LoggedOne(s, end, |s.keys|, Create, actor)
            && var key := end.keys[|s.keys|];
            && key.secret == secret && key.fingerprint == fp(secret) && key.tenant == tenant
            && key.active && !key.revoked && key.useCount == 0
            && key.revokedAt == key.lastUsedAt == None
            && key.expiresAt == match expiry case ExpiresAt(at) => Some(at) case _ => None)
  {
  }

  /** Revoking marks the first active row that verifies the key, and no other. */
  lemma RevocationMarks(s: KeyStore, secret: string, now: int, actor: Option<string>) returns (i: nat)
    ensures var (end, a) := AfterRevoke(s, secret, now, actor);
      if forall j :: 0 <= j < |s.keys| && s.keys[j].secret == secret ==> !s.keys[j].active then
        (end, a) == (s, Revoked(false))
      else
        && a == Revoked(true) && FirstWith(s.keys, secret, true, i)
        && ChangedOne(s, end, i, s.keys[i].(revoked := true, revokedAt := Some(now), active := false))
        && LoggedOne(s, end, i, Revoke, actor)
  {
    i := Find(s.keys, secret, true, 0);
  }

  /** Validating judges the first row that verifies the key: revoked, then past its expiry, then
      switched off; otherwise the use is counted. Each answer is logged, an unknown key is not. */
  lemma ValidationAnswers(fp: string -> string, s: KeyStore, secret: string, now: int, actor: Option<string>)
    returns (i: nat)
    ensures var (end, a) := AfterValidate(fp, s, secret, now, actor);
      if forall j :: 0 <= j < |s.keys| ==> s.keys[j].secret != secret then (end, a) == (s, NotFound)
      else
        && FirstWith(s.keys, secret, false, i)
        && var row := s.keys[i];
        var expired := row.expiresAt.Some? && row.expiresAt.value < now;
        if row.revoked || expired || !row.active then
          && end.keys == s.keys && a.Refused? && LoggedOne(s, end, i, a.why, actor)
          && (row.revoked ==> a.why == ValidateRevoked)
          && (!row.revoked && expired ==> a.why == ValidateExpired)
          && (!row.revoked && !expired ==> a.why == ValidateInactive)
        else
          && a == Accepted(row.tenant, fp(secret))
          && ChangedOne(s, end, i, row.(lastUsedAt := Some(now), useCount := row.useCount + 1))
          && LoggedOne(s, end, i, ValidateSuccess, actor)
  {
    i := Find(s.keys, secret, false, 0);
  }

  // The active keys whose expiry is before this instant.
  function Overdue(keys: seq<KeyRow>, from: nat, now: int): set<nat> {
    set i | from <= i < |keys| && keys[i].active && keys[i].expiresAt.Some? && keys[i].expiresAt.value < now
  }

  // What cleaning the rows from i on does: exactly the overdue ones, counted and logged in order.
  ghost predicate SwitchedOff(
    s: KeyStore, end: KeyStore, a: Answer, i: nat, now: int, count: nat, positions: seq<nat>)
  {
    && Enumerates(positions, Overdue(s.keys, i, now))
    && a == Cleaned(count + |positions|)
    && |end.keys| == |s.keys|
    && (forall k :: 0 <= k < |s.keys| ==>
          end.keys[k] == if k in Overdue(s.keys, i, now) then s.keys[k].(active := false) else s.keys[k])
    && |end.audit| == |s.audit| + |positions| && end.audit[..|s.audit|] == s.audit
    && forall n :: 0 <= n < |positions| ==>
         end.audit[|s.audit| + n] == AuditRow(positions[n], CleanupExpired, "system")
  }

  lemma {:induction false} CleanSwitchesOff(s: KeyStore, i: nat, now: int, count: nat) returns (positions: seq<nat>)
    requires i <= |s.keys|
    ensures var (end, a) := CleanFrom(s, i, now, count); SwitchedOff(s, end, a, i, now, count, positions)
    decreases |s.keys| - i
  {
    positions := [];
    if i < |s.keys| {
      if Due(s.keys[i], now) {
        var next := KeyStore(s.keys[i := s.keys[i].(active := false)], s.audit).Logged(i, CleanupExpired, None);
        var rest := CleanSwitchesOff(next, i + 1, now, count + 1);
        var (end, a) := CleanFrom(next, i + 1, now, count + 1);
        FirstOverdue(s, next, end, a, i, now, count, rest);
        positions := [i] + rest;
      } else {
        positions := CleanSwitchesOff(s, i + 1, now, count);
        assert Overdue(s.keys, i, now) == Overdue(s.keys, i + 1, now);
      }
    }
  }

  lemma FirstOverdue(
    s: KeyStore, next: KeyStore, end: KeyStore, a: Answer, i: nat, now: int, count: nat, rest: seq<nat>)
    requires i < |s.keys| && Due(s.keys[i], now)
    requires next == KeyStore(s.keys[i := s.keys[i].(active := false)], s.audit).Logged(i, CleanupExpired, None)
    requires SwitchedOff(next, end, a, i + 1, now, count + 1, rest)
    ensures SwitchedOff(s, end, a, i, now, count, [i] + rest)
  {
    var later := Overdue(s.keys, i + 1, now);
    assert Overdue(next.keys, i + 1, now) == later;
    assert Overdue(s.keys, i, now) == {i} + later;
    assert forall n :: 0 <= n < |rest| ==> rest[n] in later;
    assert next.audit == s.audit + [AuditRow(i, CleanupExpired, "system")];
    assert end.audit[..|s.audit|] == end.audit[..|next.audit|][..|s.audit|];
    assert end.audit[|s.audit|] == end.audit[..|next.audit|][|s.audit|];
    forall n | 0 <= n <= |rest|
      ensures end.audit[|s.audit| + n] == AuditRow(([i] + rest)[n], CleanupExpired, "system")
    {
      if n > 0 {
        assert end.audit[|next.audit| + (n - 1)] == AuditRow(rest[n - 1], CleanupExpired, "system");
      }
    }
  }

  /** Cleanup switches off exactly the active keys whose expiry lies before now, whatever their
      number, counts them, and logs each of them once, in order, as the system. */
  lemma CleanupSwitchesOff(s: KeyStore, now: int) returns (positions: seq<nat>)
    ensures var (end, a) := CleanFrom(s, 0, now, 0);
      && SwitchedOff(s, end, a, 0, now, 0, positions)
      && a == Cleaned(|set i | 0 <= i < |s.keys| && s.keys[i].active && s.keys[i].expiresAt.Some?
                               && s.keys[i].expiresAt.value < now|)
  {
    positions := CleanSwitchesOff(s, 0, now, 0);
    EnumeratedSize(positions, Overdue(s.keys, 0, now));
    assert Overdue(s.keys, 0, now) ==
      set i | 0 <= i < |s.keys| && s.keys[i].active && s.keys[i].expiresAt.Some? && s.keys[i].expiresAt.value < now;
  }

  /** A rotation that goes through leaves the replacement without expiry and three audit rows: the
      use and the revocation of the old key and the creation of the new one. */
  lemma RotationLogs(
    fp: string -> string, s: KeyStore, secret: string, tenant: string, replacement: string, now: int,
    actor: Option<string>) returns (i: nat, name: string)
    requires AfterRotate(fp, s, secret, tenant, replacement, now, actor).1.Created?
    ensures var (end, a) := AfterRotate(fp, s, secret, tenant, replacement, now, actor);
      && a == Created(fp(replacement)) && FirstWith(s.keys, secret, false, i) && By(actor, name)
      && end.audit == s.audit + [AuditRow(i, ValidateSuccess, name), AuditRow(i, Revoke, name),
                                 AuditRow(|s.keys|, Create, name)]
      && |end.keys| == |s.keys| + 1
      && end.keys[i] == s.keys[i].(lastUsedAt := Some(now), useCount := s.keys[i].useCount + 1,
                                   revoked := true, revokedAt := Some(now), active := false)
      && end.keys[|s.keys|] == KeyRow(replacement, fp(replacement), tenant, true, false, None, None, None, 0)
  {
    var checked := AfterValidate(fp, s, secret, now, actor).0;
    i := Find(s.keys, secret, false, 0);
    name := if actor.None? || actor.value == "" then "system" else actor.value;
    assert AfterValidate(fp, s, secret, now, actor).1.Accepted?;
    assert i < |s.keys| && checked.keys[i].active && checked.keys[i].secret == secret;
    assert forall j :: 0 <= j < i ==> checked.keys[j] == s.keys[j];
    assert Find(checked.keys, secret, true, 0) == i;
  }

  // ---------------------------------------------------------------- the ledger

  function Tally(audit: seq<AuditRow>, id: nat, action: Action): nat {
    if audit == [] then 0 else
      var last := audit[|audit| - 1];
      Tally(audit[..|audit| - 1], id, action) + if last.keyId == id && last.action == action then 1 else 0
  }

  lemma TallyLogged(s: KeyStore, of: nat, done: Action, actor: Option<string>, id: nat, action: Action)
    ensures Tally(s.Logged(of, done, actor).audit, id, action)
         == Tally(s.audit, id, action) + if of == id && done == action then 1 else 0
  {
    var more := s.Logged(of, done, actor).audit;
    assert more[..|more| - 1] == s.audit;
  }

  lemma {:induction false} TallyOfUnknown(audit: seq<AuditRow>, id: nat, action: Action)
    requires forall r :: r in audit ==> r.keyId < id
    ensures Tally(audit, id, action) == 0
  {
    if audit != [] {
      assert audit[|audit| - 1] in audit;
      TallyOfUnknown(audit[..|audit| - 1], id, action);
    }
  }

  // What the audit table says about one key is what its row says.
  ghost predicate Balanced(s: KeyStore, id: nat)
    requires id < |s.keys|
  {
    var row := s.keys[id];
    && Tally(s.audit, id, Create) == 1
    && Tally(s.audit, id, ValidateSuccess) == row.useCount
    && Tally(s.audit, id, Revoke) == (if row.revoked then 1 else 0)
    && Tally(s.audit, id, Revoke) + Tally(s.audit, id, CleanupExpired) == (if row.active then 0 else 1)
    && (row.revoked ==> !row.active)
  }

  ghost predicate Sound(fp: string -> string, s: KeyStore) {
    && (forall i :: 0 <= i < |s.keys| ==> Balanced(s, i) && s.keys[i].fingerprint == fp(s.keys[i].secret))
    && (forall i, j :: 0 <= i < j < |s.keys| ==> s.keys[i].fingerprint != s.keys[j].fingerprint)
    && (forall r :: r in s.audit ==> r.keyId < |s.keys|)
  }

  // A step that touches row i alone: what it must add to the ledger.
  ghost predicate Accounted(before: KeyRow, after: KeyRow, action: Action) {
    && before.secret == after.secret && before.fingerprint == after.fingerprint
    && action != Create
    && after.useCount == before.useCount + (if action == ValidateSuccess then 1 else 0)
    && (if action == Revoke then before.active && !before.revoked && after.revoked && !after.active
        else if action == CleanupExpired then before.active && !before.revoked && !after.revoked && !after.active
        else after.revoked == before.revoked && after.active == before.active)
  }

  lemma RowStepSound(fp: string -> string, s: KeyStore, i: nat, row: KeyRow, action: Action, actor: Option<string>)
    requires Sound(fp, s) && i < |s.keys| && Accounted(s.keys[i], row, action)
    ensures Sound(fp, KeyStore(s.keys[i := row], s.audit).Logged(i, action, actor))
  {
    var mid := KeyStore(s.keys[i := row], s.audit);
    var end := mid.Logged(i, action, actor);
    forall j | 0 <= j < |end.keys| ensures Balanced(end, j) && end.keys[j].fingerprint == fp(end.keys[j].secret) {
      assert Balanced(s, j);
      TallyLogged(mid, i, action, actor, j, Create);
      TallyLogged(mid, i, action, actor, j, ValidateSuccess);
      TallyLogged(mid, i, action, actor, j, Revoke);
      TallyLogged(mid, i, action, actor, j, CleanupExpired);
    }
  }

  lemma CreateSound(
    fp: string -> string, s: KeyStore, secret: string, tenant: string, expiry: ExpiryArgument, actor: Option<string>)
    requires Sound(fp, s)
    ensures Sound(fp, AfterCreate(fp, s, secret, tenant, expiry, actor).0)
  {
    var (end, a) := AfterCreate(fp, s, secret, tenant, expiry, actor);
    if a.Created? {
      var n := |s.keys|;
      var mid := KeyStore(end.keys, s.audit);
      forall j | 0 <= j <= n ensures Balanced(end, j) && end.keys[j].fingerprint == fp(end.keys[j].secret) {
        if j < n {
          assert Balanced(s, j);
        } else {
          TallyOfUnknown(s.audit, n, Create);
          TallyOfUnknown(s.audit, n, ValidateSuccess);
          TallyOfUnknown(s.audit, n, Revoke);
          TallyOfUnknown(s.audit, n, CleanupExpired);
        }
        TallyLogged(mid, n, Create, actor, j, Create);
        TallyLogged(mid, n, Create, actor, j, ValidateSuccess);
        TallyLogged(mid, n, Create, actor, j, Revoke);
        TallyLogged(mid, n, Create, actor, j, CleanupExpired);
      }
      assert !Taken(s.keys, fp(secret));
    }
  }

  lemma RefusalSound(fp: string -> string, s: KeyStore, i: nat, why: Action, actor: Option<string>)
    requires Sound(fp, s) && i < |s.keys| && why in {ValidateRevoked, ValidateExpired, ValidateInactive}
    ensures Sound(fp, s.Logged(i, why, actor))
  {
    assert s == KeyStore(s.keys[i := s.keys[i]], s.audit);
    RowStepSound(fp, s, i, s.keys[i], why, actor);
  }

  lemma UseSound(fp: string -> string, s: KeyStore, i: nat, used: KeyRow, now: int, actor: Option<string>)
    requires Sound(fp, s) && i < |s.keys|
    requires used == s.keys[i].(lastUsedAt := Some(now), useCount := s.keys[i].useCount + 1)
    ensures Sound(fp, KeyStore(s.keys[i := used], s.audit).Logged(i, ValidateSuccess, actor))
  {
    RowStepSound(fp, s, i, used, ValidateSuccess, actor);
  }

  // The two ways a validation can end for a row it has found.
  lemma Validated(s: KeyStore, i: nat, fingerprint: string, now: int, actor: Option<string>) returns (used: KeyRow)
    requires i < |s.keys|
    ensures used == s.keys[i].(lastUsedAt := Some(now), useCount := s.keys[i].useCount + 1)
    ensures ValidateRow(s, i, fingerprint, now, actor).0 ==
              if Refusal(s.keys[i], now).Some? then s.Logged(i, Refusal(s.keys[i], now).value, actor)
              else KeyStore(s.keys[i := used], s.audit).Logged(i, ValidateSuccess, actor)
  {
    used := s.keys[i].(lastUsedAt := Some(now), useCount := s.keys[i].useCount + 1);
  }

  lemma ValidateSound(fp: string -> string, s: KeyStore, i: nat, fingerprint: string, now: int, actor: Option<string>)
    requires Sound(fp, s) && i <= |s.keys|
    ensures Sound(fp, ValidateRow(s, i, fingerprint, now, actor).0)
  {
    if i < |s.keys| {
      var used := Validated(s, i, fingerprint, now, actor);
      if Refusal(s.keys[i], now).Some? {
        RefusalSound(fp, s, i, Refusal(s.keys[i], now).value, actor);
      } else {
        UseSound(fp, s, i, used, now, actor);
      }
    }
  }

  lemma RevokeSound(fp: string -> string, s: KeyStore, i: nat, now: int, actor: Option<string>)
    requires Sound(fp, s) && i <= |s.keys| && (i < |s.keys| ==> s.keys[i].active)
    ensures Sound(fp, RevokeRow(s, i, now, actor).0)
  {
    if i < |s.keys| {
      assert Balanced(s, i);
      RowStepSound(fp, s, i, s.keys[i].(revoked := true, revokedAt := Some(now), active := false), Revoke, actor);
    }
  }

  lemma {:induction false} CleanSound(fp: string -> string, s: KeyStore, i: nat, now: int, count: nat)
    requires Sound(fp, s) && i <= |s.keys|
    ensures Sound(fp, CleanFrom(s, i, now, count).0)
    decreases |s.keys| - i
  {
    if i < |s.keys| {
      if Due(s.keys[i], now) {
        assert Balanced(s, i);
        var row := s.keys[i].(active := false);
        RowStepSound(fp, s, i, row, CleanupExpired, None);
        CleanSound(fp, KeyStore(s.keys[i := row], s.audit).Logged(i, CleanupExpired, None), i + 1, now, count + 1);
      } else {
        CleanSound(fp, s, i + 1, now, count);
      }
    }
  }

  lemma ApplySound(fp: string -> string, s: KeyStore, op: Op)
    requires Sound(fp, s)
    ensures Sound(fp, Apply(fp, s, op).0)
  {
    match op
    case DoCreate(secret, tenant, expiry, actor) => CreateSound(fp, s, secret, tenant, expiry, actor);
    case DoRevoke(secret, now, actor) => RevokeSound(fp, s, Find(s.keys, secret, true, 0), now, actor);
    case DoValidate(secret, now, actor) => ValidateSound(fp, s, Find(s.keys, secret, false, 0), fp(secret), now, actor);
    case DoCleanup(now) => CleanSound(fp, s, 0, now, 0);
    case DoRotate(secret, tenant, replacement, now, actor) =>
      var checked := AfterValidate(fp, s, secret, now, actor).0;
      ValidateSound(fp, s, Find(s.keys, secret, false, 0), fp(secret), now, actor);
      RevokeSound(fp, checked, Find(checked.keys, secret, true, 0), now, actor);
      CreateSound(fp, AfterRevoke(checked, secret, now, actor).0, replacement, tenant, NoExpiry, actor);
  }

  /** In every store reachable from a sound one (the empty one is), the ledger balances for
      every key and fingerprints are unique. */
  lemma {:induction false} LedgerConserved(fp: string -> string, s: KeyStore, ops: seq<Op>)
    requires Sound(fp, s)
    ensures Sound(fp, Run(fp, s, ops))
    decreases |ops|
  {
    if ops != [] {
      ApplySound(fp, s, ops[0]);
      LedgerConserved(fp, Apply(fp, s, ops[0]).0, ops[1..]);
    }
  }

  function ActiveKeys(keys: seq<KeyRow>): nat {
    if keys == [] then 0 else
      ActiveKeys(keys[..|keys| - 1]) + if keys[|keys| - 1].active then 1 else 0
  }

  lemma {:induction false} ActiveAfterUpdate(keys: seq<KeyRow>, i: nat, row: KeyRow)
    requires i < |keys|
    ensures ActiveKeys(keys[i := row]) + (if keys[i].active then 1 else 0)
         == ActiveKeys(keys) + (if row.active then 1 else 0)
  {
    var n := |keys| - 1;
    if i == n {
      assert keys[i := row][..n] == keys[..n];
    } else {
      assert keys[i := row][..n] == keys[..n][i := row];
      ActiveAfterUpdate(keys[..n], i, row);
    }
  }

  /** A rotation goes through exactly when the old key is accepted and the new fingerprint is
      free; then one key is added and the number of active keys stays. If the fingerprint is
      taken, the old key is lost all the same. */
  lemma RotationKeepsActiveKeys(
    fp: string -> string, s: KeyStore, secret: string, tenant: string, replacement: string, now: int,
    actor: Option<string>)
    requires Sound(fp, s)
    ensures var (end, a) := AfterRotate(fp, s, secret, tenant, replacement, now, actor);
      var accepted := AfterValidate(fp, s, secret, now, actor).1.Accepted?;
      && (a.Created? <==> accepted && !Taken(s.keys, fp(replacement)))
      && (a.RotationStranded? <==> accepted && Taken(s.keys, fp(replacement)))
      && (a.Created? ==> |end.keys| == |s.keys| + 1 && ActiveKeys(end.keys) == ActiveKeys(s.keys)
                         && end.keys[|s.keys|].tenant == tenant && end.keys[|s.keys|].secret == replacement)
      && (a.RotationStranded? ==> |end.keys| == |s.keys| && ActiveKeys(end.keys) + 1 == ActiveKeys(s.keys))
      && (a.RotationRefused? ==> end.keys == s.keys)
  {
    var (checked, answer) := AfterValidate(fp, s, secret, now, actor);
    if answer.Accepted? {
      var revoked := AfterRevoke(checked, secret, now, actor).0;
      AcceptedThenRevoked(fp, s, secret, now, actor);
      SameFingerprints(s.keys, revoked.keys, fp(replacement));
      var (end, created) := AfterCreate(fp, revoked, replacement, tenant, NoExpiry, actor);
      assert created.Created? ==> end.keys[..|revoked.keys|] == revoked.keys;
    }
  }

  // The key a validation accepts is the one a revocation right after it finds.
  lemma AcceptedThenRevoked(fp: string -> string, s: KeyStore, secret: string, now: int, actor: Option<string>)
    requires AfterValidate(fp, s, secret, now, actor).1.Accepted?
    ensures var end := AfterRevoke(AfterValidate(fp, s, secret, now, actor).0, secret, now, actor).0;
      && |end.keys| == |s.keys| && ActiveKeys(end.keys) + 1 == ActiveKeys(s.keys)
      && forall j :: 0 <= j < |s.keys| ==> end.keys[j].fingerprint == s.keys[j].fingerprint
  {
    var checked := AfterValidate(fp, s, secret, now, actor).0;
    var i := Find(s.keys, secret, false, 0);
    ActiveAfterUpdate(s.keys, i, checked.keys[i]);
    assert forall j :: 0 <= j < i ==> checked.keys[j] == s.keys[j];
    assert Find(checked.keys, secret, true, 0) == i;
    ActiveAfterUpdate(checked.keys, i, RevokeRow(checked, i, now, actor).0.keys[i]);
  }

  lemma SameFingerprints(keys: seq<KeyRow>, later: seq<KeyRow>, fingerprint: string)
    requires |keys| == |later| && forall i :: 0 <= i < |keys| ==> keys[i].fingerprint == later[i].fingerprint
    ensures Taken(keys, fingerprint) <==> Taken(later, fingerprint)
  {
    if Taken(keys, fingerprint) {
      var i :| 0 <= i < |keys| && keys[i].fingerprint == fingerprint;
      assert later[i].fingerprint == fingerprint;
    }
  }

  // ---------------------------------------------------------------- revocation is final

  // No operation deletes a row, renames it, or undoes `revoked`; `active` never comes back.
  ghost predicate Persists(before: seq<KeyRow>, after: seq<KeyRow>) {
    |before| <= |after| && forall i :: 0 <= i < |before| ==>
      && after[i].secret == before[i].secret && after[i].fingerprint == before[i].fingerprint
      && after[i].tenant == before[i].tenant && after[i].expiresAt == before[i].expiresAt
      && (before[i].revoked ==> after[i].revoked)
      && (after[i].active ==> before[i].active)
  }

  lemma {:induction false} CleanPersists(s: KeyStore, i: nat, now: int, count: nat)
    requires i <= |s.keys|
    ensures Persists(s.keys, CleanFrom(s, i, now, count).0.keys)
    decreases |s.keys| - i
  {
    if i < |s.keys| {
      if Due(s.keys[i], now) {
        var next := KeyStore(s.keys[i := s.keys[i].(active := false)], s.audit).Logged(i, CleanupExpired, None);
        CleanPersists(next, i + 1, now, count + 1);
      } else {
        CleanPersists(s, i + 1, now, count);
      }
    }
  }

  lemma PersistsTransitive(a: seq<KeyRow>, b: seq<KeyRow>, c: seq<KeyRow>)
    requires Persists(a, b) && Persists(b, c)
    ensures Persists(a, c)
  {
  }

  lemma RowsPersist(s: KeyStore, i: nat, fingerprint: string, now: int, actor: Option<string>)
    requires i <= |s.keys|
    ensures Persists(s.keys, ValidateRow(s, i, fingerprint, now, actor).0.keys)
    ensures Persists(s.keys, RevokeRow(s, i, now, actor).0.keys)
  {
  }

  lemma CreatePersists(
    fp: string -> string, s: KeyStore, secret: string, tenant: string, expiry: ExpiryArgument, actor: Option<string>)
    ensures Persists(s.keys, AfterCreate(fp, s, secret, tenant, expiry, actor).0.keys)
  {
  }

  lemma RotationPersists(
    fp: string -> string, s: KeyStore, secret: string, tenant: string, replacement: string, now: int,
    actor: Option<string>)
    ensures Persists(s.keys, AfterRotate(fp, s, secret, tenant, replacement, now, actor).0.keys)
  {
    var checked := AfterValidate(fp, s, secret, now, actor).0;
    var revoked := AfterRevoke(checked, secret, now, actor).0;
    RowsPersist(s, Find(s.keys, secret, false, 0), fp(secret), now, actor);
    RowsPersist(checked, Find(checked.keys, secret, true, 0), "", now, actor);
    PersistsTransitive(s.keys, checked.keys, revoked.keys);
    CreatePersists(fp, revoked, replacement, tenant, NoExpiry, actor);
    PersistsTransitive(s.keys, revoked.keys, AfterCreate(fp, revoked, replacement, tenant, NoExpiry, actor).0.keys);
  }

  lemma ApplyPersists(fp: string -> string, s: KeyStore, op: Op)
    ensures Persists(s.keys, Apply(fp, s, op).0.keys)
  {
    match op
    case DoCreate(secret, tenant, expiry, actor) => CreatePersists(fp, s, secret, tenant, expiry, actor);
    case DoRevoke(secret, now, actor) => RowsPersist(s, Find(s.keys, secret, true, 0), "", now, actor);
    case DoValidate(secret, now, actor) => RowsPersist(s, Find(s.keys, secret, false, 0), fp(secret), now, actor);
    case DoCleanup(now) => CleanPersists(s, 0, now, 0);
    case DoRotate(secret, tenant, replacement, now, actor) =>
      RotationPersists(fp, s, secret, tenant, replacement, now, actor);
  }

  lemma {:induction false} RunPersists(fp: string -> string, s: KeyStore, ops: seq<Op>)
    ensures Persists(s.keys, Run(fp, s, ops).keys)
    decreases |ops|
  {
    if ops != [] {
      var next := Apply(fp, s, ops[0]).0;
      ApplyPersists(fp, s, ops[0]);
      RunPersists(fp, next, ops[1..]);
      PersistsTransitive(s.keys, next.keys, Run(fp, next, ops[1..]).keys);
    }
  }

  ghost predicate HasRevoked(keys: seq<KeyRow>, secret: string) {
    exists i :: 0 <= i < |keys| && keys[i].secret == secret && keys[i].revoked
  }

  lemma RevokedIsRefused(fp: string -> string, s: KeyStore, secret: string, now: int, actor: Option<string>)
    requires Sound(fp, s) && HasRevoked(s.keys, secret)
    ensures AfterValidate(fp, s, secret, now, actor).1 == Refused(ValidateRevoked)
    ensures forall tenant :: !SqlAccepts(s.keys, tenant, fp(secret), now)
  {
    var i :| 0 <= i < |s.keys| && s.keys[i].secret == secret && s.keys[i].revoked;
    assert forall j :: 0 <= j < |s.keys| && s.keys[j].fingerprint == fp(secret) ==> j == i;
    assert Find(s.keys, secret, false, 0) == i;
  }

  ghost predicate Retires(op: Op, a: Answer) {
    (op.DoRevoke? && a == Revoked(true)) || (op.DoRotate? && (a.Created? || a.RotationStranded?))
  }

  lemma RetiresRevokes(fp: string -> string, s: KeyStore, op: Op)
    requires Retires(op, Apply(fp, s, op).1)
    ensures HasRevoked(Apply(fp, s, op).0.keys, op.secret)
  {
    var end := Apply(fp, s, op).0;
    if op.DoRevoke? {
      var i := Find(s.keys, op.secret, true, 0);
      assert end.keys[i].secret == op.secret && end.keys[i].revoked;
    } else {
      var checked := AfterValidate(fp, s, op.secret, op.now, op.actor).0;
      var i := Find(checked.keys, op.secret, true, 0);
      assert checked.keys[Find(s.keys, op.secret, false, 0)].active;
      assert end.keys[i].secret == op.secret && end.keys[i].revoked;
    }
  }

  lemma RevokedPersists(before: seq<KeyRow>, after: seq<KeyRow>, secret: string)
    requires Persists(before, after) && HasRevoked(before, secret)
    ensures HasRevoked(after, secret)
  {
    var i :| 0 <= i < |before| && before[i].secret == secret && before[i].revoked;
    assert after[i].secret == secret && after[i].revoked;
  }

  /** Once a key has been revoked or rotated away, whatever operations follow, Python answers
      key_revoked and the SQL check opens no tenant context for its fingerprint, ever. */
  lemma RevocationIsFinal(fp: string -> string, s: KeyStore, op: Op, later: seq<Op>, now: int, actor: Option<string>)
    requires Sound(fp, s) && Retires(op, Apply(fp, s, op).1)
    ensures var end := Run(fp, Apply(fp, s, op).0, later);
      && AfterValidate(fp, end, op.secret, now, actor).1 == Refused(ValidateRevoked)
      && forall tenant :: !SqlAccepts(end.keys, tenant, fp(op.secret), now)
  {
    var mid := Apply(fp, s, op).0;
    var end := Run(fp, mid, later);
    RetiresRevokes(fp, s, op);
    ApplySound(fp, s, op);
    LedgerConserved(fp, mid, later);
    RunPersists(fp, mid, later);
    RevokedPersists(mid.keys, end.keys, op.secret);
    RevokedIsRefused(fp, end, op.secret, now, actor);
  }

  // ---------------------------------------------------------------- the two key checks

  /** The SQL check accepts a stored key exactly when the Python check does and the clock does
      not stand exactly on the expiry instant. */
  lemma {:induction false} SqlCheckAgrees(
    fp: string -> string, s: KeyStore, i: nat, tenant: string, now: int, actor: Option<string>)
    requires Sound(fp, s) && i < |s.keys|
    ensures SqlAccepts(s.keys, tenant, s.keys[i].fingerprint, now)
       <==> AfterValidate(fp, s, s.keys[i].secret, now, actor).1 == Accepted(tenant, s.keys[i].fingerprint)
            && s.keys[i].expiresAt != Some(now)
  {
    assert forall j :: 0 <= j < |s.keys| && s.keys[j].fingerprint == s.keys[i].fingerprint ==> j == i;
    assert Find(s.keys, s.keys[i].secret, false, 0) == i;
  }

  // Keys switched off without being revoked were past their expiry by `clock`.
  ghost predicate Stale(keys: seq<KeyRow>, clock: int) {
    forall i :: 0 <= i < |keys| && !keys[i].active && !keys[i].revoked ==>
      keys[i].expiresAt.Some? && keys[i].expiresAt.value < clock
  }

  // No operation reads a later instant than `clock`.
  ghost predicate Within(ops: seq<Op>, clock: int) {
    forall i :: 0 <= i < |ops| && !ops[i].DoCreate? ==> ops[i].now <= clock
  }

  lemma {:induction false} CleanStale(s: KeyStore, i: nat, now: int, count: nat, clock: int)
    requires i <= |s.keys| && Stale(s.keys, clock) && now <= clock
    ensures Stale(CleanFrom(s, i, now, count).0.keys, clock)
    decreases |s.keys| - i
  {
    if i < |s.keys| {
      if Due(s.keys[i], now) {
        var next := KeyStore(s.keys[i := s.keys[i].(active := false)], s.audit).Logged(i, CleanupExpired, None);
        CleanStale(next, i + 1, now, count + 1, clock);
      } else {
        CleanStale(s, i + 1, now, count, clock);
      }
    }
  }

  lemma RowsStale(s: KeyStore, i: nat, fingerprint: string, now: int, actor: Option<string>, clock: int)
    requires i <= |s.keys| && Stale(s.keys, clock)
    ensures Stale(ValidateRow(s, i, fingerprint, now, actor).0.keys, clock)
    ensures Stale(RevokeRow(s, i, now, actor).0.keys, clock)
  {
  }

  lemma ApplyStale(fp: string -> string, s: KeyStore, op: Op, clock: int)
    requires Stale(s.keys, clock) && (op.DoCreate? || op.now <= clock)
    ensures Stale(Apply(fp, s, op).0.keys, clock)
  {
    match op
    case DoCreate(_, _, _, _) =>
    case DoRevoke(secret, now, actor) => RowsStale(s, Find(s.keys, secret, true, 0), "", now, actor, clock);
    case DoValidate(secret, now, actor) => RowsStale(s, Find(s.keys, secret, false, 0), fp(secret), now, actor, clock);
    case DoCleanup(now) => CleanStale(s, 0, now, 0, clock);
    case DoRotate(secret, tenant, replacement, now, actor) =>
      var checked := AfterValidate(fp, s, secret, now, actor).0;
      RowsStale(s, Find(s.keys, secret, false, 0), fp(secret), now, actor, clock);
      RowsStale(checked, Find(checked.keys, secret, true, 0), "", now, actor, clock);
  }

  lemma {:induction false} RunStale(fp: string -> string, s: KeyStore, ops: seq<Op>, clock: int)
    requires Stale(s.keys, clock) && Within(ops, clock)
    ensures Stale(Run(fp, s, ops).keys, clock)
    decreases |ops|
  {
    if ops != [] {
      ApplyStale(fp, s, ops[0], clock);
      RunStale(fp, Apply(fp, s, ops[0]).0, ops[1..], clock);
    }
  }

  // Any clocks at all have a latest reading.
  lemma {:induction false} SomeClock(ops: seq<Op>) returns (clock: int)
    ensures Within(ops, clock)
    decreases |ops|
  {
    if ops == [] {
      clock := 0;
    } else {
      var rest := SomeClock(ops[1..]);
      clock := if ops[0].DoCreate? then rest else Max(rest, ops[0].now);
    }
  }

  /** Whatever was done before and whatever the clocks did: a stored key is answered
      key_inactive exactly if it was switched off without being revoked and the clock now stands
      at or before its expiry. */
  lemma InactiveExactlyWhen(fp: string -> string, ops: seq<Op>, i: nat, now: int, actor: Option<string>)
    requires i < |Run(fp, Empty, ops).keys|
    ensures var end := Run(fp, Empty, ops); var row := end.keys[i];
      AfterValidate(fp, end, row.secret, now, actor).1 == Refused(ValidateInactive)
      <==> !row.active && !row.revoked && row.expiresAt.Some? && now <= row.expiresAt.value
  {
    var end := Run(fp, Empty, ops);
    var clock := SomeClock(ops);
    RunStale(fp, Empty, ops, clock);
    LedgerConserved(fp, Empty, ops);
    OwnRow(fp, end, i);
  }

  lemma OwnRow(fp: string -> string, s: KeyStore, i: nat)
    requires Sound(fp, s) && i < |s.keys|
    ensures Find(s.keys, s.keys[i].secret, false, 0) == i
  {
    assert forall j :: 0 <= j < |s.keys| && s.keys[j].fingerprint == fp(s.keys[i].secret) ==> j == i;
  }

  /** So if the clock never was later than it is now, key_inactive is not answered to anybody:
      a key that cleanup switched off is refused as expired. */
  lemma InactiveNeverAnswered(fp: string -> string, ops: seq<Op>, secret: string, now: int, actor: Option<string>)
    requires Within(ops, now)
    ensures var end := Run(fp, Empty, ops);
      && AfterValidate(fp, end, secret, now, actor).1 != Refused(ValidateInactive)
      && forall i :: 0 <= i < |end.keys| && !end.keys[i].active && !end.keys[i].revoked ==>
           AfterValidate(fp, end, end.keys[i].secret, now, actor).1 == Refused(ValidateExpired)
  {
    var end := Run(fp, Empty, ops);
    RunStale(fp, Empty, ops, now);
    LedgerConserved(fp, Empty, ops);
    forall i | 0 <= i < |end.keys|
      ensures !end.keys[i].active && !end.keys[i].revoked ==>
                AfterValidate(fp, end, end.keys[i].secret, now, actor).1 == Refused(ValidateExpired)
    {
      OwnRow(fp, end, i);
    }
    var found := Find(end.keys, secret, false, 0);
    if found < |end.keys| {
      InactiveExactlyWhen(fp, ops, found, now, actor);
    }
  }

  /** Any key that cleanup switched off is answered key_inactive if the clock is set back to
      its expiry or before. */
  lemma InactiveAfterSettingBack(
    fp: string -> string, secret: string, tenant: string, expiry: int, cleaned: int, now: int, actor: Option<string>)
    requires expiry < cleaned
    ensures var ops := [DoCreate(secret, tenant, ExpiresAt(expiry), actor), DoCleanup(cleaned)];
      AfterValidate(fp, Run(fp, Empty, ops), secret, now, actor).1 == Refused(ValidateInactive) <==> now <= expiry
  {
    var ops := [DoCreate(secret, tenant, ExpiresAt(expiry), actor), DoCleanup(cleaned)];
    var one := Apply(fp, Empty, ops[0]).0;
    var row := KeyRow(secret, fp(secret), tenant, true, false, None, Some(expiry), None, 0);
    assert one.keys == [row] && Due(row, cleaned);
    var switched := KeyStore(one.keys[0 := row.(active := false)], one.audit).Logged(0, CleanupExpired, None);
    assert CleanFrom(one, 0, cleaned, 0).0 == CleanFrom(switched, 1, cleaned, 1).0 == switched;
    assert ops[1..] == [DoCleanup(cleaned)] && ops[1..][1..] == [];
    assert Run(fp, Empty, ops) == Run(fp, one, ops[1..]) == Run(fp, switched, []) == switched;
    InactiveExactlyWhen(fp, ops, 0, now, actor);
  }
}
