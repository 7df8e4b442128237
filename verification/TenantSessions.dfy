/** Tenant sessions over a pool of database backends: the plpgsql functions of
    safenestt/persistence/migrate.py, the row policies of rls.py, `session_scope` of engine.py
    and the store calls of safenestt/investigations/store.py.

    A context row belongs to a backend, survives commit and is inherited by whatever session
    runs on that backend next. Each session is one transaction; NOW() is fixed within it. */
module TenantSessions {
  import opened Basics
  import ApiKeys

  const HOUR := 3600 * MICROS

  datatype Context = Context(tenant: string, fingerprint: string, establishedAt: int, expiresAt: int)

  // The record a caller sees; the row also holds an error column, which reads drop.
  datatype Investigation = Investigation(
    id: string, tenant: Option<string>, createdBy: Option<string>, target: string, kind: string, status: string,
    createdAt: int, updatedAt: int)

  datatype InvestigationRow = InvestigationRow(record: Investigation, error: Option<string>)

  // Tables whose rows belong to an investigation and share one policy.
  datatype Table = AgentRuns | Findings | Evidence | Reports

  datatype ChildRow = ChildRow(investigation: string, body: string)

  type ChildKey = (Table, string)

  // Tables are maps because their ids are unique and no query asks for an order.
  datatype Database = Database(
    keys: seq<ApiKeys.KeyRow>,
    investigations: map<string, InvestigationRow>,
    children: map<ChildKey, ChildRow>,
    contexts: map<int, Context>)

  datatype Op =
    | Create(record: Investigation)
    | Get(id: string)
    | Update(id: string, status: string, error: Option<string>)
    | ListAll
    | AddChild(key: ChildKey, row: ChildRow)
    | ListChildren(table: Table, id: string)

  datatype Failure = NoTenant | InvalidKey | RowSecurity | Duplicate | NotFound

  datatype Reply =
    | Rejected(why: Failure)
    | Done
    | One(record: Option<Investigation>)
    | Many(records: set<Investigation>)
    | Children(rows: set<(ChildKey, ChildRow)>)

  // ---------------------------------------------------------------- tenant context

  // None when the function raises.
  function Establish(d: Database, pid: int, tenant: string, fingerprint: string, now: int): Option<Database> {
    if !ApiKeys.SqlAccepts(d.keys, tenant, fingerprint, now) then None
    else Some(d.(contexts := d.contexts[pid := Context(tenant, fingerprint, now, now + HOUR)]))
  }

  function Clear(d: Database, pid: int): Database {
    d.(contexts := d.contexts - {pid})
  }

  function CurrentTenant(d: Database, pid: int, now: int): string {
    if pid in d.contexts && d.contexts[pid].expiresAt > now then d.contexts[pid].tenant else ""
  }

  // ---------------------------------------------------------------- row policies

  // A tenant sees the investigations that name it.
  function VisibleInvestigations(d: Database, tenant: string): map<string, InvestigationRow> {
    map id | id in d.investigations && d.investigations[id].record.tenant == Some(tenant) :: d.investigations[id]
  }

  // Of the other tables it sees the rows that belong to an investigation it sees.
  function VisibleChildren(d: Database, tenant: string): map<ChildKey, ChildRow> {
    map k | k in d.children && d.children[k].investigation in VisibleInvestigations(d, tenant) :: d.children[k]
  }

  // ---------------------------------------------------------------- statements and sessions

  // Why a statement raises: policies also check inserts, and unique columns span all tenants.
  function Rejection(d: Database, tenant: string, op: Op): Option<Failure> {
    var visible := VisibleInvestigations(d, tenant);
    match op
    case Create(record) =>
      if record.tenant != Some(tenant) then Some(RowSecurity)
      else if record.id in d.investigations then Some(Duplicate) else None
    case Update(id, _, _) => if id !in visible then Some(NotFound) else None
    case AddChild(key, row) =>
      if row.investigation !in visible then Some(RowSecurity)
      else if key in d.children then Some(Duplicate) else None
    case _ => None
  }

  function Written(d: Database, now: int, op: Op): Database
    requires op.Update? ==> op.id in d.investigations
  {
    match op
    case Create(record) => d.(investigations := d.investigations[record.id := InvestigationRow(record, None)])
    case Update(id, status, error) =>
      var row := d.investigations[id];
      d.(investigations := d.investigations[id :=
        InvestigationRow(row.record.(status := status, updatedAt := now), if error.Some? then error else row.error)])
    case AddChild(key, row) => d.(children := d.children[key := row])
    case _ => d
  }

  // Policies filter what is read.
  function Answer(d: Database, tenant: string, op: Op): Reply {
    var visible, rows := VisibleInvestigations(d, tenant), VisibleChildren(d, tenant);
    match op
    case Get(id) => One(if id in visible then Some(visible[id].record) else None)
    case ListAll => Many(set id | id in visible :: visible[id].record)
    case ListChildren(table, id) =>
      Children(set k | k in rows && k.0 == table && rows[k].investigation == id :: (k, rows[k]))
    case _ => Done
  }

  function Execute(d: Database, tenant: string, now: int, op: Op): (Database, Reply) {
    var why := Rejection(d, tenant, op);
    if why.Some? then (d, Rejected(why.value)) else (Written(d, now, op), Answer(d, tenant, op))
  }

  predicate Truthy(s: Option<string>) {
    s.Some? && s.value != ""
  }

  function Owner(tenant: Option<string>, fingerprint: Option<string>): string {
    if Truthy(tenant) && Truthy(fingerprint) then tenant.value else ""
  }

  // session_scope binds the backend's context, or clears it when credentials are missing.
  function Bound(
    d: Database, pid: int, tenant: Option<string>, fingerprint: Option<string>, now: int): Option<Database>
  {
    if Truthy(tenant) && Truthy(fingerprint) then Establish(d, pid, tenant.value, fingerprint.value, now)
    else Some(Clear(d, pid))
  }

  // Then it runs and commits; any exception rolls everything back, the context included.
  function Session(
    d: Database, pid: int, tenant: Option<string>, fingerprint: Option<string>, now: int, op: Op): (Database, Reply)
  {
    var bound := Bound(d, pid, tenant, fingerprint, now);
    if bound.None? then (d, Rejected(InvalidKey))
    else
      var (end, reply) := Execute(bound.value, CurrentTenant(bound.value, pid, now), now, op);
      (if reply.Rejected? then d else end, reply)
  }

  function StoreCall(
    d: Database, pid: int, tenant: Option<string>, fingerprint: Option<string>, now: int, op: Op): (Database, Reply)
  {
    if Truthy(tenant) && Truthy(fingerprint) then Session(d, pid, tenant, fingerprint, now, op)
    else (d, Rejected(NoTenant))
  }

  class TenantDatabase {
    var keys: seq<ApiKeys.KeyRow>
    var investigations: map<string, InvestigationRow>
    var children: map<ChildKey, ChildRow>
    var contexts: map<int, Context>

    function State(): Database
      reads this
    {
      Database(keys, investigations, children, contexts)
    }

    method EstablishTenantContext(pid: int, tenant: string, fingerprint: string, now: int) returns (ok: bool)
      modifies this`contexts
      ensures ok == Establish(old(State()), pid, tenant, fingerprint, now).Some?
      ensures State() == if ok then Establish(old(State()), pid, tenant, fingerprint, now).value else old(State())
    {
      var count, i := 0, 0;
      while i < |keys|
        invariant 0 <= i <= |keys|
        invariant count >= 0
        invariant count > 0 <==> exists j :: 0 <= j < i && ApiKeys.SqlLive(keys[j], tenant, fingerprint, now)
      {
        if ApiKeys.SqlLive(keys[i], tenant, fingerprint, now) {
          count := count + 1;
        }
        i := i + 1;
      }
      if count == 0 {
        return false;
      }
      contexts := contexts[pid := Context(tenant, fingerprint, now, now + HOUR)];
      return true;
    }

    method ClearTenantContext(pid: int)
      modifies this`contexts
      ensures State() == Clear(old(State()), pid)
    {
      contexts := contexts - {pid};
    }

    // One statement under the current tenant's policies; a rejected one changes nothing.
    method ExecuteStatement(tenant: string, now: int, op: Op) returns (r: Reply)
      modifies this`investigations, this`children
      ensures (State(), r) == Execute(old(State()), tenant, now, op)
    {
      var why := Rejection(State(), tenant, op);
      if why.Some? {
        return Rejected(why.value);
      }
      r := Answer(State(), tenant, op);
      match op {
        case Create(record) =>
          investigations := investigations[record.id := InvestigationRow(record, None)];
        case Update(id, status, error) =>
          var row := investigations[id];
          row := row.(record := row.record.(status := status, updatedAt := now));
          if error.Some? {
            row := row.(error := error);
          }
          investigations := investigations[id := row];
        case AddChild(key, row) =>
          children := children[key := row];
        case _ =>
      }
    }

    method SessionScope(
      pid: int, tenant: Option<string>, fingerprint: Option<string>, now: int, op: Op)
      returns (r: Reply)
      modifies this
      ensures (State(), r) == Session(old(State()), pid, tenant, fingerprint, now, op)
    {
      var snapshot := State();
      if Truthy(tenant) && Truthy(fingerprint) {
        var ok := EstablishTenantContext(pid, tenant.value, fingerprint.value, now);
        if !ok {
          Rollback(snapshot);
          return Rejected(InvalidKey);
        }
      } else {
        ClearTenantContext(pid);
      }
      r := ExecuteStatement(CurrentTenant(State(), pid, now), now, op);
      if r.Rejected? {
        Rollback(snapshot);
      }
    }

    method Rollback(snapshot: Database)
      modifies this
      ensures State() == snapshot
    {
      keys, investigations := snapshot.keys, snapshot.investigations;
      children, contexts := snapshot.children, snapshot.contexts;
    }
  }

  class PersistentInvestigationStore {
    const database: TenantDatabase
    const tenant: Option<string>
    const fingerprint: Option<string>

    constructor (database: TenantDatabase, tenant: Option<string>, fingerprint: Option<string>)
      ensures this.database == database && this.tenant == tenant && this.fingerprint == fingerprint
    {
      this.database, this.tenant, this.fingerprint := database, tenant, fingerprint;
    }

    // Every store method checks its credentials and then runs one session on some backend.
    method Call(pid: int, now: int, op: Op) returns (r: Reply)
      modifies database
      ensures (database.State(), r) == StoreCall(old(database.State()), pid, tenant, fingerprint, now, op)
    {
      if !(Truthy(tenant) && Truthy(fingerprint)) {
        return Rejected(NoTenant);
      }
      r := database.SessionScope(pid, tenant, fingerprint, now, op);
    }
  }

  // ---------------------------------------------------------------- what each call returns and stores

  // The investigation is stored for this tenant.
  ghost predicate Holds(d: Database, tenant: string, id: string) {
    id in d.investigations && d.investigations[id].record.tenant == Some(tenant)
  }

  // The backend's context after a session of this tenant: its own, for an hour from now.
  ghost predicate Rebound(
    before: Database, after: Database, pid: int, tenant: string, fingerprint: string, now: int)
  {
    && pid in after.contexts && after.contexts[pid] == Context(tenant, fingerprint, now, now + 3_600_000_000)
    && after.contexts - {pid} == before.contexts - {pid}
    && after.keys == before.keys
  }

  /** Without credentials, or with a key that the database does not accept, nothing is done. */
  lemma OnlyWithLiveKey(
    d: Database, pid: int, tenant: Option<string>, fingerprint: Option<string>, now: int, op: Op)
    ensures (tenant.None? || tenant.value == "" || fingerprint.None? || fingerprint.value == "") ==>
      StoreCall(d, pid, tenant, fingerprint, now, op) == (d, Rejected(NoTenant))
    ensures (tenant.Some? && tenant.value != "" && fingerprint.Some? && fingerprint.value != ""
             && !ApiKeys.SqlAccepts(d.keys, tenant.value, fingerprint.value, now)) ==>
      StoreCall(d, pid, tenant, fingerprint, now, op) == (d, Rejected(InvalidKey))
  {
  }

  /** What a tenant reads with a live key: of all investigations exactly its own, by id exactly its
      own or none, and of the other tables exactly the rows of the asked investigation, if that is
      its own. Reading changes nothing but the backend's context. */
  lemma ReadsReturn(d: Database, pid: int, tenant: string, fingerprint: string, now: int, op: Op)
    requires tenant != "" && fingerprint != "" && ApiKeys.SqlAccepts(d.keys, tenant, fingerprint, now)
    requires op.Get? || op.ListAll? || op.ListChildren?
    ensures var (end, reply) := StoreCall(d, pid, Some(tenant), Some(fingerprint), now, op);
      && Rebound(d, end, pid, tenant, fingerprint, now)
      && end.investigations == d.investigations && end.children == d.children
      && match op
         case Get(id) =>
           && reply.One?
           && (Holds(d, tenant, id) ==> reply.record == Some(d.investigations[id].record))
           && (!Holds(d, tenant, id) ==> reply.record == None)
         case ListAll =>
           && reply.Many?
           && forall r :: r in reply.records
                <==> exists id :: Holds(d, tenant, id) && d.investigations[id].record == r
         case _ =>
           && reply.Children?
           && forall k, row :: (k, row) in reply.rows
                <==> k in d.children && d.children[k] == row && k.0 == op.table
                     && row.investigation == op.id && Holds(d, tenant, op.id)
  {
    var end, reply := StoreCall(d, pid, Some(tenant), Some(fingerprint), now, op).0,
      StoreCall(d, pid, Some(tenant), Some(fingerprint), now, op).1;
    var bound := Establish(d, pid, tenant, fingerprint, now).value;
    assert end == bound;
    forall id ensures id in VisibleInvestigations(bound, tenant) <==> Holds(d, tenant, id) {
    }
    if op.ListAll? {
      forall r ensures r in reply.records <==> exists id :: Holds(d, tenant, id) && d.investigations[id].record == r {
        if r in reply.records {
          var id :| id in VisibleInvestigations(bound, tenant) && VisibleInvestigations(bound, tenant)[id].record == r;
          assert Holds(d, tenant, id);
        }
      }
    }
  }

  /** What a tenant writes with a live key: a new investigation of its own under a free id, the
      status, instant and, if given, error of one of its own, a new row under a free id for one of
      its own. Anything else is rejected for the reason given and leaves everything as it was. */
  lemma WritesStore(d: Database, pid: int, tenant: string, fingerprint: string, now: int, op: Op)
    requires tenant != "" && fingerprint != "" && ApiKeys.SqlAccepts(d.keys, tenant, fingerprint, now)
    requires op.Create? || op.Update? || op.AddChild?
    ensures var (end, reply) := StoreCall(d, pid, Some(tenant), Some(fingerprint), now, op);
      var foreign, taken, missing :=
        (op.Create? && op.record.tenant != Some(tenant)) || (op.AddChild? && !Holds(d, tenant, op.row.investigation)),
        (op.Create? && op.record.id in d.investigations) || (op.AddChild? && op.key in d.children),
        op.Update? && !Holds(d, tenant, op.id);
      if foreign then (end, reply) == (d, Rejected(RowSecurity))
      else if taken then (end, reply) == (d, Rejected(Duplicate))
      else if missing then (end, reply) == (d, Rejected(NotFound))
      else
        && reply == Done && Rebound(d, end, pid, tenant, fingerprint, now)
        && match op
           case Create(record) =>
             && end.children == d.children
             && end.investigations == d.investigations[record.id := InvestigationRow(record, None)]
           case Update(id, status, error) =>
             && end.children == d.children && end.investigations.Keys == d.investigations.Keys
             && (forall k :: k in d.investigations && k != id ==> end.investigations[k] == d.investigations[k])
             && var was, row := d.investigations[id], end.investigations[id];
             && row.record == was.record.(status := status, updatedAt := now)
             && row.error == if error.Some? then error else was.error
           case AddChild(key, row) =>
             && end.investigations == d.investigations && end.children == d.children[key := row]
           case _ => true
  {
    var bound := Establish(d, pid, tenant, fingerprint, now).value;
    forall id ensures id in VisibleInvestigations(bound, tenant) <==> Holds(d, tenant, id) {
    }
  }

  /** A session without credentials drops the context it inherited and runs for nobody: it reads
      and changes only what names no tenant. */
  lemma ContextlessRunsForNobody(d: Database, pid: int, now: int, op: Op)
    ensures var (end, reply) := Session(d, pid, None, None, now, op);
      && end.keys == d.keys
      && (reply.Rejected? ==> end == d)
      && (!reply.Rejected? ==> end.contexts == d.contexts - {pid})
      && (reply.One? && reply.record.Some? ==>
            exists id :: Holds(d, "", id) && d.investigations[id].record == reply.record.value)
      && (reply.Many? ==> forall r :: r in reply.records ==>
            exists id :: Holds(d, "", id) && d.investigations[id].record == r)
      && (reply.Children? ==> forall k, row :: (k, row) in reply.rows ==> Holds(d, "", row.investigation))
      && (reply.Done? ==> match op
            case Create(record) => record.tenant == Some("")
            case Update(id, _, _) => Holds(d, "", id)
            case AddChild(_, row) => Holds(d, "", row.investigation)
            case _ => false)
  {
    var bound := Clear(d, pid);
    forall id ensures id in VisibleInvestigations(bound, "") <==> Holds(d, "", id) {
    }
  }

  // ---------------------------------------------------------------- whole runs

  datatype Event =
    | Store(pid: int, tenant: Option<string>, fingerprint: Option<string>, now: int, op: Op)
    // session_scope() without credentials, or session_scope_bypass_rls
    | Contextless(pid: int, now: int, op: Op)
    // any change at all to the key table
    | KeyChange(keys: seq<ApiKeys.KeyRow>)

  function Next(d: Database, e: Event): (next: (Database, Reply))
    ensures e.KeyChange? ==> next.0 == Database(e.keys, d.investigations, d.children, d.contexts)
  {
    match e
    case Store(pid, tenant, fingerprint, now, op) => StoreCall(d, pid, tenant, fingerprint, now, op)
    case Contextless(pid, now, op) => Session(d, pid, None, None, now, op)
    case KeyChange(keys) => (d.(keys := keys), Done)
  }

  predicate Of(e: Event, tenant: string) {
    e.Store? && e.tenant == Some(tenant)
  }

  // What the tenant's own calls return, in order.
  function Observed(d: Database, events: seq<Event>, tenant: string): seq<Reply>
    decreases |events|
  {
    if events == [] then [] else
      var (next, reply) := Next(d, events[0]);
      (if Of(events[0], tenant) then [reply] else []) + Observed(next, events[1..], tenant)
  }

  // The run with every other session deleted.
  function Purged(events: seq<Event>, tenant: string): seq<Event> {
    if events == [] then []
    else (if Of(events[0], tenant) || events[0].KeyChange? then [events[0]] else []) + Purged(events[1..], tenant)
  }

  // The foreign keys hold.
  ghost predicate Linked(d: Database) {
    forall k :: k in d.children ==> d.children[k].investigation in d.investigations
  }

  // Two databases a tenant cannot tell apart; contexts and other tenants' rows may differ.
  ghost predicate Alike(a: Database, b: Database, tenant: string) {
    && a.keys == b.keys
    && VisibleInvestigations(a, tenant) == VisibleInvestigations(b, tenant)
    && VisibleChildren(a, tenant) == VisibleChildren(b, tenant)
  }

  // Writing a row of one tenant shows to that tenant and to no other.
  lemma InvestigationWritten(d: Database, id: string, row: InvestigationRow, owner: string, tenant: string)
    requires row.record.tenant == Some(owner)
    requires id in d.investigations ==> d.investigations[id].record.tenant == Some(owner)
    requires id !in d.investigations ==> Linked(d)
    ensures var e := d.(investigations := d.investigations[id := row]);
      && VisibleInvestigations(e, tenant) == (if owner == tenant then VisibleInvestigations(d, tenant)[id := row]
                                              else VisibleInvestigations(d, tenant))
      && VisibleChildren(e, tenant) == VisibleChildren(d, tenant)
  {
    var e := d.(investigations := d.investigations[id := row]);
    assert forall x :: x != id ==> (x in VisibleInvestigations(e, tenant) <==> x in VisibleInvestigations(d, tenant));
    assert forall k :: k in d.children ==> (k in VisibleChildren(e, tenant) <==> k in VisibleChildren(d, tenant));
  }

  lemma ChildWritten(d: Database, key: ChildKey, row: ChildRow, owner: string, tenant: string)
    requires key !in d.children && row.investigation in VisibleInvestigations(d, owner)
    ensures var e := d.(children := d.children[key := row]);
      && VisibleInvestigations(e, tenant) == VisibleInvestigations(d, tenant)
      && VisibleChildren(e, tenant) == (if owner == tenant then VisibleChildren(d, tenant)[key := row]
                                        else VisibleChildren(d, tenant))
  {
    var e := d.(children := d.children[key := row]);
    assert VisibleInvestigations(e, tenant) == VisibleInvestigations(d, tenant);
  }

  // A statement run for one tenant shows nothing to another.
  lemma ForeignStatement(d: Database, owner: string, now: int, op: Op, tenant: string)
    requires owner != tenant && Linked(d)
    ensures var end := Execute(d, owner, now, op).0; Alike(d, end, tenant) && Linked(end)
  {
    var (end, reply) := Execute(d, owner, now, op);
    if reply.Done? {
      match op
      case Create(record) => InvestigationWritten(d, record.id, end.investigations[record.id], owner, tenant);
      case Update(id, _, _) => InvestigationWritten(d, id, end.investigations[id], owner, tenant);
      case AddChild(key, row) => ChildWritten(d, key, row, owner, tenant);
    }
  }

  // An insert that the policies let through and whose id is taken in one of the databases only.
  predicate Differs(a: Database, b: Database, tenant: string, op: Op) {
    match op
    case Create(record) =>
      record.tenant == Some(tenant) && ((record.id in a.investigations) != (record.id in b.investigations))
    case AddChild(key, row) =>
      row.investigation in VisibleInvestigations(a, tenant) && ((key in a.children) != (key in b.children))
    case _ => false
  }

  // What a statement of the tenant's own writes to a database shows to the tenant alone.
  lemma OwnWrite(d: Database, tenant: string, now: int, op: Op)
    requires Linked(d) && Rejection(d, tenant, op).None?
    ensures var e := Written(d, now, op);
      && Linked(e) && e.keys == d.keys
      && VisibleInvestigations(e, tenant) == (match op
           case Create(record) => VisibleInvestigations(d, tenant)[record.id := InvestigationRow(record, None)]
           case Update(id, _, _) => VisibleInvestigations(d, tenant)[id := e.investigations[id]]
           case _ => VisibleInvestigations(d, tenant))
      && VisibleChildren(e, tenant) ==
           if op.AddChild? then VisibleChildren(d, tenant)[op.key := op.row] else VisibleChildren(d, tenant)
  {
    var e := Written(d, now, op);
    match op
    case Create(record) => InvestigationWritten(d, record.id, e.investigations[record.id], tenant, tenant);
    case Update(id, _, _) => InvestigationWritten(d, id, e.investigations[id], tenant, tenant);
    case AddChild(key, row) => ChildWritten(d, key, row, tenant, tenant);
    case _ =>
  }

  // A statement of the tenant's own does the same to databases it cannot tell apart, unless
  // it is such an insert.
  lemma OwnStatement(a: Database, b: Database, tenant: string, now: int, op: Op)
    requires Alike(a, b, tenant) && Linked(a) && Linked(b)
    ensures var (x, r) := Execute(a, tenant, now, op); var (y, s) := Execute(b, tenant, now, op);
      && (r == s <==> !Differs(a, b, tenant, op))
      && (r == s ==> Alike(x, y, tenant))
      && Linked(x) && Linked(y)
  {
    if Rejection(a, tenant, op).None? {
      OwnWrite(a, tenant, now, op);
    }
    if Rejection(b, tenant, op).None? {
      OwnWrite(b, tenant, now, op);
    }
    if op.Update? && op.id in VisibleInvestigations(a, tenant) {
      assert a.investigations[op.id] == VisibleInvestigations(a, tenant)[op.id] == b.investigations[op.id];
    }
  }

  lemma ContextsInvisible(d: Database, contexts: map<int, Context>, tenant: string)
    ensures Alike(d, d.(contexts := contexts), tenant)
  {
    var e := d.(contexts := contexts);
    assert VisibleInvestigations(e, tenant) == VisibleInvestigations(d, tenant);
    assert VisibleChildren(e, tenant) == VisibleChildren(d, tenant);
  }

  lemma KeysInvisible(d: Database, keys: seq<ApiKeys.KeyRow>, tenant: string)
    ensures VisibleInvestigations(d.(keys := keys), tenant) == VisibleInvestigations(d, tenant)
    ensures VisibleChildren(d.(keys := keys), tenant) == VisibleChildren(d, tenant)
  {
    assert VisibleInvestigations(d.(keys := keys), tenant) == VisibleInvestigations(d, tenant);
  }

  // Whatever context the backend inherited, a session that runs does so for its own tenant.
  lemma SessionRunsAsItsOwner(d: Database, pid: int, tenant: Option<string>, fingerprint: Option<string>, now: int)
    ensures var bound := Bound(d, pid, tenant, fingerprint, now);
      bound.Some? ==>
        && bound.value == d.(contexts := bound.value.contexts)
        && CurrentTenant(bound.value, pid, now) == Owner(tenant, fingerprint)
  {
  }

  lemma ForeignSession(d: Database, pid: int, t: Option<string>, f: Option<string>, now: int, op: Op, tenant: string)
    requires Owner(t, f) != tenant && Linked(d)
    ensures var end := Session(d, pid, t, f, now, op).0; Alike(d, end, tenant) && Linked(end)
  {
    var bound := Bound(d, pid, t, f, now);
    SessionRunsAsItsOwner(d, pid, t, f, now);
    if bound.Some? {
      ContextsInvisible(d, bound.value.contexts, tenant);
      ForeignStatement(bound.value, Owner(t, f), now, op, tenant);
    }
  }

  /** No session of anybody else, committed or rolled back, changes what a tenant can see. */
  lemma {:induction false} ForeignEvent(d: Database, e: Event, tenant: string)
    requires tenant != "" && Linked(d) && !Of(e, tenant) && !e.KeyChange?
    ensures var end := Next(d, e).0; Alike(d, end, tenant) && Linked(end)
  {
    if e.Contextless? {
      ForeignSession(d, e.pid, None, None, e.now, e.op, tenant);
    } else if Truthy(e.tenant) && Truthy(e.fingerprint) {
      ForeignSession(d, e.pid, e.tenant, e.fingerprint, e.now, e.op, tenant);
    }
  }

  // A call of the tenant's own, let in by its key, whose insert meets an id taken in one of the
  // databases only.
  predicate Clashes(a: Database, b: Database, e: Event, tenant: string) {
    && Of(e, tenant) && Truthy(e.fingerprint)
    && ApiKeys.SqlAccepts(a.keys, tenant, e.fingerprint.value, e.now)
    && Differs(a, b, tenant, e.op)
  }

  lemma OwnEvent(a: Database, b: Database, e: Event, tenant: string)
    requires tenant != "" && Of(e, tenant)
    requires Alike(a, b, tenant) && Linked(a) && Linked(b)
    ensures var (x, r) := Next(a, e); var (y, s) := Next(b, e);
      && (r == s <==> !Clashes(a, b, e, tenant))
      && (r == s ==> Alike(x, y, tenant))
      && Linked(x) && Linked(y)
  {
    if Truthy(e.fingerprint) {
      var x := Establish(a, e.pid, tenant, e.fingerprint.value, e.now);
      var y := Establish(b, e.pid, tenant, e.fingerprint.value, e.now);
      if x.Some? {
        ContextsInvisible(a, x.value.contexts, tenant);
        ContextsInvisible(b, y.value.contexts, tenant);
        OwnStatement(x.value, y.value, tenant, e.now, e.op);
      }
    }
  }

  // Such a call happens somewhere in the run from a, compared with the purged run from b.
  predicate Clash(a: Database, b: Database, events: seq<Event>, tenant: string)
    decreases |events|
  {
    if events == [] then false
    else
      var e, rest := events[0], events[1..];
      var next := Next(a, e).0;
      if Of(e, tenant) || e.KeyChange? then Clashes(a, b, e, tenant) || Clash(next, Next(b, e).0, rest, tenant)
      else Clash(next, b, rest, tenant)
  }

  lemma SameHeadSameTail(r: Reply, rest: seq<Reply>, s: Reply, more: seq<Reply>)
    ensures [r] + rest == [s] + more <==> r == s && rest == more
  {
    assert ([r] + rest)[0] == r && ([s] + more)[0] == s;
    assert ([r] + rest)[1..] == rest && ([s] + more)[1..] == more;
  }

  /** What a tenant's calls return in a run shared with any other sessions, on any backends with
      any inherited contexts and any key changes, is what they return in the run with all those
      sessions deleted, if and only if none of its own inserts meets an id that is taken in one
      of the two runs only. */
  lemma {:induction false} InterferenceExactlyWhen(a: Database, b: Database, events: seq<Event>, tenant: string)
    requires tenant != "" && Alike(a, b, tenant) && Linked(a) && Linked(b)
    ensures Observed(a, events, tenant) == Observed(b, Purged(events, tenant), tenant) <==> !Clash(a, b, events, tenant)
    decreases |events|
  {
    if events != [] {
      var e, rest := events[0], events[1..];
      var next := Next(a, e).0;
      if e.KeyChange? {
        assert Purged(events, tenant)[1..] == Purged(rest, tenant);
        KeysInvisible(a, e.keys, tenant);
        KeysInvisible(b, e.keys, tenant);
        InterferenceExactlyWhen(next, Next(b, e).0, rest, tenant);
        assert Observed(a, events, tenant) == Observed(next, rest, tenant);
      } else if Of(e, tenant) {
        assert Purged(events, tenant)[1..] == Purged(rest, tenant);
        var (other, reply) := Next(b, e);
        OwnEvent(a, b, e, tenant);
        SameHeadSameTail(Next(a, e).1, Observed(next, rest, tenant), reply,
                         Observed(other, Purged(rest, tenant), tenant));
        if !Clashes(a, b, e, tenant) {
          InterferenceExactlyWhen(next, other, rest, tenant);
        }
      } else {
        assert Purged(events, tenant) == Purged(rest, tenant);
        ForeignEvent(a, e, tenant);
        assert Observed(a, events, tenant) == Observed(next, rest, tenant);
        InterferenceExactlyWhen(next, b, rest, tenant);
      }
    }
  }

  // ---------------------------------------------------------------- fresh ids

  // Ids the tenant's calls may insert.
  datatype Claims = Claims(investigations: set<string>, children: set<ChildKey>)
  {
    predicate Covers(op: Op) {
      && (op.Create? ==> op.record.id in investigations)
      && (op.AddChild? ==> op.key in children)
    }

    predicate Avoids(op: Op) {
      && (op.Create? ==> op.record.id !in investigations)
      && (op.AddChild? ==> op.key !in children)
    }
  }

  // Globally fresh ids: nobody else inserts an id that this tenant inserts.
  ghost predicate FreshIds(events: seq<Event>, tenant: string, claims: Claims) {
    forall i :: 0 <= i < |events| && !events[i].KeyChange? ==>
      if Of(events[i], tenant) then claims.Covers(events[i].op) else claims.Avoids(events[i].op)
  }

  // Rows under the tenant's ids are the tenant's.
  ghost predicate Owned(d: Database, tenant: string, claims: Claims) {
    && (forall id :: id in d.investigations && id in claims.investigations ==> id in VisibleInvestigations(d, tenant))
    && (forall k :: k in d.children && k in claims.children ==> k in VisibleChildren(d, tenant))
  }

  lemma OwnedKept(d: Database, e: Event, tenant: string, claims: Claims)
    requires tenant != "" && Linked(d) && Owned(d, tenant, claims)
    requires e.KeyChange? || Of(e, tenant) || claims.Avoids(e.op)
    ensures Owned(Next(d, e).0, tenant, claims)
  {
    var end := Next(d, e).0;
    if e.KeyChange? {
      KeysInvisible(d, e.keys, tenant);
    } else if !Of(e, tenant) {
      ForeignEvent(d, e, tenant);
    } else {
      OwnInsertsOwned(d, e.pid, e.fingerprint, tenant, e.now, e.op, claims);
    }
  }

  lemma OwnInsertsOwned(
    d: Database, pid: int, fingerprint: Option<string>, tenant: string, now: int, op: Op, claims: Claims)
    requires tenant != "" && Linked(d) && Owned(d, tenant, claims)
    ensures Owned(StoreCall(d, pid, Some(tenant), fingerprint, now, op).0, tenant, claims)
  {
    if Truthy(fingerprint) {
      var bound := Establish(d, pid, tenant, fingerprint.value, now);
      if bound.Some? {
        ContextsInvisible(d, bound.value.contexts, tenant);
        if Rejection(bound.value, tenant, op).None? {
          OwnWrite(bound.value, tenant, now, op);
        }
      }
    }
  }

  lemma {:induction false} FreshIdsNeverClash(
    a: Database, b: Database, events: seq<Event>, tenant: string, claims: Claims)
    requires tenant != "" && FreshIds(events, tenant, claims)
    requires Alike(a, b, tenant) && Linked(a) && Linked(b) && Owned(a, tenant, claims) && Owned(b, tenant, claims)
    ensures !Clash(a, b, events, tenant)
    decreases |events|
  {
    if events != [] {
      var e := events[0];
      var next, other := Next(a, e).0, Next(b, e).0;
      OwnedKept(a, e, tenant, claims);
      if e.KeyChange? {
        KeysInvisible(a, e.keys, tenant);
        KeysInvisible(b, e.keys, tenant);
        OwnedKept(b, e, tenant, claims);
        FreshIdsNeverClash(next, other, events[1..], tenant, claims);
      } else if Of(e, tenant) {
        OwnEvent(a, b, e, tenant);
        OwnedKept(b, e, tenant, claims);
        assert claims.Covers(e.op);
        FreshIdsNeverClash(next, other, events[1..], tenant, claims);
      } else {
        ForeignEvent(a, e, tenant);
        FreshIdsNeverClash(next, b, events[1..], tenant, claims);
      }
    }
  }

  /** Non-interference: with globally fresh ids a tenant's calls return what they return in the
      run with all other sessions deleted. */
  lemma NonInterference(a: Database, b: Database, events: seq<Event>, tenant: string, claims: Claims)
    requires tenant != "" && FreshIds(events, tenant, claims)
    requires Alike(a, b, tenant) && Linked(a) && Linked(b) && Owned(a, tenant, claims) && Owned(b, tenant, claims)
    ensures Observed(a, events, tenant) == Observed(b, Purged(events, tenant), tenant)
  {
    FreshIdsNeverClash(a, b, events, tenant, claims);
    InterferenceExactlyWhen(a, b, events, tenant);
  }

  /** Whenever another tenant creates an investigation first, the tenant's own creation under
      the same id shows the interference. */
  lemma SharedIdsInterfere(
    d: Database, pid: int, other: string, otherKey: string, now: int, theirs: Investigation,
    pid': int, tenant: string, key: string, later: int, ours: Investigation)
    requires Linked(d) && tenant != "" && other != "" && tenant != other && key != "" && otherKey != ""
    requires ApiKeys.SqlAccepts(d.keys, other, otherKey, now) && ApiKeys.SqlAccepts(d.keys, tenant, key, later)
    requires theirs.tenant == Some(other) && ours.tenant == Some(tenant)
    requires theirs.id == ours.id && ours.id !in d.investigations
    ensures var events := [Store(pid, Some(other), Some(otherKey), now, Create(theirs)),
                           Store(pid', Some(tenant), Some(key), later, Create(ours))];
      Observed(d, events, tenant) != Observed(d, Purged(events, tenant), tenant)
  {
    var first := Store(pid, Some(other), Some(otherKey), now, Create(theirs));
    var second := Store(pid', Some(tenant), Some(key), later, Create(ours));
    var events, mid := [first, second], Next(d, first).0;
    assert ours.id in mid.investigations && mid.keys == d.keys;
    assert Clashes(mid, d, second, tenant);
    assert events[1..] == [second];
    assert Clash(mid, d, events[1..], tenant);
    InterferenceExactlyWhen(d, d, events, tenant);
  }

  // ---------------------------------------------------------------- reading back what was written

  function After(d: Database, events: seq<Event>): Database
    decreases |events|
  {
    if events == [] then d else After(Next(d, events[0]).0, events[1..])
  }

  lemma {:induction false} ForeignRun(d: Database, events: seq<Event>, tenant: string)
    requires tenant != "" && Linked(d) && forall i :: 0 <= i < |events| ==> !Of(events[i], tenant)
    ensures VisibleInvestigations(After(d, events), tenant) == VisibleInvestigations(d, tenant)
    ensures VisibleChildren(After(d, events), tenant) == VisibleChildren(d, tenant)
    decreases |events|
  {
    if events != [] {
      if events[0].KeyChange? {
        KeysInvisible(d, events[0].keys, tenant);
      } else {
        ForeignEvent(d, events[0], tenant);
      }
      ForeignRun(Next(d, events[0]).0, events[1..], tenant);
    }
  }

  // What a tenant's write leaves for it to see.
  ghost predicate Readable(d: Database, tenant: string, before: Database, now: int, op: Op) {
    match op
    case Create(record) =>
      record.id in VisibleInvestigations(d, tenant) && VisibleInvestigations(d, tenant)[record.id].record == record
    case Update(id, status, _) =>
      && id in VisibleInvestigations(d, tenant) && id in before.investigations
      && VisibleInvestigations(d, tenant)[id].record
        == before.investigations[id].record.(status := status, updatedAt := now)
    case AddChild(key, row) => key in VisibleChildren(d, tenant) && VisibleChildren(d, tenant)[key] == row
    case _ => true
  }

  // The read that returns what an operation wrote, and what it returns.
  function ReadOf(op: Op): Op {
    match op
    case Create(record) => Get(record.id)
    case Update(id, _, _) => Get(id)
    case AddChild(key, row) => ListChildren(key.0, row.investigation)
    case _ => op
  }

  ghost predicate ReadsBack(reply: Reply, before: Database, now: int, op: Op) {
    match op
    case Create(record) => reply == One(Some(record))
    case Update(id, status, _) =>
      && id in before.investigations
      && reply == One(Some(before.investigations[id].record.(status := status, updatedAt := now)))
    case AddChild(key, row) => reply.Children? && (key, row) in reply.rows
    case _ => true
  }

  /** What a tenant writes on one backend it reads back on any other, exactly as written,
      whatever sessions of others and key changes come in between, or its key is refused. */
  lemma {:induction false} WriteThenRead(
    d: Database, pid: int, tenant: string, fingerprint: string, now: int, op: Op, between: seq<Event>,
    pid': int, fingerprint': string, later: int)
    requires tenant != "" && fingerprint' != "" && Linked(d)
    requires forall i :: 0 <= i < |between| ==> !Of(between[i], tenant)
    requires StoreCall(d, pid, Some(tenant), Some(fingerprint), now, op).1 == Done
    ensures var end := After(StoreCall(d, pid, Some(tenant), Some(fingerprint), now, op).0, between);
      var reply := StoreCall(end, pid', Some(tenant), Some(fingerprint'), later, ReadOf(op)).1;
      if ApiKeys.SqlAccepts(end.keys, tenant, fingerprint', later) then ReadsBack(reply, d, now, op)
      else reply == Rejected(InvalidKey)
  {
    var e := Store(pid, Some(tenant), Some(fingerprint), now, op);
    var mid := Next(d, e).0;
    OwnEvent(d, d, e, tenant);
    OwnWriteReadable(d, pid, tenant, fingerprint, now, op);
    ForeignRun(mid, between, tenant);
    ReadableIsRead(After(mid, between), pid', tenant, fingerprint', later, d, now, op);
  }

  lemma ReadableIsRead(
    d: Database, pid: int, tenant: string, fingerprint: string, later: int, before: Database, now: int, op: Op)
    requires tenant != "" && fingerprint != "" && Readable(d, tenant, before, now, op)
    requires op.Create? || op.Update? || op.AddChild?
    ensures var reply := StoreCall(d, pid, Some(tenant), Some(fingerprint), later, ReadOf(op)).1;
      if ApiKeys.SqlAccepts(d.keys, tenant, fingerprint, later) then ReadsBack(reply, before, now, op)
      else reply == Rejected(InvalidKey)
  {
    var bound := Establish(d, pid, tenant, fingerprint, later);
    if bound.Some? {
      ContextsInvisible(d, bound.value.contexts, tenant);
    }
  }

  lemma OwnWriteReadable(d: Database, pid: int, tenant: string, fingerprint: string, now: int, op: Op)
    requires tenant != "" && Linked(d)
    requires StoreCall(d, pid, Some(tenant), Some(fingerprint), now, op).1 == Done
    ensures Readable(StoreCall(d, pid, Some(tenant), Some(fingerprint), now, op).0, tenant, d, now, op)
  {
    var bound := Establish(d, pid, tenant, fingerprint, now).value;
    ContextsInvisible(d, bound.contexts, tenant);
    OwnWrite(bound, tenant, now, op);
  }

  // ---------------------------------------------------------------- retired keys

  /** A session that runs holds a live key, so a key revoked or rotated away under any later
      key operations opens no session for any tenant, and the attempt changes nothing. */
  lemma RetiredKeyLockedOut(
    fp: string -> string, s: ApiKeys.KeyStore, retire: ApiKeys.Op, later: seq<ApiKeys.Op>, d: Database,
    pid: int, tenant: string, now: int, op: Op)
    requires ApiKeys.Sound(fp, s) && ApiKeys.Retires(retire, ApiKeys.Apply(fp, s, retire).1)
    requires d.keys == ApiKeys.Run(fp, ApiKeys.Apply(fp, s, retire).0, later).keys
    requires tenant != "" && fp(retire.secret) != ""
    ensures StoreCall(d, pid, Some(tenant), Some(fp(retire.secret)), now, op) == (d, Rejected(InvalidKey))
  {
    ApiKeys.RevocationIsFinal(fp, s, retire, later, now, None);
  }
}
