/** Approvals: the in-memory repository and service of safenestt/security/approval.py. */
module Approval {
  import opened Basics
  import Text

  datatype ApprovalStatus = Pending | Approved | Rejected | Expired | Cancelled

  datatype ApprovalRecord = ApprovalRecord(
    id: string, agentId: string, toolId: string, action: string, capability: string, risk: string,
    organization: Option<string>, createdAt: int, expirationAt: Option<int>, decisionAt: Option<int>,
    approver: Option<string>, status: ApprovalStatus, metadata: map<string, string>)

  type Records = map<string, ApprovalRecord>

  // Tenants are told apart only when both sides name one.
  predicate SameTenant(record: ApprovalRecord, organization: Option<string>) {
    !(Text.Truthy(record.organization) && Text.Truthy(organization) && record.organization != organization)
  }

  function Get(records: Records, id: string, organization: Option<string>): Option<ApprovalRecord> {
    if id in records && SameTenant(records[id], organization) then Some(records[id]) else None
  }

  predicate Undecided(records: Records, id: string, organization: Option<string>) {
    Get(records, id, organization).Some? && records[id].status == Pending
  }

  function Moved(
    records: Records, id: string, status: ApprovalStatus, organization: Option<string>, now: int): Records
  {
    if Undecided(records, id, organization) then records[id := records[id].(status := status, decisionAt := Some(now))]
    else records
  }

  predicate IsApproved(records: Records, id: string, organization: Option<string>, now: int) {
    var found := Get(records, id, organization);
    && found.Some? && found.value.status == Approved
    && !(found.value.expirationAt.Some? && found.value.expirationAt.value < now)
  }

  datatype Op =
    | Request(agentId: string, toolId: string, action: string, capability: string, risk: string,
              organization: Option<string>, expirationAt: Option<int>, now: int)
    | Decide(id: string, approved: bool, organization: Option<string>, approver: Option<string>,
             metadata: map<string, string>, now: int)
    | Cancel(id: string, organization: Option<string>, now: int)
    | Expire(id: string, organization: Option<string>, now: int)
    | Ask(id: string, organization: Option<string>, now: int)

  function RequestId(agentId: string, toolId: string, action: string): string {
    "approval-" + agentId + "-" + toolId + "-" + action
  }

  function Apply(records: Records, op: Op): Records {
    match op
    case Request(agentId, toolId, action, capability, risk, organization, expirationAt, now) =>
      var id := RequestId(agentId, toolId, action);
      if id in records then records
      else records[id := ApprovalRecord(id, agentId, toolId, action, capability, risk, organization, now, expirationAt,
                                        None, None, Pending, map[])]
    case Decide(id, approved, organization, approver, metadata, now) =>
      if !Undecided(records, id, organization) then records
      else records[id := records[id].(status := if approved then Approved else Rejected, decisionAt := Some(now),
                                      approver := approver, metadata := records[id].metadata + metadata)]
    case Cancel(id, organization, now) => Moved(records, id, Cancelled, organization, now)
    case Expire(id, organization, now) => Moved(records, id, Expired, organization, now)
    case Ask(_, _, _) => records
  }

  function Run(records: Records, ops: seq<Op>): Records
    decreases |ops|
  {
    if ops == [] then records else Run(Apply(records, ops[0]), ops[1..])
  }

  class InMemoryApprovalRepository {
    var records: Records

    // False when the id is taken: ValueError.
    method Create(record: ApprovalRecord) returns (ok: bool)
      modifies this
      ensures ok <==> record.id !in old(records)
      ensures records == if ok then old(records)[record.id := record] else old(records)
    {
      if record.id in records {
        return false;
      }
      records := records[record.id := record];
      return true;
    }

    method Transition(id: string, status: ApprovalStatus, organization: Option<string>, now: int) returns (moved: bool)
      modifies this
      ensures moved == Undecided(old(records), id, organization)
      ensures records == Moved(old(records), id, status, organization, now)
    {
      var record := Get(records, id, organization);
      if record.None? || record.value.status != Pending {
        return false;
      }
      records := records[id := record.value.(status := status, decisionAt := Some(now))];
      return true;
    }

    // approve and reject; None when nothing was pending for the caller.
    method Settle(
      id: string, status: ApprovalStatus, organization: Option<string>, approver: Option<string>,
      metadata: map<string, string>, now: int)
      returns (r: Option<ApprovalRecord>)
      requires status in {Approved, Rejected}
      modifies this
      ensures records == Apply(old(records), Decide(id, status == Approved, organization, approver, metadata, now))
      ensures r == if Undecided(old(records), id, organization) then Some(records[id]) else None
    {
      var moved := Transition(id, status, organization, now);
      if moved {
        var record := records[id];
        records := records[id := record.(approver := approver, metadata := record.metadata + metadata)];
        return Some(records[id]);
      }
      return None;
    }
  }

  class ApprovalService {
    const repository: InMemoryApprovalRepository

    constructor (repository: InMemoryApprovalRepository)
      ensures this.repository == repository
    {
      this.repository := repository;
    }

    method MakeRequest(
      agentId: string, toolId: string, action: string, capability: string, risk: string,
      organization: Option<string>, expirationAt: Option<int>, now: int) returns (ok: bool)
      modifies repository
      ensures ok <==> RequestId(agentId, toolId, action) !in old(repository.records)
      ensures repository.records
           == Apply(old(repository.records),
               Request(agentId, toolId, action, capability, risk, organization, expirationAt, now))
    {
      ok := repository.Create(ApprovalRecord(
        RequestId(agentId, toolId, action), agentId, toolId, action, capability, risk, organization, now, expirationAt,
        None, None, Pending, map[]));
    }

    method RecordDecision(
      id: string, approved: bool, organization: Option<string>, approver: Option<string>,
      metadata: map<string, string>, now: int)
      returns (r: Option<ApprovalRecord>)
      modifies repository
      ensures repository.records
        == Apply(old(repository.records), Decide(id, approved, organization, approver, metadata, now))
      ensures r == if Undecided(old(repository.records), id, organization) then Some(repository.records[id]) else None
    {
      if approved {
        r := repository.Settle(id, Approved, organization, approver, metadata, now);
      } else {
        r := repository.Settle(id, Rejected, organization, approver, metadata, now);
      }
    }

    /** Asking never changes the store, although an expired approval is passed to `expire`:
        only pending records move. */
    method AskApproved(id: string, organization: Option<string>, now: int) returns (r: bool)
      modifies repository
      ensures r == IsApproved(old(repository.records), id, organization, now)
      ensures repository.records == old(repository.records)
    {
      var record := Get(repository.records, id, organization);
      if record.None? {
        return false;
      }
      if record.value.status != Approved {
        return false;
      }
      if record.value.expirationAt.Some? && record.value.expirationAt.value < now {
        var _ := repository.Transition(id, Expired, organization, now);
        return false;
      }
      return true;
    }
  }

  // ---------------------------------------------------------------- what each operation does

  // The caller is kept out: both sides name an organization, and not the same.
  ghost predicate KeptOut(record: ApprovalRecord, organization: Option<string>) {
    && record.organization.Some? && record.organization.value != ""
    && organization.Some? && organization.value != "" && record.organization.value != organization.value
  }

  // Something is pending under this id for this caller.
  ghost predicate Open(records: Records, id: string, organization: Option<string>) {
    id in records && records[id].status == Pending && !KeptOut(records[id], organization)
  }

  /** A request is filed under the id made of agent, tool and action, as it was asked and pending,
      unless that id is taken. */
  lemma RequestFiles(
    records: Records, agentId: string, toolId: string, action: string, capability: string, risk: string,
    organization: Option<string>, expirationAt: Option<int>, now: int)
    ensures var id := "approval-" + agentId + "-" + toolId + "-" + action;
      var after := Apply(records, Request(agentId, toolId, action, capability, risk, organization, expirationAt, now));
      if id in records then after == records
      else
        && after.Keys == records.Keys + {id} && after - {id} == records - {id}
        && var filed := after[id];
        && filed.id == id && filed.agentId == agentId && filed.toolId == toolId && filed.action == action
        && filed.capability == capability && filed.risk == risk
        && filed.organization == organization && filed.expirationAt == expirationAt
        && filed.createdAt == now && filed.status == Pending
        && filed.decisionAt == None && filed.approver == None && filed.metadata == map[]
  {
  }

  /** Deciding, cancelling and expiring touch only what is pending for the caller, once, with the
      instant; a decision also leaves its approver and adds its metadata. Asking touches nothing. */
  lemma OnlyOpenRecordsMove(records: Records, op: Op)
    requires !op.Request?
    ensures var after := Apply(records, op);
      if op.Ask? || !Open(records, op.id, op.organization) then after == records
      else
        && after.Keys == records.Keys && after - {op.id} == records - {op.id}
        && var was, moved := records[op.id], after[op.id];
        && moved.decisionAt == Some(op.now)
        && match op
           case Decide(_, approved, _, approver, metadata, _) =>
             && (approved ==> moved.status == Approved) && (!approved ==> moved.status == Rejected)
             && moved.approver == approver
             && (forall k :: k in metadata ==> k in moved.metadata && moved.metadata[k] == metadata[k])
             && (forall k :: k in was.metadata && k !in metadata ==>
                   k in moved.metadata && moved.metadata[k] == was.metadata[k])
             && moved.metadata.Keys == was.metadata.Keys + metadata.Keys
             && moved == was.(status := moved.status, decisionAt := moved.decisionAt, approver := approver,
                              metadata := moved.metadata)
           case Cancel(_, _, _) => moved == was.(status := Cancelled, decisionAt := moved.decisionAt)
           case _ => moved == was.(status := Expired, decisionAt := moved.decisionAt)
  {
  }

  /** Approved means: a record under that id, approved, not kept from the caller, and not past its
      expiration. */
  lemma ApprovedMeans(records: Records, id: string, organization: Option<string>, now: int)
    ensures IsApproved(records, id, organization, now)
       <==> id in records && records[id].status == Approved && !KeptOut(records[id], organization)
            && (records[id].expirationAt.Some? ==> now <= records[id].expirationAt.value)
  {
  }

  // ---------------------------------------------------------------- decisions are final

  lemma DecidedStays(records: Records, op: Op, id: string)
    requires id in records && records[id].status != Pending
    ensures id in Apply(records, op) && Apply(records, op)[id] == records[id]
  {
  }

  /** Once decided, a record never changes again, in any field, under any operations. */
  lemma {:induction false} DecisionsAreFinal(records: Records, ops: seq<Op>, id: string)
    requires id in records && records[id].status != Pending
    ensures id in Run(records, ops) && Run(records, ops)[id] == records[id]
    decreases |ops|
  {
    if ops != [] {
      DecidedStays(records, ops[0], id);
      DecisionsAreFinal(Apply(records, ops[0]), ops[1..], id);
    }
  }

  /** After one positive answer, later answers to the same caller depend on the clock alone:
      approved until the expiration instant and at it, and not after it. */
  lemma ApprovalRunsOut(
    records: Records, id: string, organization: Option<string>, first: int, ops: seq<Op>, later: int)
    requires IsApproved(records, id, organization, first)
    ensures IsApproved(Run(records, ops), id, organization, later)
       <==> records[id].expirationAt.None? || later <= records[id].expirationAt.value
  {
    DecisionsAreFinal(records, ops, id);
  }

  /** So an approval that has turned from yes to no never turns back, whatever is done in
      between, as long as the clock does not run backwards. */
  lemma ApprovalNeverReturns(
    records: Records, id: string, organization: Option<string>, first: int, ops: seq<Op>, second: int, more: seq<Op>,
    third: int)
    requires IsApproved(records, id, organization, first)
    requires !IsApproved(Run(records, ops), id, organization, second) && second <= third
    ensures !IsApproved(Run(Run(records, ops), more), id, organization, third)
  {
    ApprovalRunsOut(records, id, organization, first, ops, second);
    DecisionsAreFinal(records, ops, id);
    DecisionsAreFinal(Run(records, ops), more, id);
  }

  /** Nothing is approved unless somebody decided so: starting with no approvals, a positive
      answer about an id means one of the operations was a positive decision on it. */
  lemma {:induction false} ApprovalNeedsDecision(records: Records, ops: seq<Op>, id: string)
    requires id in records ==> records[id].status != Approved
    requires id in Run(records, ops) && Run(records, ops)[id].status == Approved
    ensures exists i :: 0 <= i < |ops| && ops[i].Decide? && ops[i].approved && ops[i].id == id
    decreases |ops|
  {
    if ops != [] {
      var next := Apply(records, ops[0]);
      if id in next && next[id].status == Approved {
        assert ops[0].Decide? && ops[0].approved && ops[0].id == id;
      } else {
        ApprovalNeedsDecision(next, ops[1..], id);
        var i :| 0 <= i < |ops| - 1 && ops[1..][i].Decide? && ops[1..][i].approved && ops[1..][i].id == id;
        assert ops[i + 1] == ops[1..][i];
      }
    }
  }
}
