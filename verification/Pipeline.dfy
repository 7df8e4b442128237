/** The layered decision of safenestt/security/pipeline.py: rate limit, then permission, then a
    recorded approval, with a log of its own beside the permission manager's.

    The pipeline is built with the in-memory limiter, and its log and the permission manager's
    are separate objects. */
module Pipeline {
  import opened Basics
  import opened Permissions
  import Approval
  import RateLimit

  datatype Request = Request(agent: Option<Agent>, capability: string, organization: Option<string>, now: int)

  datatype Decision =
    | RateLimited(resetAt: int)
    | Refused(auth: Authorization)
    | NotApproved(auth: Authorization)
    | Allowed(auth: Authorization)

  datatype Entry = Entry(actorId: Option<string>, action: string, decision: Decision)

  datatype State = State(
    entries: RateLimit.Entries, policy: Policy, permissionLog: seq<Event>, records: Approval.Records, log: seq<Entry>)

  function RateKey(r: Request): string {
    (if r.agent.None? then "unknown" else if r.agent.value.agentId.None? then "None" else r.agent.value.agentId.value)
    + ":" + r.capability
  }

  // Tools are limited per agent and capability, with the service's default limit and window (seconds).
  const LIMIT := 10
  const WINDOW := 60

  function CallOf(r: Request): RateLimit.Call {
    RateLimit.Call("tool", RateKey(r), LIMIT, WINDOW, r.now)
  }

  predicate PassesRate(s: State, r: Request) {
    RateLimit.Reply(s.entries, CallOf(r)).allowed
  }

  function Decide(s: State, r: Request): Decision {
    var rate := RateLimit.Reply(s.entries, CallOf(r));
    var auth := Judge(s.policy, r.agent, r.capability);
    if !rate.allowed then RateLimited(rate.resetAt)
    else if !auth.Allows() then Refused(auth)
    else if auth.approvalRequired && auth.approvalId.Some? && auth.approvalId.value != ""
            && !Approval.IsApproved(s.records, auth.approvalId.value, r.organization, r.now) then NotApproved(auth)
    else Allowed(auth)
  }

  function Next(s: State, r: Request): State {
    var d := Decide(s, r);
    s.(entries := RateLimit.Charge(s.entries, CallOf(r)),
       permissionLog :=
         s.permissionLog + if PassesRate(s, r) then [Logged(Judge(s.policy, r.agent, r.capability))] else [],
       log := s.log + if d.Allowed? then [] else [EntryOf(r, d)])
  }

  function EntryOf(r: Request, d: Decision): Entry {
    match d
    case RateLimited(_) => Entry(if r.agent.Some? then r.agent.value.agentId else None, r.capability, d)
    case _ => Entry(d.auth.agentId, r.capability, d)
  }

  class SecurityPipeline {
    const limiter: RateLimit.InMemoryRateLimiter
    const permissions: PermissionManager
    const approvals: Approval.ApprovalService
    var log: seq<Entry>

    constructor (
      limiter: RateLimit.InMemoryRateLimiter, permissions: PermissionManager, approvals: Approval.ApprovalService)
      ensures this.limiter == limiter && this.permissions == permissions && this.approvals == approvals && log == []
    {
      this.limiter, this.permissions, this.approvals := limiter, permissions, approvals;
      log := [];
    }

    ghost function Current(): State
      reads this, limiter, permissions, approvals.repository
    {
      State(limiter.entries, permissions.Current(), permissions.log, approvals.repository.records, log)
    }

    method Authorize(r: Request) returns (d: Decision)
      modifies this`log, limiter, permissions`log, approvals.repository
      ensures d == Decide(old(Current()), r)
      ensures Current() == Next(old(Current()), r)
    {
      var rate := limiter.Check(CallOf(r));
      if !rate.allowed {
        d := RateLimited(rate.resetAt);
        log := log + [Entry(if r.agent.Some? then r.agent.value.agentId else None, r.capability, d)];
        return;
      }
      var auth := permissions.Authorize(r.agent, r.capability);
      if !auth.Allows() {
        d := Refused(auth);
        log := log + [Entry(auth.agentId, r.capability, d)];
        return;
      }
      if auth.approvalRequired && auth.approvalId.Some? && auth.approvalId.value != "" {
        var approved := approvals.AskApproved(auth.approvalId.value, r.organization, r.now);
        if !approved {
          d := NotApproved(auth);
          log := log + [Entry(auth.agentId, r.capability, d)];
          return;
        }
      }
      d := Allowed(auth);
    }
  }

  // ---------------------------------------------------------------- one request

  /** Which kind of decision a request gets, what it carries, and what it leaves: one charge to the
      limiter, one permission event if the rate allows, and one entry of the pipeline's own, naming
      the agent if it has a name, exactly if the request is not allowed. */
  lemma DecisionLeaves(s: State, r: Request)
    ensures var d, next, auth := Decide(s, r), Next(s, r), Judge(s.policy, r.agent, r.capability);
      var caller := if r.agent.Some? then r.agent.value.agentId else None;
      var name := if r.agent.None? then "unknown" else if caller.None? then "None" else caller.value;
      var call := RateLimit.Call("tool", name + ":" + r.capability, 10, 60, r.now);
      var rate := RateLimit.Reply(s.entries, call);
      && (!rate.allowed ==> d == RateLimited(rate.resetAt))
      && (rate.allowed && !auth.Allows() ==> d == Refused(auth))
      && (rate.allowed && auth.Allows() ==>
            && (auth.approvalRequired ==> auth.approvalId.Some?)
            && var waiting := auth.approvalRequired
                 && !Approval.IsApproved(s.records, auth.approvalId.value, r.organization, r.now);
               d == if waiting then NotApproved(auth) else Allowed(auth))
      && next.entries == RateLimit.Charge(s.entries, call)
      && next.policy == s.policy && next.records == s.records
      && next.permissionLog == (if rate.allowed then s.permissionLog + [Logged(auth)] else s.permissionLog)
      && next.log == if d.Allowed? then s.log else s.log + [Entry(caller, r.capability, d)]
  {
    DecisionExplained(s.policy, r.agent, r.capability);
    assert RateLimit.Reply(s.entries, CallOf(r)).allowed <==> PassesRate(s, r);
  }

  function Decisions(s: State, requests: seq<Request>): (r: seq<Decision>)
    ensures |r| == |requests|
    decreases |requests|
  {
    if requests == [] then [] else [Decide(s, requests[0])] + Decisions(Next(s, requests[0]), requests[1..])
  }

  function CallsOf(requests: seq<Request>): (r: seq<RateLimit.Call>)
    ensures |r| == |requests|
    ensures forall i :: 0 <= i < |r| ==> r[i] == CallOf(requests[i])
  {
    seq(|requests|, i requires 0 <= i < |requests| => CallOf(requests[i]))
  }

  lemma DecisionFollowsReply(s: State, r: Request)
    ensures Next(s, r).entries == RateLimit.Charge(s.entries, CallOf(r))
    ensures var reply := RateLimit.Reply(s.entries, CallOf(r));
      if reply.allowed then !Decide(s, r).RateLimited? else Decide(s, r) == RateLimited(reply.resetAt)
  {
  }

  lemma {:induction false} DecisionsFollowReplies(s: State, requests: seq<Request>)
    ensures var replies := RateLimit.Replies(s.entries, CallsOf(requests));
      forall i :: 0 <= i < |requests| ==>
        if replies[i].allowed then !Decisions(s, requests)[i].RateLimited?
        else Decisions(s, requests)[i] == RateLimited(replies[i].resetAt)
    decreases |requests|
  {
    if requests != [] {
      var next, replies := Next(s, requests[0]), RateLimit.Replies(s.entries, CallsOf(requests));
      DecisionFollowsReply(s, requests[0]);
      DecisionsFollowReplies(next, requests[1..]);
      assert CallsOf(requests)[1..] == CallsOf(requests[1..]);
      assert replies[1..] == RateLimit.Replies(next.entries, CallsOf(requests[1..]));
      assert Decisions(s, requests)[1..] == Decisions(next, requests[1..]);
      forall i | 0 <= i < |requests|
        ensures if replies[i].allowed then !Decisions(s, requests)[i].RateLimited?
                else Decisions(s, requests)[i] == RateLimited(replies[i].resetAt)
      {
        if i > 0 {
          assert Decisions(s, requests)[i] == Decisions(next, requests[1..])[i - 1];
          assert replies[i] == replies[1..][i - 1];
        }
      }
    }
  }

  /** Of the requests on one rate key within the 60 seconds after a first one at t, ten pass the
      rate limit, whatever becomes of them, and every later one is told to come back at the end of
      that minute. */
  lemma TenPassPerMinute(s: State, requests: seq<Request>, key: string, t: int)
    requires requests != [] && requests[0].now == t
    requires forall i :: 0 <= i < |requests| ==>
      RateKey(requests[i]) == key && t <= requests[i].now < t + 60_000_000
    requires ("tool", key) in s.entries ==> s.entries[("tool", key)].resetAt <= t
    ensures forall i :: 0 <= i < |requests| ==>
      if i < 10 then !Decisions(s, requests)[i].RateLimited?
      else Decisions(s, requests)[i] == RateLimited(t + 60_000_000)
  {
    DecisionsFollowReplies(s, requests);
    RateLimit.WindowReplies(s.entries, CallsOf(requests), ("tool", key), 10, 60, t);
  }

  // ---------------------------------------------------------------- runs

  // Between requests, permissions and approvals may be changed at will.
  datatype Step = Ask(request: Request) | Reconfigure(policy: Policy, records: Approval.Records)

  function After(s: State, steps: seq<Step>): State
    decreases |steps|
  {
    if steps == [] then s else After(Once(s, steps[0]), steps[1..])
  }

  function Once(s: State, step: Step): (next: State)
    ensures step.Reconfigure? ==>
      next == State(s.entries, step.policy, s.permissionLog, step.records, s.log)
  {
    match step
    case Ask(r) => Next(s, r)
    case Reconfigure(policy, records) => s.(policy := policy, records := records)
  }

  function Denials(s: State, steps: seq<Step>): nat
    decreases |steps|
  {
    if steps == [] then 0
    else
      (if steps[0].Ask? && !Decide(s, steps[0].request).Allowed? then 1 else 0)
      + Denials(Once(s, steps[0]), steps[1..])
  }

  function RatePasses(s: State, steps: seq<Step>): nat
    decreases |steps|
  {
    if steps == [] then 0
    else (if steps[0].Ask? && PassesRate(s, steps[0].request) then 1 else 0) + RatePasses(Once(s, steps[0]), steps[1..])
  }

  // Requests on one rate key allowed at instants in [lo, hi).
  function Allows(s: State, steps: seq<Step>, key: string, lo: int, hi: int): nat
    decreases |steps|
  {
    if steps == [] then 0
    else
      (if steps[0].Ask? && RateKey(steps[0].request) == key && lo <= steps[0].request.now < hi
          && Decide(s, steps[0].request).Allowed? then 1 else 0)
      + Allows(Once(s, steps[0]), steps[1..], key, lo, hi)
  }

  function Calls(steps: seq<Step>): seq<RateLimit.Call> {
    if steps == [] then []
    else (if steps[0].Ask? then [CallOf(steps[0].request)] else []) + Calls(steps[1..])
  }

  /** Over any run the pipeline's log grows by one entry per denial, and the permission log by
      one event per request that passed the rate limit. */
  lemma {:induction false} LogsCount(s: State, steps: seq<Step>)
    ensures |After(s, steps).log| == |s.log| + Denials(s, steps)
    ensures |After(s, steps).permissionLog| == |s.permissionLog| + RatePasses(s, steps)
    decreases |steps|
  {
    if steps != [] {
      LogsCount(Once(s, steps[0]), steps[1..]);
    }
  }

  lemma {:induction false} AllowsAreGrants(s: State, steps: seq<Step>, key: string, lo: int, hi: int)
    ensures Allows(s, steps, key, lo, hi) <= RateLimit.Grants(s.entries, Calls(steps), ("tool", key), lo, hi)
    decreases |steps|
  {
    if steps != [] {
      AllowsAreGrants(Once(s, steps[0]), steps[1..], key, lo, hi);
      if steps[0].Ask? {
        var c := CallOf(steps[0].request);
        assert Calls(steps)[0] == c && Calls(steps)[1..] == Calls(steps[1..]);
        assert c.Bucket() == ("tool", key) <==> RateKey(steps[0].request) == key;
      } else {
        assert Calls(steps) == Calls(steps[1..]);
      }
    }
  }

  lemma {:induction false} CallsUniform(steps: seq<Step>, k: RateLimit.Bucket)
    ensures RateLimit.Uniform(Calls(steps), k, LIMIT, WINDOW)
  {
    if steps != [] {
      CallsUniform(steps[1..], k);
      if steps[0].Ask? {
        assert Calls(steps) == [CallOf(steps[0].request)] + Calls(steps[1..]);
      } else {
        assert Calls(steps) == Calls(steps[1..]);
      }
    }
  }

  /** However permissions and approvals change, one agent and capability get at most 19
      allowed requests in any 60 seconds, one less than two full windows. */
  lemma AtMostNineteenPerMinute(s: State, steps: seq<Step>, key: string, lo: int)
    requires s.entries == map[] && RateLimit.Ordered(Calls(steps))
    ensures Allows(s, steps, key, lo, lo + 60 * MICROS) <= 19
  {
    AllowsAreGrants(s, steps, key, lo, lo + 60 * MICROS);
    CallsUniform(steps, ("tool", key));
    RateLimit.SlidingWindowBound(Calls(steps), ("tool", key), LIMIT, WINDOW, lo, 1);
  }

  // The requests that make these calls.
  function Asking(
    calls: seq<RateLimit.Call>, agent: Agent, capability: string, organization: Option<string>): seq<Step>
  {
    if calls == [] then []
    else
      [Ask(Request(Some(agent), capability, organization, calls[0].now))]
      + Asking(calls[1..], agent, capability, organization)
  }

  // For a permitted agent of LOW risk the rate limit alone decides.
  lemma {:induction false} GrantsAreAllowed(
    s: State, calls: seq<RateLimit.Call>, agent: Agent, capability: string, organization: Option<string>, lo: int,
    hi: int)
    requires Judge(s.policy, Some(agent), capability).Allows() && EffectiveRisk(agent.risk) == LOW
    requires var k := ("tool", RateKey(Request(Some(agent), capability, organization, 0)));
      forall i :: 0 <= i < |calls| ==> calls[i].Bucket() == k && calls[i].limit == LIMIT && calls[i].window == WINDOW
    ensures var steps, k := Asking(calls, agent, capability, organization),
          ("tool", RateKey(Request(Some(agent), capability, organization, 0)));
      && Calls(steps) == calls
      && Allows(s, steps, k.1, lo, hi) == RateLimit.Grants(s.entries, calls, k, lo, hi)
    decreases |calls|
  {
    if calls != [] {
      var step := Ask(Request(Some(agent), capability, organization, calls[0].now));
      var steps := Asking(calls, agent, capability, organization);
      assert steps[0] == step && steps[1..] == Asking(calls[1..], agent, capability, organization);
      assert CallOf(step.request) == calls[0];
      GrantsAreAllowed(Once(s, step), calls[1..], agent, capability, organization, lo, hi);
    }
  }

  /** The bound is reached: any agent of LOW risk with a permission gets 19 requests through
      within one minute, if it opens a window and spends the rest of it just before it ends. */
  lemma NineteenReached(s: State, agent: Agent, capability: string, organization: Option<string>)
    returns (steps: seq<Step>, lo: int)
    requires s.entries == map[]
    requires Judge(s.policy, Some(agent), capability).Allows() && EffectiveRisk(agent.risk) == LOW
    ensures RateLimit.Ordered(Calls(steps))
    ensures var key := RateKey(Request(Some(agent), capability, organization, 0));
      Allows(s, steps, key, lo, lo + 60 * MICROS) == 19
  {
    var k := ("tool", RateKey(Request(Some(agent), capability, organization, 0)));
    var calls := RateLimit.Burst(k, LIMIT, WINDOW, 1);
    lo := WINDOW * MICROS - 1;
    steps := Asking(calls, agent, capability, organization);
    RateLimit.BurstWellTimed(k, LIMIT, WINDOW, 1);
    RateLimit.BurstAttainsBound(k, LIMIT, WINDOW, 1, lo);
    GrantsAreAllowed(s, calls, agent, capability, organization, lo, lo + 60 * MICROS);
  }

  /** A request is allowed exactly when it has a rate token, the agent is authorised, and from
      MEDIUM risk on the approval service approves the id on record as well. */
  lemma AllowedExactlyWhen(s: State, r: Request)
    requires forall k :: k in s.policy.approvals ==> s.policy.approvals[k].approvalId == k
    ensures Decide(s, r).Allowed? <==>
      && PassesRate(s, r)
      && r.agent.Some? && r.agent.value.agentId.Some? && Active(r.agent.value) && WellFormed(r.capability)
      && GrantedTo(s.policy, r.agent.value.agentId.value, r.capability)
      && (EffectiveRisk(r.agent.value.risk) != LOW ==>
            var key := ApprovalKey(r.agent.value.agentId.value, r.capability);
            && key in s.policy.approvals && s.policy.approvals[key].approved
            && Approval.IsApproved(s.records, key, r.organization, r.now))
  {
    AuthorizedExactlyWhen(s.policy, r.agent, r.capability);
    RequiredIsCapability(r.capability);
  }

  // ---------------------------------------------------------------- the two approval ids

  function Dashes(s: string): nat {
    if s == "" then 0 else (if s[0] == '-' then 1 else 0) + Dashes(s[1..])
  }

  lemma {:induction false} DashesAdd(a: string, b: string)
    ensures Dashes(a + b) == Dashes(a) + Dashes(b)
  {
    if a == "" {
      assert a + b == b;
    } else {
      DashesAdd(a[1..], b);
      assert (a + b)[1..] == a[1..] + b;
    }
  }

  lemma {:induction false} NoDashes(s: string)
    requires '-' !in s
    ensures Dashes(s) == 0
  {
    if s != "" {
      NoDashes(s[1..]);
    }
  }

  // The pipeline asks for approval-agent-capability; a request is filed under
  // approval-agent-tool-action, which has one dash more.
  lemma IdsDiffer(agentId: string, capability: string, a: string, t: string, x: string)
    requires '-' !in agentId && '-' !in capability
    ensures ApprovalKey(agentId, capability) != Approval.RequestId(a, t, x)
  {
    var p := "approval-";
    NoDashes(agentId);
    NoDashes(capability);
    DashesAdd(p + agentId + "-", capability);
    DashesAdd(p + agentId, "-");
    DashesAdd(p, agentId);
    DashesAdd(p + a + "-" + t + "-", x);
    DashesAdd(p + a + "-" + t, "-");
    DashesAdd(p + a + "-", t);
    DashesAdd(p + a, "-");
    DashesAdd(p, a);
    assert Dashes("-") == 1;
  }

  ghost predicate FiledByRequest(records: Approval.Records) {
    forall k :: k in records ==> exists a, t, x :: k == Approval.RequestId(a, t, x)
  }

  lemma {:induction false} RunsFileByRequest(records: Approval.Records, ops: seq<Approval.Op>)
    requires FiledByRequest(records)
    ensures FiledByRequest(Approval.Run(records, ops))
    decreases |ops|
  {
    if ops != [] {
      RunsFileByRequest(Approval.Apply(records, ops[0]), ops[1..]);
    }
  }

  // For names without dashes no run files an approval under the id the pipeline asks for.
  lemma NeverFiled(ops: seq<Approval.Op>, agentId: string, capability: string)
    requires '-' !in agentId && '-' !in capability
    ensures ApprovalKey(agentId, capability) !in Approval.Run(map[], ops)
  {
    var key, records := ApprovalKey(agentId, capability), Approval.Run(map[], ops);
    RunsFileByRequest(map[], ops);
    if key in records {
      var a, t, x :| key == Approval.RequestId(a, t, x);
      IdsDiffer(agentId, capability, a, t, x);
    }
  }

  lemma AtDash(s: string) returns (a: string, b: string)
    requires '-' in s
    ensures s == a + "-" + b
  {
    var i :| 0 <= i < |s| && s[i] == '-';
    a, b := s[..i], s[i + 1..];
  }

  // A dash in either name splits the id the pipeline asks for into the parts of a request.
  lemma RequestUnderKey(agentId: string, capability: string) returns (a: string, t: string, x: string)
    requires '-' in agentId || '-' in capability
    ensures Approval.RequestId(a, t, x) == ApprovalKey(agentId, capability)
  {
    if '-' in agentId {
      a, t := AtDash(agentId);
      x := capability;
      assert "approval-" + a + "-" + t == "approval-" + agentId;
    } else {
      a := agentId;
      t, x := AtDash(capability);
      assert "approval-" + a + "-" + t + "-" + x == "approval-" + a + "-" + capability;
    }
  }

  // Two operations that file and approve such a request.
  function Granting(a: string, t: string, x: string, now: int): seq<Approval.Op> {
    [Approval.Request(a, t, x, "", "", None, None, now),
     Approval.Decide(Approval.RequestId(a, t, x), true, None, None, map[], now)]
  }

  lemma GrantingApproves(a: string, t: string, x: string, organization: Option<string>, now: int)
    ensures var records := Approval.Run(map[], Granting(a, t, x, now));
      Approval.IsApproved(records, Approval.RequestId(a, t, x), organization, now)
  {
    var ops := Granting(a, t, x, now);
    var requested := Approval.Apply(map[], ops[0]);
    assert ops[1..] == [ops[1]] && ops[1..][1..] == [];
    assert Approval.Run(map[], ops) == Approval.Run(requested, ops[1..])
        == Approval.Run(Approval.Apply(requested, ops[1]), []);
  }

  // The decision once the approval service has gone through these operations.
  predicate AllowedAfter(s: State, ops: seq<Approval.Op>, r: Request) {
    Decide(s.(records := Approval.Run(map[], ops)), r).Allowed?
  }

  /** The two layers file and look up approvals under different ids. A request that has a rate
      token and a permission gets through in some run of the approval service exactly when its
      risk is LOW or there is a dash in the agent's id or in the capability, where the two kinds
      of id can meet. */
  lemma SomeRunAllowsExactlyWhen(s: State, r: Request)
    requires forall k :: k in s.policy.approvals ==> s.policy.approvals[k].approvalId == k
    ensures (exists ops :: AllowedAfter(s, ops, r))
       <==> && PassesRate(s, r) && Judge(s.policy, r.agent, r.capability).Allows()
            && (EffectiveRisk(r.agent.value.risk) == LOW || '-' in r.agent.value.agentId.value || '-' in r.capability)
  {
    AuthorizedExactlyWhen(s.policy, r.agent, r.capability);
    if PassesRate(s, r) && Judge(s.policy, r.agent, r.capability).Allows() {
      var agentId := r.agent.value.agentId.value;
      if EffectiveRisk(r.agent.value.risk) == LOW {
        assert AllowedAfter(s, [], r);
      } else if '-' in agentId || '-' in r.capability {
        var a, t, x := RequestUnderKey(agentId, r.capability);
        GrantingApproves(a, t, x, r.organization, r.now);
        AllowedExactlyWhen(s.(records := Approval.Run(map[], Granting(a, t, x, r.now))), r);
        assert AllowedAfter(s, Granting(a, t, x, r.now), r);
      } else {
        forall ops ensures !AllowedAfter(s, ops, r) {
          NeverFiled(ops, agentId, r.capability);
          AllowedExactlyWhen(s.(records := Approval.Run(map[], ops)), r);
        }
      }
    }
  }

  /** In particular no approval service run lets a request of MEDIUM risk or above through for
      names without dashes. */
  lemma RiskyRequestsNeverAllowed(s: State, ops: seq<Approval.Op>, r: Request)
    requires forall k :: k in s.policy.approvals ==> s.policy.approvals[k].approvalId == k
    requires s.records == Approval.Run(map[], ops)
    requires r.agent.Some? && r.agent.value.agentId.Some? && EffectiveRisk(r.agent.value.risk) != LOW
    requires '-' !in r.agent.value.agentId.value && '-' !in r.capability
    ensures !Decide(s, r).Allowed?
  {
    assert s == s.(records := Approval.Run(map[], ops));
    SomeRunAllowsExactlyWhen(s, r);
    assert !AllowedAfter(s, ops, r);
  }
}
