/** Authorisation of agents and guarded execution of tools: safenestt/security/permissions.py
    and safenestt/tools/interface.py. */
module Permissions {
  import opened Basics
  import opened Redaction
  import Text

  datatype RiskLevel = LOW | MEDIUM | HIGH | CRITICAL

  // An agent's risk attribute: a level, or some other value known by its text.
  datatype RiskAttribute = Level(level: RiskLevel) | Named(name: string)

  datatype Agent = Agent(agentId: Option<string>, enabled: bool, status: Option<string>, risk: RiskAttribute)

  datatype RecordedApproval = RecordedApproval(approvalId: string, approved: bool)

  datatype Policy = Policy(granted: map<string, set<string>>, approvals: map<string, RecordedApproval>)

  datatype Reason =
    | MissingAgent | AgentInactive | InvalidCapability | MissingPermission | ApprovalRequired | Authorized

  datatype Authorization = Authorization(
    reason: Reason, agentId: Option<string>, action: string, risk: RiskLevel, required: Option<string>,
    approvalRequired: bool, approvalId: Option<string>)
  {
    predicate Allows() { reason == Authorized }
  }

  datatype Event = Event(
    eventId: string, actorType: string, actorId: Option<string>, action: string, allowed: bool, risk: RiskLevel,
    detail: Reason)

  function LevelNamed(name: string): Option<RiskLevel> {
    match name
    case "LOW" => Some(LOW)
    case "MEDIUM" => Some(MEDIUM)
    case "HIGH" => Some(HIGH)
    case "CRITICAL" => Some(CRITICAL)
    case _ => None
  }

  function EffectiveRisk(risk: RiskAttribute): RiskLevel {
    match risk
    case Level(level) => level
    case Named(name) => if LevelNamed(name).Some? then LevelNamed(name).value else LOW
  }

  const PREFIX := "tools."

  // The permission a capability asks for, taken apart at the dots and put together again.
  function Required(capability: string): Option<string> {
    if Text.Blank(capability) then None
    else if !Text.StartsWith(capability, PREFIX) then Some(capability)
    else
      var parts := Text.Split(capability);
      var n := |parts|;
      if n < 3 || parts[1] == "" || parts[n - 1] == "" then None
      else Some(Text.Rebuilt(PREFIX, parts))
  }

  predicate Active(agent: Agent) {
    agent.enabled && (agent.status.None? || agent.status.value == "active")
  }

  function ApprovalKey(agentId: string, permission: string): string {
    "approval-" + agentId + "-" + permission
  }

  function Judge(policy: Policy, agent: Option<Agent>, capability: string): Authorization {
    var required := Required(capability);
    if agent.None? || agent.value.agentId.None? then
      Authorization(MissingAgent, None, capability, LOW, required, false, None)
    else
      var id := agent.value.agentId;
      if !Active(agent.value) then Authorization(AgentInactive, id, capability, LOW, required, false, None)
      else if required.None? then Authorization(InvalidCapability, id, capability, LOW, None, false, None)
      else
        var granted := if id.value in policy.granted then policy.granted[id.value] else {};
        if required.value !in granted && "*" !in granted then
          Authorization(MissingPermission, id, capability, LOW, required, false, None)
        else
          var risk := EffectiveRisk(agent.value.risk);
          if risk == LOW then Authorization(Authorized, id, capability, risk, required, false, None)
          else
            var key := ApprovalKey(id.value, required.value);
            if key !in policy.approvals || !policy.approvals[key].approved then
              Authorization(ApprovalRequired, id, capability, risk, required, true, Some(key))
            else
              var recorded := policy.approvals[key].approvalId;
              Authorization(Authorized, id, capability, risk, required, true,
                            Some(if recorded != "" then recorded else key))
  }

  // The audit event of a decision; every text in it is redacted on the way to the log.
  function Logged(d: Authorization): Event {
    Event(
      RedactText(if d.Allows() then "auth-allow"
                 else if d.reason == ApprovalRequired then "auth-approval-required" else "auth-deny"),
      RedactText(if d.reason == MissingAgent then "system" else "agent"),
      if d.agentId.Some? then Some(RedactText(d.agentId.value)) else None,
      RedactText(d.action), d.Allows(), d.risk, d.reason)
  }

  class PermissionManager {
    var granted: map<string, set<string>>
    var approvals: map<string, RecordedApproval>
    var log: seq<Event>

    function Current(): Policy
      reads this
    {
      Policy(granted, approvals)
    }

    method Emit(d: Authorization)
      modifies this`log
      ensures log == old(log) + [Logged(d)]
    {
      log := log + [Logged(d)];
    }

    /** Exactly one event is logged per decision. */
    method Authorize(agent: Option<Agent>, capability: string) returns (d: Authorization)
      modifies this`log
      ensures d == Judge(Current(), agent, capability)
      ensures log == old(log) + [Logged(d)]
    {
      d := Judge(Current(), agent, capability);
      Emit(d);
    }

    method RecordApproval(approvalId: string, approved: bool)
      modifies this`approvals
      ensures approvals == old(approvals)[approvalId := RecordedApproval(approvalId, approved)]
    {
      approvals := approvals[approvalId := RecordedApproval(approvalId, approved)];
    }
  }

  // ---------------------------------------------------------------- what a capability must look like

  // Something between the prefix and the last dot, not starting with a dot, and something after it.
  predicate WellFormed(capability: string) {
    && !Text.Blank(capability)
    && (Text.StartsWith(capability, PREFIX) ==>
          var rest := capability[|PREFIX|..];
          '.' in rest && rest[0] != '.' && rest[|rest| - 1] != '.')
  }

  lemma RequiredOfTool(capability: string, rest: string)
    requires capability == PREFIX + rest && !Text.Blank(capability)
    ensures Required(capability) ==
      if '.' in rest && rest[0] != '.' && rest[|rest| - 1] != '.' then Some(capability) else None
  {
    Text.SplitParts(PREFIX, "tools", rest);
    if '.' in rest {
      Text.SplitRebuild(PREFIX, "tools", rest);
    }
  }

  /** Taking a capability apart and putting it together gives the capability itself, and it
      fails exactly for ill-formed ones. */
  lemma RequiredIsCapability(capability: string)
    ensures Required(capability) == if WellFormed(capability) then Some(capability) else None
  {
    if Text.StartsWith(capability, PREFIX) && !Text.Blank(capability) {
      assert capability == PREFIX + capability[|PREFIX|..];
      RequiredOfTool(capability, capability[|PREFIX|..]);
    }
  }

  ghost predicate ApprovedFor(policy: Policy, agent: Agent, id: string, capability: string) {
    var key := ApprovalKey(id, capability);
    EffectiveRisk(agent.risk) != LOW ==> key in policy.approvals && policy.approvals[key].approved
  }

  ghost predicate GrantedTo(policy: Policy, id: string, capability: string) {
    id in policy.granted && (capability in policy.granted[id] || "*" in policy.granted[id])
  }

  /** An agent is authorised exactly when it is known and active, the capability is well formed,
      the capability string itself or "*" was granted, and from MEDIUM risk on an approval is
      recorded. */
  lemma AuthorizedExactlyWhen(policy: Policy, agent: Option<Agent>, capability: string)
    ensures Judge(policy, agent, capability).Allows()
       <==> agent.Some? && agent.value.agentId.Some? && Active(agent.value) && WellFormed(capability)
            && GrantedTo(policy, agent.value.agentId.value, capability)
            && ApprovedFor(policy, agent.value, agent.value.agentId.value, capability)
  {
    RequiredIsCapability(capability);
  }

  /** Why a request is refused, and what is reported with it: the first condition that fails, in
      the order agent, activity, capability, grant, approval. Risk and approval id come up only
      for a granted capability. */
  lemma DecisionExplained(policy: Policy, agent: Option<Agent>, capability: string)
    ensures var d := Judge(policy, agent, capability);
      var known := agent.Some? && agent.value.agentId.Some?;
      var early := Authorization(d.reason, d.agentId, capability, LOW, d.required, false, None);
      && d.action == capability && d.required == (if WellFormed(capability) then Some(capability) else None)
      && d.agentId == (if known then agent.value.agentId else None)
      && if !known then d.reason == MissingAgent && d == early
         else if !agent.value.enabled || (agent.value.status.Some? && agent.value.status.value != "active") then
           d.reason == AgentInactive && d == early
         else if !WellFormed(capability) then d.reason == InvalidCapability && d == early
         else
           var id, risk := agent.value.agentId.value, EffectiveRisk(agent.value.risk);
           var key := "approval-" + id + "-" + capability;
           if !GrantedTo(policy, id, capability) then d.reason == MissingPermission && d == early
           else if risk == LOW then d.reason == Authorized && d == early
           else
             && d.risk == risk && d.approvalRequired && d.approvalId.Some?
             && (key in policy.approvals && policy.approvals[key].approved ==>
                   && d.reason == Authorized
                   && d.approvalId.value
                      == if policy.approvals[key].approvalId == "" then key else policy.approvals[key].approvalId)
             && (key !in policy.approvals || !policy.approvals[key].approved ==>
                   d.reason == ApprovalRequired && d.approvalId.value == key)
  {
    RequiredIsCapability(capability);
  }

  /** Only the four names are risk levels; an agent whose risk is anything else counts as LOW. */
  lemma RiskByName(name: string)
    ensures EffectiveRisk(Named(name)) == LOW <==> name !in {"MEDIUM", "HIGH", "CRITICAL"}
    ensures EffectiveRisk(Named("MEDIUM")) == MEDIUM && EffectiveRisk(Named("HIGH")) == HIGH
    ensures EffectiveRisk(Named("CRITICAL")) == CRITICAL
    ensures LevelNamed(name).Some? <==> name in {"LOW", "MEDIUM", "HIGH", "CRITICAL"}
    ensures LevelNamed(name).Some? ==> LevelNamed(name).value == EffectiveRisk(Named(name))
    ensures forall level :: EffectiveRisk(Level(level)) == level
  {
  }

  // None of the words that name secrets begins anywhere in a text of one of these kinds.
  lemma EventWordsArePublic()
    ensures !LooksSecret("auth-allow") && !LooksSecret("auth-deny") && !LooksSecret("auth-approval-required")
    ensures !LooksSecret("system") && !LooksSecret("agent")
  {
    Public("auth-allow");
    Public("auth-deny");
    Public("auth-approval-required");
    Public("system");
    Public("agent");
  }

  predicate EventWord(s: string) {
    s in {"auth-allow", "auth-deny", "auth-approval-required", "system", "agent"}
  }

  lemma EventWordsAreLowerCase(s: string)
    requires EventWord(s)
    ensures forall j :: 0 <= j < |s| ==> Fold(s[j]) == s[j]
  {
  }

  // The words that name secrets differ from any part of these texts in their first letters.
  lemma Apart(s: string, i: nat, word: string)
    requires EventWord(s) && NamesSecret(word) && i + |word| <= |s|
    ensures |word| >= 3
    ensures s[i] != word[0] || s[i + 1] != word[1] || s[i + 2] != word[2] || (|word| > 4 && s[i + 4] != word[4])
  {
  }

  lemma NoMatch(s: string, i: nat, word: string)
    requires (forall j :: 0 <= j < |s| ==> Fold(s[j]) == s[j]) && i + |word| <= |s| && |word| >= 3
    requires s[i] != word[0] || s[i + 1] != word[1] || s[i + 2] != word[2] || (|word| > 4 && s[i + 4] != word[4])
    ensures !MatchesAt(word, s, i)
  {
    var j := if s[i] != word[0] then 0 else if s[i + 1] != word[1] then 1 else if s[i + 2] != word[2] then 2 else 4;
    assert Fold(s[i + j]) != word[j];
  }

  lemma Public(s: string)
    requires EventWord(s)
    ensures !LooksSecret(s)
  {
    EventWordsAreLowerCase(s);
    SecretWordsNameSecrets();
    forall w, i | 0 <= w < |SECRET_WORDS| && 0 <= i <= |s| ensures !MatchesAt(SECRET_WORDS[w], s, i) {
      if i + |SECRET_WORDS[w]| <= |s| {
        Apart(s, i, SECRET_WORDS[w]);
        NoMatch(s, i, SECRET_WORDS[w]);
      }
    }
  }

  /** What is logged about a decision: whether it allows, its reason and risk, and who asked for
      what, secrets blotted out. The words the log itself uses are never blotted out. */
  lemma LoggedSays(d: Authorization)
    ensures var e := Logged(d);
      && e.allowed == (d.reason == Authorized) && e.detail == d.reason && e.risk == d.risk
      && e.eventId == (match d.reason
           case Authorized => "auth-allow" case ApprovalRequired => "auth-approval-required" case _ => "auth-deny")
      && e.actorType == (if d.reason == MissingAgent then "system" else "agent")
      && e.actorId.Some? == d.agentId.Some?
      && (d.agentId.Some? ==>
            e.actorId.value == if LooksSecret(d.agentId.value) then "[REDACTED]" else d.agentId.value)
      && e.action == if LooksSecret(d.action) then "[REDACTED]" else d.action
  {
    EventWordsArePublic();
  }

  // ---------------------------------------------------------------- guarded execution

  datatype Manifest = Manifest(toolId: string, actions: seq<string>, riskName: string, enabled: bool)

  datatype Validation = NoManifest | Disabled | UnknownTool | UnknownAction | UnknownRisk | Valid(risk: RiskLevel)

  function Validate(manifest: Option<Manifest>, capability: string): Validation {
    if manifest.None? then NoManifest
    else if !manifest.value.enabled then Disabled
    else
      var own := PREFIX + manifest.value.toolId + ".";
      if !Text.StartsWith(capability, own) then UnknownTool
      else if capability[|own|..] !in manifest.value.actions then UnknownAction
      else if LevelNamed(manifest.value.riskName).None? then UnknownRisk
      else Valid(LevelNamed(manifest.value.riskName).value)
  }

  datatype ProviderReply =
    | Throws(message: string)
    | NotADict
    | Reply(status: Option<string>, error: Option<string>, metadata: Value)

  class Adapter {
    const behaviour: string -> ProviderReply
    var calls: seq<string>

    constructor (behaviour: string -> ProviderReply)
      ensures this.behaviour == behaviour && calls == []
    {
      this.behaviour := behaviour;
      calls := [];
    }

    method Execute(capability: string) returns (r: ProviderReply)
      modifies this
      ensures calls == old(calls) + [capability] && r == behaviour(capability)
    {
      calls := calls + [capability];
      return behaviour(capability);
    }
  }

  datatype Execution =
    | Invalid(why: Validation)
    | InvalidArguments
    | Denied(auth: Authorization)
    | Ran(status: string, error: Option<string>, metadata: Value)

  function Normalised(reply: ProviderReply): Execution {
    match reply
    case Throws(message) => Ran("error", Some(message), Dict([]))
    case NotADict => Ran("error", Some("malformed_provider_response"), Dict([]))
    case Reply(status, error, metadata) =>
      Ran(if status.Some? then status.value else "success", error, Redact(metadata))
  }

  // What is reported of an adapter's reply: an error of its own if it threw or sent no
  // dictionary, otherwise its status, success if it gave none, and its metadata without secrets.
  ghost predicate Reports(reply: ProviderReply, r: Execution)
    requires r.Ran?
  {
    match reply
    case Throws(message) => r.status == "error" && r.error == Some(message) && r.metadata == Dict([])
    case NotADict => r.status == "error" && r.error == Some("malformed_provider_response") && r.metadata == Dict([])
    case Reply(status, error, metadata) =>
      && (status.Some? ==> r.status == status.value) && (status.None? ==> r.status == "success")
      && r.error == error && CleanCopy(metadata, r.metadata)
  }

  lemma NormalisedReports(reply: ProviderReply)
    ensures Normalised(reply).Ran? && Reports(reply, Normalised(reply))
  {
    if reply.Reply? {
      RedactCopies(reply.metadata);
    }
  }

  /** Why a call does not get past validation: no manifest, a disabled one, another tool's
      capability, an action the manifest does not list, a risk that is no level, in this order. */
  lemma ValidationExplained(manifest: Option<Manifest>, capability: string)
    ensures var v := Validate(manifest, capability);
      if manifest.None? then v == NoManifest
      else if !manifest.value.enabled then v == Disabled
      else
        var own := "tools." + manifest.value.toolId + ".";
        if !(exists rest :: capability == own + rest) then v == UnknownTool
        else if !(exists action :: action in manifest.value.actions && capability == own + action) then
          v == UnknownAction
        else if manifest.value.riskName !in {"LOW", "MEDIUM", "HIGH", "CRITICAL"} then v == UnknownRisk
        else v == Valid(EffectiveRisk(Named(manifest.value.riskName)))
  {
    if manifest.Some? {
      var own := "tools." + manifest.value.toolId + ".";
      if own <= capability {
        assert capability == own + capability[|own|..];
      }
      forall rest | capability == own + rest ensures own <= capability && capability[|own|..] == rest {
      }
      RiskByName(manifest.value.riskName);
    }
  }

  // Everything an adapter call rests on, with the capability string as granted and approved.
  ghost predicate MayRun(
    manifest: Option<Manifest>, policy: Policy, agent: Option<Agent>, capability: string, payload: Value)
  {
    && manifest.Some? && manifest.value.enabled && LevelNamed(manifest.value.riskName).Some?
    && (exists action :: action in manifest.value.actions && capability == PREFIX + manifest.value.toolId + "." + action
          && manifest.value.toolId != "" && manifest.value.toolId[0] != '.'
          && action != "" && action[|action| - 1] != '.')
    && payload.Dict?
    && agent.Some? && agent.value.agentId.Some? && Active(agent.value)
    && GrantedTo(policy, agent.value.agentId.value, capability)
    && ApprovedFor(policy, agent.value, agent.value.agentId.value, capability)
  }

  lemma MayRunExactlyWhen(
    manifest: Option<Manifest>, policy: Policy, agent: Option<Agent>, capability: string, payload: Value)
    ensures MayRun(manifest, policy, agent, capability, payload)
       <==> Validate(manifest, capability).Valid? && payload.Dict? && Judge(policy, agent, capability).Allows()
  {
    AuthorizedExactlyWhen(policy, agent, capability);
    if manifest.Some? {
      var tool := manifest.value.toolId;
      var own := PREFIX + tool + ".";
      forall action | capability == own + action
        ensures Text.StartsWith(capability, own) && capability[|own|..] == action
        ensures WellFormed(capability) <==> tool != "" && tool[0] != '.' && action != "" && action[|action| - 1] != '.'
      {
        OwnedWellFormed(capability, tool, action);
      }
      if Text.StartsWith(capability, own) {
        assert capability == own + capability[|own|..];
      }
    }
  }

  lemma OwnedWellFormed(capability: string, tool: string, action: string)
    requires capability == PREFIX + tool + "." + action
    ensures WellFormed(capability) <==> tool != "" && tool[0] != '.' && action != "" && action[|action| - 1] != '.'
  {
    var rest := capability[|PREFIX|..];
    assert rest == tool + "." + action;
    assert rest[|tool|] == '.' && capability[0] == 't';
    assert rest[0] == if tool == "" then '.' else tool[0];
    assert rest[|rest| - 1] == if action == "" then '.' else action[|action| - 1];
  }

  class ToolInterface {
    const permissions: PermissionManager

    constructor (permissions: PermissionManager)
      ensures this.permissions == permissions
    {
      this.permissions := permissions;
    }

    /** The adapter is invoked, once, exactly when every condition of `MayRun` holds; a decision
        is logged exactly when the request got past validation. */
    method Execute(
      agent: Option<Agent>, capability: string, payload: Value, manifest: Option<Manifest>, adapter: Adapter)
      returns (r: Execution)
      modifies permissions`log, adapter
      ensures adapter.calls == old(adapter.calls)
        + if MayRun(manifest, permissions.Current(), agent, capability, payload) then [capability] else []
      ensures r.Ran? <==> MayRun(manifest, permissions.Current(), agent, capability, payload)
      ensures r.Ran? ==> r == Normalised(adapter.behaviour(capability)) && Reports(adapter.behaviour(capability), r)
      ensures var validation := Validate(manifest, capability);
        && (!validation.Valid? ==> r == Invalid(validation))
        && (validation.Valid? && !payload.Dict? ==> r == InvalidArguments)
        && (validation.Valid? && payload.Dict? && !r.Ran? ==>
          r == Denied(Judge(permissions.Current(), agent, capability)))
      ensures permissions.log == old(permissions.log) +
                if !Validate(manifest, capability).Valid? || !payload.Dict? then []
                else [Logged(Judge(permissions.Current(), agent, capability))]
    {
      MayRunExactlyWhen(manifest, permissions.Current(), agent, capability, payload);
      var validation := Validate(manifest, capability);
      if !validation.Valid? {
        return Invalid(validation);
      }
      if !payload.Dict? {
        return InvalidArguments;
      }
      var auth := permissions.Authorize(agent, capability);
      if !auth.Allows() {
        return Denied(auth);
      }
      var reply := adapter.Execute(capability);
      NormalisedReports(reply);
      return Normalised(reply);
    }
  }
}
