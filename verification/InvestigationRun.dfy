/** `run_investigation` of safenestt/investigations/investigator.py with the evidence check of
    reality.py, over a store whose every session may raise.

    Orchestrator and model output are arbitrary parameters. Identifiers are numbers; those the
    run makes for itself come from `IdSource`, which never repeats one. */
module InvestigationRun {
  import opened Basics
  import opened InvestigationStatus
  import opened Tables
  import Text

  type Id = nat

  // ---------------------------------------------------------------- orchestrator and model output

  datatype ToolCall = ToolCall(capability: Option<string>, status: string, toolStatus: Option<string>)

  datatype AgentRun = AgentRun(toolCalls: seq<ToolCall>)

  datatype FindingData = FindingData(
    findingId: Option<Id>, evidenceIds: seq<Id>, description: Option<string>, title: Option<string>, confidence: real)

  // Whatever precedes orchestration: the health check and the parsing of the case.
  datatype Preparation = PreparationRaises | NotConfigured | Ready

  datatype Orchestration =
    | OrchestrationRaises(message: string)
    | Output(runs: seq<AgentRun>, findings: seq<FindingData>)

  datatype Synthesis = SynthesisRaises | SynthesisError(message: string) | Content(text: string)

  datatype Environment = Environment(preparation: Preparation, orchestration: Orchestration, synthesis: Synthesis)

  // ---------------------------------------------------------------- stored rows

  datatype Reality = AiInference | EvidenceSupported

  datatype EvidenceRow = EvidenceRow(id: Id, investigation: Id, source: string, confidence: real, toolRunId: Id)

  datatype FindingRow = FindingRow(
    id: Id, investigation: Id, claim: string, evidenceIds: seq<Id>, reality: Reality, risk: real)

  datatype Stored = Stored(status: Status, error: Option<string>)

  datatype Attempt<+T> = Raised | Isolation | Returned(value: T)

  type Histories = map<Id, seq<Status>>

  // A stored investigation has a history that is a walk and ends in its status; others have none.
  ghost predicate Tracks(history: Histories, investigations: map<Id, Stored>, id: Id) {
    var h := HistoryOf(history, id);
    if id in investigations then Walk(h) && h[|h| - 1] == investigations[id].status else h == []
  }

  ghost predicate Tracked(history: Histories, investigations: map<Id, Stored>) {
    forall k :: Tracks(history, investigations, k)
  }

  // No history but `id`'s changes, and that one only grows.
  ghost predicate Grown(before: Histories, after: Histories, id: Id) {
    && after - {id} == before - {id}
    && HistoryOf(before, id) <= HistoryOf(after, id)
  }

  function HistoryOf(h: Histories, id: Id): seq<Status> {
    if id in h then h[id] else []
  }

  /** One investigation in a store: its row and the statuses persisted for it, and on the other
      hand all the others', and how many sessions there have been. */
  datatype Page = Page(
    sessions: nat, row: Option<Stored>, statuses: seq<Status>, otherRows: map<Id, Stored>, otherHistories: Histories)

  function PageIn(sessions: nat, rows: map<Id, Stored>, histories: Histories, id: Id): Page {
    Page(sessions, if id in rows then Some(rows[id]) else None, HistoryOf(histories, id), rows - {id}, histories - {id})
  }

  ghost predicate InStep(p: Page) {
    if p.row.None? then p.statuses == [] else p.statuses != [] && p.statuses[|p.statuses| - 1] == p.row.value.status
  }

  // The page after these statuses were persisted, with the error then on record.
  function Persisted(p: Page, steps: seq<Status>, error: Option<string>, sessions: nat): Page {
    if steps == [] then p.(sessions := sessions)
    else p.(sessions := sessions, row := Some(Stored(steps[|steps| - 1], error)), statuses := p.statuses + steps)
  }

  lemma PersistedTwice(p: Page, first: seq<Status>, second: seq<Status>, error: Option<string>, mid: nat, end: nat)
    ensures Persisted(Persisted(p, first, error, mid), second, error, end) == Persisted(p, first + second, error, end)
  {
    if first == [] {
      assert first + second == second;
    } else if second == [] {
      assert first + second == first;
    } else {
      assert p.statuses + first + second == p.statuses + (first + second);
    }
  }

  // Nothing but this investigation changes, and the statuses persisted for it are the script
  // as far as it got, all of it when done.
  ghost predicate Ran(p: Page, q: Page, script: seq<Status>, done: bool) {
    && p.sessions <= q.sessions && p.otherRows == q.otherRows && p.otherHistories == q.otherHistories
    && InStep(q)
    && if done then q.statuses == p.statuses + script
       else exists n :: 0 <= n <= |script| && q.statuses == p.statuses + script[..n]
  }

  lemma PersistedRan(p: Page, q: Page, script: seq<Status>, steps: seq<Status>, error: Option<string>, done: bool)
    requires InStep(p) && p.sessions <= q.sessions && q == Persisted(p, steps, error, q.sessions)
    requires steps <= script && (done ==> steps == script)
    ensures Ran(p, q, script, done)
  {
    assert script[..|steps|] == steps;
    assert steps == [] ==> p.statuses + steps == p.statuses;
  }

  lemma RanOn(p: Page, q: Page, r: Page, first: seq<Status>, second: seq<Status>, done: bool)
    requires Ran(p, q, first, true) && Ran(q, r, second, done)
    ensures Ran(p, r, first + second, done)
  {
    if done {
      assert p.statuses + first + second == p.statuses + (first + second);
    } else {
      var n :| 0 <= n <= |second| && r.statuses == q.statuses + second[..n];
      assert (first + second)[..|first| + n] == first + second[..n];
      assert p.statuses + first + second[..n] == p.statuses + (first + second[..n]);
    }
  }

  lemma RanPartly(p: Page, q: Page, first: seq<Status>, second: seq<Status>)
    requires Ran(p, q, first, false)
    ensures Ran(p, q, first + second, false)
  {
    var n :| 0 <= n <= |first| && q.statuses == p.statuses + first[..n];
    assert (first + second)[..n] == first[..n];
  }

  class IdSource {
    var next: Id

    method Fresh() returns (id: Id)
      modifies this
      ensures id == old(next) && next == old(next) + 1
    {
      id := next;
      next := next + 1;
    }
  }

  /** One tenant's view of the database. `faults` decides which sessions raise, for reasons of
      their own; a session that raises changes nothing. */
  class InvestigationStore {
    const hasTenant: bool
    const faults: nat -> bool
    var sessions: nat
    var investigations: map<Id, Stored>
    var evidence: map<Id, EvidenceRow>
    var findings: map<Id, FindingRow>
    // every status ever persisted, in order
    ghost var history: Histories

    constructor (hasTenant: bool, faults: nat -> bool)
      ensures Valid() && investigations == map[] && evidence == map[] && findings == map[]
    {
      this.hasTenant, this.faults, sessions := hasTenant, faults, 0;
      investigations, evidence, findings, history := map[], map[], map[], map[];
    }

    ghost predicate Valid()
      reads this`history, this`investigations
    {
      Tracked(history, investigations)
    }

    ghost function PageOf(id: Id): Page
      reads this`sessions, this`investigations, this`history
    {
      PageIn(sessions, investigations, history, id)
    }

    ghost function Rows(): Shelf
      reads this`evidence, this`findings
    {
      Shelf(evidence, findings)
    }

    // There is a tenant, and no session from number `from` up to `to` raised by itself.
    ghost predicate Quiet(from: nat, to: nat) {
      hasTenant && forall n :: from <= n < to ==> !faults(n)
    }

    method Open() returns (ok: bool)
      modifies this`sessions
      ensures ok == !faults(old(sessions)) && sessions == old(sessions) + 1
    {
      ok := !faults(sessions);
      sessions := sessions + 1;
    }

    method GetInvestigation(id: Id) returns (a: Attempt<Option<Stored>>)
      modifies this`sessions
      ensures old(sessions) <= sessions
      ensures a.Isolation? <==> !hasTenant
      ensures a.Returned? <==> Quiet(old(sessions), sessions)
      ensures a.Returned? ==> a.value == if id in investigations then Some(investigations[id]) else None
    {
      if !hasTenant {
        return Isolation;
      }
      var ok := Open();
      if !ok {
        return Raised;
      }
      return Returned(if id in investigations then Some(investigations[id]) else None);
    }

    method CreateInvestigation(id: Id, record: InvestigationRecord) returns (a: Attempt<()>)
      modifies this`sessions, this`investigations, this`history
      ensures old(sessions) <= sessions
      ensures a.Returned? <==> Quiet(old(sessions), sessions) && id !in old(investigations)
      ensures a.Returned? ==> investigations == old(investigations)[id := Stored(record.status, None)]
      ensures a.Returned? ==> history == old(history)[id := [record.status]]
      ensures !a.Returned? ==> investigations == old(investigations) && history == old(history)
    {
      if !hasTenant {
        return Isolation;
      }
      var ok := Open();
      if !ok || id in investigations {
        return Raised;
      }
      investigations := investigations[id := Stored(record.status, None)];
      history := history[id := [record.status]];
      return Returned(());
    }

    // An absent error leaves the stored one as it is.
    method UpdateInvestigation(id: Id, record: InvestigationRecord) returns (a: Attempt<()>)
      modifies this`sessions, this`investigations, this`history
      ensures old(sessions) <= sessions
      ensures a.Returned? <==> Quiet(old(sessions), sessions) && id in old(investigations)
      ensures a.Returned? ==> investigations == old(investigations)[id :=
                Stored(record.status, if record.error.Some? then record.error else old(investigations)[id].error)]
      ensures a.Returned? ==> history == old(history)[id := HistoryOf(old(history), id) + [record.status]]
      ensures !a.Returned? ==> investigations == old(investigations) && history == old(history)
    {
      if !hasTenant {
        return Isolation;
      }
      var ok := Open();
      if !ok {
        return Raised;
      }
      if id !in investigations {
        return Isolation;
      }
      var row := investigations[id].(status := record.status);
      if record.error.Some? {
        row := row.(error := record.error);
      }
      investigations := investigations[id := row];
      history := history[id := HistoryOf(history, id) + [record.status]];
      return Returned(());
    }

    method AddEvidence(row: EvidenceRow) returns (a: Attempt<()>)
      modifies this`sessions, this`evidence
      ensures old(sessions) <= sessions
      ensures a.Returned? <==>
        Quiet(old(sessions), sessions) && row.id !in old(evidence) && row.investigation in investigations
      ensures a.Returned? ==> evidence == old(evidence)[row.id := row]
      ensures !a.Returned? ==> evidence == old(evidence)
    {
      if !hasTenant {
        return Isolation;
      }
      var ok := Open();
      if !ok || row.id in evidence || row.investigation !in investigations {
        return Raised;
      }
      evidence := evidence[row.id := row];
      return Returned(());
    }

    method AddFinding(row: FindingRow) returns (a: Attempt<()>)
      modifies this`sessions, this`findings
      ensures old(sessions) <= sessions
      ensures a.Returned? <==>
        Quiet(old(sessions), sessions) && row.id !in old(findings) && row.investigation in investigations
      ensures a.Returned? ==> findings == old(findings)[row.id := row]
      ensures !a.Returned? ==> findings == old(findings)
    {
      if !hasTenant {
        return Isolation;
      }
      var ok := Open();
      if !ok || row.id in findings || row.investigation !in investigations {
        return Raised;
      }
      findings := findings[row.id := row];
      return Returned(());
    }

    method ListEvidence(id: Id) returns (a: Attempt<set<Id>>)
      modifies this`sessions
      ensures old(sessions) <= sessions
      ensures a.Returned? <==> Quiet(old(sessions), sessions)
      ensures a.Returned? ==> a.value == Known(evidence, id)
    {
      if !hasTenant {
        return Isolation;
      }
      var ok := Open();
      if !ok {
        return Raised;
      }
      return Returned(Known(evidence, id));
    }
  }

  // ---------------------------------------------------------------- the reality check

  function Known(evidence: map<Id, EvidenceRow>, investigation: Id): set<Id> {
    set e | e in evidence && evidence[e].investigation == investigation
  }

  // Supported when it cites evidence and all of it is stored for the same investigation.
  function Judge(known: set<Id>, ids: seq<Id>): Reality {
    if ids != [] && (forall i :: 0 <= i < |ids| ==> ids[i] in known) then EvidenceSupported else AiInference
  }

  method Evaluate(store: InvestigationStore, investigation: Id, ids: seq<Id>) returns (a: Attempt<Reality>)
    modifies store`sessions
    ensures old(store.sessions) <= store.sessions
    ensures a.Returned? <==> ids == [] || store.Quiet(old(store.sessions), store.sessions)
    ensures ids == [] ==> store.sessions == old(store.sessions)
    ensures a.Returned? ==> a.value == Judge(Known(store.evidence, investigation), ids)
  {
    if ids == [] {
      return Returned(AiInference);
    }
    var missing: seq<Id>, i := [], 0;
    while i < |ids|
      invariant 0 <= i <= |ids|
      invariant old(store.sessions) <= store.sessions
      invariant if i == 0 then store.sessions == old(store.sessions)
                else store.Quiet(old(store.sessions), store.sessions)
      invariant missing == [] <==> forall j :: 0 <= j < i ==> ids[j] in Known(store.evidence, investigation)
    {
      var listed := store.ListEvidence(investigation);
      if !listed.Returned? {
        return Raised;
      }
      if ids[i] !in listed.value {
        missing := missing + [ids[i]];
      }
      i := i + 1;
    }
    return Returned(if missing != [] then AiInference else EvidenceSupported);
  }

  // ---------------------------------------------------------------- evidence for findings

  // The tool calls that were allowed, over all runs in order.
  function Allowed(runs: seq<AgentRun>): seq<ToolCall> {
    if runs == [] then [] else Allowed(runs[..|runs| - 1]) + AllowedCalls(runs[|runs| - 1].toolCalls)
  }

  function AllowedCalls(calls: seq<ToolCall>): seq<ToolCall> {
    if calls == [] then [] else
      AllowedCalls(calls[..|calls| - 1]) + if calls[|calls| - 1].status == "ALLOW" then [calls[|calls| - 1]] else []
  }

  // The places of all tool calls: the run and the call's position in it.
  function CallPlaces(runs: seq<AgentRun>): set<(nat, nat)> {
    set r: nat, j: nat | r < |runs| && j < |runs[r].toolCalls| :: (r, j)
  }

  function AllowedPlaces(runs: seq<AgentRun>): set<(nat, nat)> {
    set p | p in CallPlaces(runs) && runs[p.0].toolCalls[p.1].status == "ALLOW"
  }

  predicate Before(p: (nat, nat), q: (nat, nat)) {
    p.0 < q.0 || (p.0 == q.0 && p.1 < q.1)
  }

  // These are the allowed calls, each once, run by run and in order.
  ghost predicate ListsAllowed(places: seq<(nat, nat)>, calls: seq<ToolCall>, runs: seq<AgentRun>) {
    && (forall i, k :: 0 <= i < k < |places| ==> Before(places[i], places[k]))
    && (forall p :: p in places <==> p in AllowedPlaces(runs))
    && |calls| == |places|
    && forall i :: 0 <= i < |places| ==>
         places[i] in CallPlaces(runs) && calls[i] == runs[places[i].0].toolCalls[places[i].1]
  }

  function AllowedIndices(calls: seq<ToolCall>): set<nat> {
    set j | 0 <= j < |calls| && calls[j].status == "ALLOW"
  }

  ghost predicate ListsAllowedIn(positions: seq<nat>, chosen: seq<ToolCall>, calls: seq<ToolCall>) {
    && Enumerates(positions, AllowedIndices(calls))
    && |chosen| == |positions|
    && forall i :: 0 <= i < |positions| ==> positions[i] < |calls| && chosen[i] == calls[positions[i]]
  }

  lemma {:induction false} AllowedWithin(calls: seq<ToolCall>) returns (positions: seq<nat>)
    ensures ListsAllowedIn(positions, AllowedCalls(calls), calls)
  {
    positions := [];
    if calls != [] {
      var n := |calls| - 1;
      positions := AllowedWithin(calls[..n]);
      var chosen := AllowedIndices(calls[..n]);
      if calls[n].status == "ALLOW" {
        EnumeratedNext(positions, chosen, n);
        assert AllowedIndices(calls) == chosen + {n};
        positions := positions + [n];
      } else {
        assert AllowedIndices(calls) == chosen;
      }
    }
  }

  /** Exactly the calls of status ALLOW are taken, each once, run by run and in order. */
  lemma {:induction false} AllowedAcross(runs: seq<AgentRun>) returns (places: seq<(nat, nat)>)
    ensures ListsAllowed(places, Allowed(runs), runs)
    ensures |Allowed(runs)| == |AllowedPlaces(runs)|
  {
    places := [];
    if runs != [] {
      var n := |runs| - 1;
      var earlier := AllowedAcross(runs[..n]);
      var positions := AllowedWithin(runs[n].toolCalls);
      places := PlacesAppended(runs, earlier, positions);
    }
    assert Elements(places) == AllowedPlaces(runs);
    DistinctSize(places);
  }

  lemma PlaceOfRun(runs: seq<AgentRun>, p: (nat, nat))
    requires runs != []
    ensures var n := |runs| - 1;
      p in AllowedPlaces(runs)
      <==> p in AllowedPlaces(runs[..n]) || (p.0 == n && p.1 in AllowedIndices(runs[n].toolCalls))
  {
    if p.0 < |runs| - 1 {
      assert runs[..|runs| - 1][p.0] == runs[p.0];
    }
  }

  lemma PlacesAppended(runs: seq<AgentRun>, earlier: seq<(nat, nat)>, positions: seq<nat>)
    returns (places: seq<(nat, nat)>)
    requires runs != []
    requires var n := |runs| - 1;
      && ListsAllowed(earlier, Allowed(runs[..n]), runs[..n])
      && ListsAllowedIn(positions, AllowedCalls(runs[n].toolCalls), runs[n].toolCalls)
    ensures ListsAllowed(places, Allowed(runs), runs)
  {
    var n := |runs| - 1;
    var last := seq(|positions|, i requires 0 <= i < |positions| => (n, positions[i]));
    places := earlier + last;
    forall p ensures p in places <==> p in AllowedPlaces(runs) {
      PlaceOfRun(runs, p);
      assert p in places <==> p in earlier || p in last;
      if p.0 == n && p.1 in positions {
        var i :| 0 <= i < |positions| && positions[i] == p.1;
        assert last[i] == p;
      }
      assert p in last ==> p.0 == n && p.1 in positions;
    }
    forall i | 0 <= i < |places|
      ensures places[i] in CallPlaces(runs) && Allowed(runs)[i] == runs[places[i].0].toolCalls[places[i].1]
    {
      if i < |earlier| {
        assert places[i] == earlier[i] && runs[..n][earlier[i].0] == runs[earlier[i].0];
      }
    }
    forall i, k | 0 <= i < k < |places| ensures Before(places[i], places[k]) {
      if i < |earlier| <= k {
        assert earlier[i] in CallPlaces(runs[..n]);
      }
    }
  }

  /** All tool calls are counted, allowed or not. */
  lemma {:induction false} CallsCounted(runs: seq<AgentRun>)
    ensures CallCount(runs) == |CallPlaces(runs)|
  {
    if runs == [] {
      assert CallPlaces(runs) == {};
    } else {
      var n := |runs| - 1;
      CallsCounted(runs[..n]);
      var k := |runs[n].toolCalls|;
      var last := seq(k, j requires 0 <= j < k => (n, j));
      DistinctSize(last);
      forall p ensures p in CallPlaces(runs) <==> p in CallPlaces(runs[..n]) || p in Elements(last) {
        if p in CallPlaces(runs) && p.0 == n {
          assert last[p.1] == p;
        }
        if p.0 < n {
          assert runs[..n][p.0] == runs[p.0];
        }
      }
      assert CallPlaces(runs) == CallPlaces(runs[..n]) + Elements(last);
      assert CallPlaces(runs[..n]) !! Elements(last);
    }
  }

  function CallCount(runs: seq<AgentRun>): nat {
    if runs == [] then 0 else CallCount(runs[..|runs| - 1]) + |runs[|runs| - 1].toolCalls|
  }

  function Ids(rows: seq<EvidenceRow>): (r: seq<Id>)
    ensures |r| == |rows|
    ensures forall i :: 0 <= i < |rows| ==> r[i] == rows[i].id
  {
    seq(|rows|, i requires 0 <= i < |rows| => rows[i].id)
  }

  function FindingIds(rows: seq<FindingRow>): (r: seq<Id>)
    ensures |r| == |rows|
    ensures forall i :: 0 <= i < |rows| ==> r[i] == rows[i].id
  {
    seq(|rows|, i requires 0 <= i < |rows| => rows[i].id)
  }

  ghost predicate Documents(row: EvidenceRow, call: ToolCall, investigation: Id) {
    && row.investigation == investigation
    && row.source == (if call.capability.Some? then call.capability.value else "unknown")
    && row.confidence == (if call.toolStatus == Some("success") then 0.7 else 0.0)
  }

  // One evidence row per allowed call, in order.
  ghost predicate Mirrors(rows: seq<EvidenceRow>, calls: seq<ToolCall>, investigation: Id) {
    |rows| == |calls| && forall i :: 0 <= i < |rows| ==> Documents(rows[i], calls[i], investigation)
  }

  // One evidence row per call of status ALLOW, in order, and none for any other call.
  ghost predicate EvidenceOfRun(rows: seq<EvidenceRow>, calls: seq<ToolCall>, investigation: Id) {
    exists positions: seq<nat> ::
      && Enumerates(positions, AllowedIndices(calls)) && |rows| == |positions|
      && forall i :: 0 <= i < |rows| ==>
           positions[i] < |calls| && Documents(rows[i], calls[positions[i]], investigation)
  }

  ghost predicate EvidenceAt(places: seq<(nat, nat)>, rows: seq<EvidenceRow>, runs: seq<AgentRun>, investigation: Id) {
    && (forall i, k :: 0 <= i < k < |places| ==> Before(places[i], places[k]))
    && (forall p :: p in places <==> p in AllowedPlaces(runs))
    && |rows| == |places|
    && forall i :: 0 <= i < |rows| ==>
         places[i] in CallPlaces(runs)
         && Documents(rows[i], runs[places[i].0].toolCalls[places[i].1], investigation)
  }

  // The same over all runs, one after another.
  ghost predicate EvidenceOfRuns(rows: seq<EvidenceRow>, runs: seq<AgentRun>, investigation: Id) {
    exists places: seq<(nat, nat)> :: EvidenceAt(places, rows, runs, investigation)
  }

  lemma MirrorsOfRun(rows: seq<EvidenceRow>, calls: seq<ToolCall>, investigation: Id)
    requires Mirrors(rows, AllowedCalls(calls), investigation)
    ensures EvidenceOfRun(rows, calls, investigation)
  {
    var positions := AllowedWithin(calls);
    forall i | 0 <= i < |rows| ensures Documents(rows[i], calls[positions[i]], investigation) {
      assert AllowedCalls(calls)[i] == calls[positions[i]];
    }
  }

  lemma MirrorsOfRuns(rows: seq<EvidenceRow>, runs: seq<AgentRun>, investigation: Id)
    requires Mirrors(rows, Allowed(runs), investigation)
    ensures EvidenceOfRuns(rows, runs, investigation) && |rows| == |AllowedPlaces(runs)|
  {
    var places := AllowedAcross(runs);
    assert EvidenceAt(places, rows, runs, investigation);
  }

  // Ids handed out in increasing order between two marks of the source.
  ghost predicate Ascending(rows: seq<EvidenceRow>, from: Id, to: Id) {
    && (forall i :: 0 <= i < |rows| ==> from <= rows[i].id < to)
    && forall i, j :: 0 <= i < j < |rows| ==> rows[i].id < rows[j].id
  }

  /** A finding claims its description; without one its title, even an empty one; without either
      a phrase of its own. */
  lemma ClaimSays(data: FindingData)
    ensures match (data.description, data.title)
      case (Some(d), Some(t)) => Claim(data) == if |d| > 0 then d else t
      case (Some(d), None) => Claim(data) == if |d| > 0 then d else "Orchestrator finding"
      case (None, Some(t)) => Claim(data) == t
      case (None, None) => Claim(data) == "Orchestrator finding"
  {
  }

  function Claim(data: FindingData): string {
    if Text.Truthy(data.description) then data.description.value
    else if data.title.Some? then data.title.value else "Orchestrator finding"
  }

  // A finding made from its data: it cites its own full set of evidence after what it already
  // cited, and is judged against the evidence known before any of that is stored.
  ghost predicate MadeFrom(
    data: FindingData, calls: seq<ToolCall>, investigation: Id, known: set<Id>, f: FindingRow, rows: seq<EvidenceRow>)
  {
    && Mirrors(rows, calls, investigation)
    && f.investigation == investigation
    && f.claim == Claim(data) && f.risk == data.confidence
    && f.evidenceIds == data.evidenceIds + Ids(rows)
    && f.reality == Judge(known, f.evidenceIds)
    && (data.findingId.Some? ==> f.id == data.findingId.value)
  }

  // The i-th share of the evidence list, in shares of n rows.
  function Share(items: seq<EvidenceRow>, i: nat, n: nat): seq<EvidenceRow> {
    if Times(i, n) + n <= |items| then items[Times(i, n)..Times(i, n) + n] else []
  }

  // Each finding in turn takes the next share of the evidence list.
  ghost predicate Built(
    data: seq<FindingData>, calls: seq<ToolCall>, investigation: Id, known: set<Id>,
    findings: seq<FindingRow>, items: seq<EvidenceRow>)
  {
    && |findings| == |data| && |items| == Times(|data|, |calls|)
    && forall i :: 0 <= i < |findings| ==>
      MadeFrom(data[i], calls, investigation, known, findings[i], Share(items, i, |calls|))
  }

  lemma {:induction false} TimesMonotone(i: nat, j: nat, x: nat)
    requires i <= j
    ensures Times(i, x) <= Times(j, x)
  {
    if i < j {
      TimesMonotone(i, j - 1, x);
    }
  }

  // Shares before the k-th do not depend on what comes after them.
  lemma ShareKept(items: seq<EvidenceRow>, more: seq<EvidenceRow>, i: nat, k: nat, n: nat)
    requires i < k && Times(k, n) <= |items| && items <= more
    ensures Times(i, n) + n <= |items| && Share(items, i, n) == Share(more, i, n)
  {
    TimesMonotone(i + 1, k, n);
    var at := Times(i, n);
    assert items[at..at + n] == more[at..at + n];
  }

  lemma LastShare(items: seq<EvidenceRow>, rows: seq<EvidenceRow>, k: nat, n: nat)
    requires |items| == Times(k, n) && |rows| == n
    ensures Share(items + rows, k, n) == rows
  {
  }

  method CountCalls(runs: seq<AgentRun>) returns (count: nat)
    ensures count == CallCount(runs)
  {
    count := 0;
    var i := 0;
    while i < |runs|
      invariant 0 <= i <= |runs|
      invariant count == CallCount(runs[..i])
    {
      assert runs[..i + 1][..i] == runs[..i];
      count := count + |runs[i].toolCalls|;
      i := i + 1;
    }
    assert runs[..i] == runs;
  }

  lemma AscendingAppend(rows: seq<EvidenceRow>, more: seq<EvidenceRow>, from: Id, mid: Id, to: Id)
    requires from <= mid <= to && Ascending(rows, from, mid) && Ascending(more, mid, to)
    ensures Ascending(rows + more, from, to)
  {
  }

  lemma RowsAppend(
    rows: seq<EvidenceRow>, more: seq<EvidenceRow>, calls: seq<ToolCall>, next: seq<ToolCall>, id: Id, from: Id,
    mid: Id, to: Id)
    requires Mirrors(rows, calls, id) && Mirrors(more, next, id)
    requires from <= mid <= to && Ascending(rows, from, mid) && Ascending(more, mid, to)
    ensures Mirrors(rows + more, calls + next, id) && Ascending(rows + more, from, to)
  {
    AscendingAppend(rows, more, from, mid, to);
  }

  method GatherFromRun(calls: seq<ToolCall>, investigation: Id, ids: IdSource) returns (rows: seq<EvidenceRow>)
    modifies ids
    ensures Mirrors(rows, AllowedCalls(calls), investigation) && EvidenceOfRun(rows, calls, investigation)
    ensures old(ids.next) <= ids.next && Ascending(rows, old(ids.next), ids.next)
  {
    rows := [];
    var j := 0;
    while j < |calls|
      invariant 0 <= j <= |calls|
      invariant old(ids.next) <= ids.next && Ascending(rows, old(ids.next), ids.next)
      invariant Mirrors(rows, AllowedCalls(calls[..j]), investigation)
    {
      assert calls[..j + 1][..j] == calls[..j];
      var call := calls[j];
      if call.status == "ALLOW" {
        var id := ids.Fresh();
        var toolRunId := ids.Fresh();
        var row := EvidenceRow(
          id, investigation, if call.capability.Some? then call.capability.value else "unknown",
          if call.toolStatus == Some("success") then 0.7 else 0.0, toolRunId);
        RowsAppend(rows, [row], AllowedCalls(calls[..j]), [call], investigation, old(ids.next), id, ids.next);
        rows := rows + [row];
      }
      j := j + 1;
    }
    assert calls[..j] == calls;
    MirrorsOfRun(rows, calls, investigation);
  }

  method GatherEvidence(runs: seq<AgentRun>, investigation: Id, ids: IdSource) returns (rows: seq<EvidenceRow>)
    modifies ids
    ensures Mirrors(rows, Allowed(runs), investigation) && EvidenceOfRuns(rows, runs, investigation)
    ensures old(ids.next) <= ids.next && Ascending(rows, old(ids.next), ids.next)
  {
    rows := [];
    var i := 0;
    while i < |runs|
      invariant 0 <= i <= |runs|
      invariant old(ids.next) <= ids.next && Ascending(rows, old(ids.next), ids.next)
      invariant Mirrors(rows, Allowed(runs[..i]), investigation)
    {
      assert runs[..i + 1][..i] == runs[..i];
      ghost var mid := ids.next;
      var more := GatherFromRun(runs[i].toolCalls, investigation, ids);
      RowsAppend(
        rows, more, Allowed(runs[..i]), AllowedCalls(runs[i].toolCalls), investigation, old(ids.next), mid, ids.next);
      rows := rows + more;
      i := i + 1;
    }
    assert runs[..i] == runs;
    MirrorsOfRuns(rows, runs, investigation);
  }

  lemma BuiltExtends(
    data: seq<FindingData>, n: nat, calls: seq<ToolCall>, investigation: Id, known: set<Id>,
    findings: seq<FindingRow>, items: seq<EvidenceRow>, f: FindingRow, rows: seq<EvidenceRow>)
    requires n < |data| && Built(data[..n], calls, investigation, known, findings, items)
    requires MadeFrom(data[n], calls, investigation, known, f, rows)
    ensures Built(data[..n + 1], calls, investigation, known, findings + [f], items + rows)
  {
    var all := items + rows;
    forall i | 0 <= i <= n
      ensures MadeFrom(data[i], calls, investigation, known, (findings + [f])[i], Share(all, i, |calls|))
    {
      if i < n {
        ShareKept(items, all, i, n, |calls|);
        assert MadeFrom(data[..n][i], calls, investigation, known, findings[i], Share(items, i, |calls|));
      } else {
        LastShare(items, rows, n, |calls|);
      }
    }
  }

  // What follows runs only after the store has answered for this investigation, so there is a
  // tenant and the investigation is stored.

  // One pass of the findings loop.
  method MakeFinding(
    data: FindingData, runs: seq<AgentRun>, investigation: Id, store: InvestigationStore, ids: IdSource)
    returns (a: Attempt<(FindingRow, seq<EvidenceRow>)>)
    requires store.hasTenant
    modifies store`sessions, ids
    ensures old(ids.next) <= ids.next && old(store.sessions) <= store.sessions
    ensures a.Returned? <==> store.Quiet(old(store.sessions), store.sessions)
    ensures a.Returned? && data.findingId.None? ==> old(ids.next) <= a.value.0.id < ids.next
    ensures a.Returned? ==>
      MadeFrom(data, Allowed(runs), investigation, Known(store.evidence, investigation), a.value.0, a.value.1)
    ensures a.Returned? ==> Ascending(a.value.1, old(ids.next), ids.next)
  {
    var findingId;
    if data.findingId.Some? {
      findingId := data.findingId.value;
    } else {
      findingId := ids.Fresh();
    }
    var rows := GatherEvidence(runs, investigation, ids);
    var evidenceIds := data.evidenceIds + Ids(rows);
    var evaluated := Evaluate(store, investigation, evidenceIds);
    if !evaluated.Returned? {
      return Raised;
    }
    var f := FindingRow(findingId, investigation, Claim(data), evidenceIds, evaluated.value, data.confidence);
    return Returned((f, rows));
  }

  // Findings keep the id they came with, or get fresh ones in increasing order.
  ghost predicate Named(data: seq<FindingData>, findings: seq<FindingRow>, investigation: Id, from: Id, to: Id) {
    && |findings| == |data|
    && (forall i :: 0 <= i < |findings| ==> findings[i].investigation == investigation)
    && (forall i :: 0 <= i < |findings| ==>
          if data[i].findingId.Some? then findings[i].id == data[i].findingId.value else from <= findings[i].id < to)
    && (forall i, j :: 0 <= i < j < |findings| && data[i].findingId.None? && data[j].findingId.None? ==>
          findings[i].id < findings[j].id)
  }

  ghost predicate AllOf(rows: seq<EvidenceRow>, investigation: Id) {
    forall i :: 0 <= i < |rows| ==> rows[i].investigation == investigation
  }

  lemma NamedExtends(
    data: seq<FindingData>, n: nat, findings: seq<FindingRow>, f: FindingRow, investigation: Id, from: Id, mid: Id,
    to: Id)
    requires n < |data| && Named(data[..n], findings, investigation, from, mid) && from <= mid <= to
    requires f.investigation == investigation
    requires if data[n].findingId.Some? then f.id == data[n].findingId.value else mid <= f.id < to
    ensures Named(data[..n + 1], findings + [f], investigation, from, to)
  {
    assert data[..n + 1] == data[..n] + [data[n]];
  }

  method BuildFindings(
    data: seq<FindingData>, runs: seq<AgentRun>, investigation: Id, store: InvestigationStore, ids: IdSource)
    returns (a: Attempt<(seq<FindingRow>, seq<EvidenceRow>)>)
    requires store.hasTenant && Below(store.evidence, ids.next)
    modifies store`sessions, ids
    ensures old(ids.next) <= ids.next && old(store.sessions) <= store.sessions
    ensures a.Returned? <==> store.Quiet(old(store.sessions), store.sessions)
    ensures a.Returned? ==>
      Named(data, a.value.0, investigation, old(ids.next), ids.next) && AllOf(a.value.1, investigation)
    ensures a.Returned? ==>
      && Built(data, Allowed(runs), investigation, Known(store.evidence, investigation), a.value.0, a.value.1)
      && Ascending(a.value.1, old(ids.next), ids.next)
  {
    var findings: seq<FindingRow>, items: seq<EvidenceRow> := [], [];
    ghost var known := Known(store.evidence, investigation);
    var i := 0;
    while i < |data|
      invariant 0 <= i <= |data|
      invariant old(ids.next) <= ids.next && Ascending(items, old(ids.next), ids.next)
      invariant Built(data[..i], Allowed(runs), investigation, known, findings, items)
      invariant Named(data[..i], findings, investigation, old(ids.next), ids.next) && AllOf(items, investigation)
      invariant old(store.sessions) <= store.sessions && store.Quiet(old(store.sessions), store.sessions)
    {
      ghost var mid := ids.next;
      var made := MakeFinding(data[i], runs, investigation, store, ids);
      if !made.Returned? {
        return Raised;
      }
      var (f, rows) := made.value;
      BuiltExtends(data, i, Allowed(runs), investigation, known, findings, items, f, rows);
      AscendingAppend(items, rows, old(ids.next), mid, ids.next);
      NamedExtends(data, i, findings, f, investigation, old(ids.next), mid, ids.next);
      findings, items := findings + [f], items + rows;
      i := i + 1;
    }
    assert data[..i] == data;
    return Returned((findings, items));
  }

  ghost predicate EvidenceStored(evidence: map<Id, EvidenceRow>, rows: seq<EvidenceRow>) {
    forall i :: 0 <= i < |rows| ==> rows[i].id in evidence && evidence[rows[i].id] == rows[i]
  }

  // Ids handed out from `from` on to rows of one investigation are new, so only a fault stops this.
  method StoreEvidence(store: InvestigationStore, items: seq<EvidenceRow>, ghost from: Id, ghost to: Id)
    returns (ok: bool, ghost stored: seq<EvidenceRow>)
    requires store.hasTenant && forall i :: 0 <= i < |items| ==> items[i].investigation in store.investigations
    requires Below(store.evidence, from) && Ascending(items, from, to) && from <= to
    modifies store`sessions, store`evidence
    ensures old(store.sessions) <= store.sessions
    ensures ok <==> store.Quiet(old(store.sessions), store.sessions)
    ensures stored <= items && (ok ==> stored == items)
    ensures Inserted(old(store.evidence), store.evidence, Ids(stored), stored) && Below(store.evidence, to)
  {
    var i := 0;
    while i < |items|
      invariant 0 <= i <= |items|
      invariant Inserted(old(store.evidence), store.evidence, Ids(items)[..i], items[..i]) && Below(store.evidence, to)
      invariant forall j :: i <= j < |items| ==> Below(store.evidence, items[j].id)
      invariant old(store.sessions) <= store.sessions && store.Quiet(old(store.sessions), store.sessions)
    {
      InsertedNext(old(store.evidence), store.evidence, Ids(items), items, i);
      assert Ids(items[..i]) == Ids(items)[..i];
      var a := store.AddEvidence(items[i]);
      if !a.Returned? {
        return false, items[..i];
      }
      i := i + 1;
    }
    assert items[..i] == items && Ids(items)[..i] == Ids(items);
    return true, items;
  }

  method StoreFindings(store: InvestigationStore, rows: seq<FindingRow>)
    returns (ok: bool, ghost stored: seq<FindingRow>)
    requires store.hasTenant && forall i :: 0 <= i < |rows| ==> rows[i].investigation in store.investigations
    modifies store`sessions, store`findings
    ensures old(store.sessions) <= store.sessions
    ensures ok <==> store.Quiet(old(store.sessions), store.sessions) && Free(FindingIds(rows), old(store.findings))
    ensures stored <= rows && (ok ==> stored == rows)
    ensures Inserted(old(store.findings), store.findings, FindingIds(stored), stored)
  {
    var i := 0;
    while i < |rows|
      invariant 0 <= i <= |rows|
      invariant Inserted(old(store.findings), store.findings, FindingIds(rows)[..i], rows[..i])
      invariant old(store.sessions) <= store.sessions && store.Quiet(old(store.sessions), store.sessions)
    {
      InsertedNext(old(store.findings), store.findings, FindingIds(rows), rows, i);
      assert FindingIds(rows[..i]) == FindingIds(rows)[..i];
      var a := store.AddFinding(rows[i]);
      if !a.Returned? {
        return false, rows[..i];
      }
      i := i + 1;
    }
    assert rows[..i] == rows && FindingIds(rows)[..i] == FindingIds(rows);
    return true, rows;
  }

  // ---------------------------------------------------------------- whose ids are free

  // The ids the orchestrator chose are free: different from each other and not stored.
  ghost predicate IdsFree(stored: map<Id, FindingRow>, data: seq<FindingData>) {
    && (forall i :: 0 <= i < |data| && data[i].findingId.Some? ==> data[i].findingId.value !in stored)
    && forall i, j :: 0 <= i < j < |data| && data[i].findingId.Some? && data[j].findingId.Some? ==>
         data[i].findingId.value != data[j].findingId.value
  }

  // Fresh ids are new: neither stored nor chosen by the orchestrator.
  ghost predicate Unclaimed(stored: map<Id, FindingRow>, data: seq<FindingData>, next: Id) {
    && Below(stored, next)
    && forall i :: 0 <= i < |data| && data[i].findingId.Some? ==> data[i].findingId.value < next
  }

  lemma FreeExactlyWhen(
    data: seq<FindingData>, rows: seq<FindingRow>, investigation: Id, from: Id, to: Id, stored: map<Id, FindingRow>)
    requires Named(data, rows, investigation, from, to) && Unclaimed(stored, data, from)
    ensures Free(FindingIds(rows), stored) <==> IdsFree(stored, data)
  {
    if Free(FindingIds(rows), stored) {
      forall i | 0 <= i < |data| && data[i].findingId.Some? ensures data[i].findingId.value !in stored {
        assert FindingIds(rows)[i] !in stored;
      }
      forall i, j | 0 <= i < j < |data| && data[i].findingId.Some? && data[j].findingId.Some?
        ensures data[i].findingId.value != data[j].findingId.value
      {
        assert FindingIds(rows)[i] != FindingIds(rows)[j];
      }
    }
  }

  lemma NamedBelow(
    data: seq<FindingData>, rows: seq<FindingRow>, investigation: Id, from: Id, to: Id,
    stored: map<Id, FindingRow>, after: map<Id, FindingRow>)
    requires Named(data, rows, investigation, from, to) && Unclaimed(stored, data, from) && from <= to
    requires Inserted(stored, after, FindingIds(rows), rows)
    ensures Below(after, to)
  {
  }

  // ---------------------------------------------------------------- the run

  datatype Outcome =
    | Aborted
    // the source returns `findings` and `closing` as one list, in this order
    | Finished(status: Status, toolCalls: nat, evidence: seq<EvidenceRow>, findings: seq<FindingRow>,
               closing: seq<FindingRow>)

  // Set the record's status and persist it, after `steps` were persisted since `start`.
  method Advance(
    store: InvestigationStore, id: Id, record: InvestigationRecord, to: Status,
    ghost start: Page, ghost steps: seq<Status>, ghost error: Option<string>) returns (ok: bool)
    requires start.sessions <= store.sessions && store.Quiet(start.sessions, store.sessions)
    requires store.PageOf(id) == Persisted(start, steps, error, store.sessions)
    requires id in store.investigations && record.status == store.investigations[id].status
    requires error == if record.error.Some? then record.error else store.investigations[id].error
    modifies store`sessions, store`investigations, store`history, record`status
    ensures start.sessions <= store.sessions
    ensures ok <==> MayMark(old(record.status), to) && store.Quiet(start.sessions, store.sessions)
    ensures store.PageOf(id) == Persisted(start, if ok then steps + [to] else steps, error, store.sessions)
    ensures ok ==> record.status == to
  {
    ghost var before := store.PageOf(id);
    ok := record.Mark(to);
    if ok {
      var a := store.UpdateInvestigation(id, record);
      ok := a.Returned?;
    }
    assert store.PageOf(id) == Persisted(before, if ok then [to] else [], error, store.sessions);
    PersistedTwice(start, steps, if ok then [to] else [], error, before.sessions, store.sessions);
    assert steps + [] == steps;
  }

  function ErrorOf(rows: map<Id, Stored>, id: Id): Option<string> {
    if id in rows then rows[id].error else None
  }

  // The statuses from which a run can start; from any other it raises at once.
  predicate Runnable(s: Status) {
    s == Queued || s == Running || s == WaitingForTool || s == Failed || s == Cancelled
  }

  // Whether the investigation is stored in a status from which no run can start.
  predicate Stuck(rows: map<Id, Stored>, id: Id) {
    id in rows && !Runnable(rows[id].status)
  }

  // New, failed and cancelled investigations are queued first.
  predicate Requeued(rows: map<Id, Stored>, id: Id) {
    id !in rows || rows[id].status == Failed || rows[id].status == Cancelled
  }

  function Opening(rows: map<Id, Stored>, id: Id): seq<Status> {
    if Requeued(rows, id) then [Queued] else []
  }

  function StartScript(rows: map<Id, Stored>, id: Id): seq<Status> {
    if Stuck(rows, id) then [] else Opening(rows, id) + [Running]
  }

  // Load the record, create it, or put a failed or cancelled one back in the queue.
  method Load(store: InvestigationStore, id: Id) returns (a: Attempt<InvestigationRecord>)
    requires InStep(store.PageOf(id))
    modifies store`sessions, store`investigations, store`history
    ensures old(store.sessions) <= store.sessions
    ensures a.Returned? <==> store.Quiet(old(store.sessions), store.sessions)
    ensures a.Returned? ==> fresh(a.value) && a.value.error == None && id in store.investigations
    ensures a.Returned? ==> a.value.status == store.investigations[id].status
    ensures a.Returned? ==>
      a.value.status == if Requeued(old(store.investigations), id) then Queued else old(store.investigations)[id].status
    ensures store.PageOf(id) == Persisted(
              old(store.PageOf(id)), if a.Returned? then Opening(old(store.investigations), id) else [],
              ErrorOf(old(store.investigations), id), store.sessions)
  {
    ghost var start := store.PageOf(id);
    var got := store.GetInvestigation(id);
    if got.Raised? {
      return Raised;
    }
    if got.Isolation? || got.value.None? {
      var record := new InvestigationRecord(Queued, None);
      var created := store.CreateInvestigation(id, record);
      return if created.Returned? then Returned(record) else Raised;
    }
    var record := new InvestigationRecord(got.value.value.status, None);
    if record.status == Failed || record.status == Cancelled {
      var ok := Advance(store, id, record, Queued, start, [], store.investigations[id].error);
      assert [] + [Queued] == [Queued];
      return if ok then Returned(record) else Raised;
    }
    return Returned(record);
  }

  // Load the record and mark it RUNNING.
  method Begin(store: InvestigationStore, id: Id) returns (a: Attempt<InvestigationRecord>)
    requires InStep(store.PageOf(id))
    modifies store`sessions, store`investigations, store`history
    ensures Ran(old(store.PageOf(id)), store.PageOf(id), StartScript(old(store.investigations), id), a.Returned?)
    ensures a.Returned? <==> store.Quiet(old(store.sessions), store.sessions) && !Stuck(old(store.investigations), id)
    ensures a.Returned? ==> fresh(a.value) && a.value.status == Running && a.value.error == None
    ensures a.Returned? ==> store.PageOf(id).row == Some(Stored(Running, ErrorOf(old(store.investigations), id)))
    ensures Stuck(old(store.investigations), id) ==>
      store.PageOf(id) == old(store.PageOf(id)).(sessions := store.sessions)
  {
    ghost var start, opening := store.PageOf(id), Opening(store.investigations, id);
    ghost var script, error := StartScript(store.investigations, id), ErrorOf(store.investigations, id);
    a := Load(store, id);
    if !a.Returned? {
      PersistedRan(start, store.PageOf(id), script, [], error, false);
      return;
    }
    var ok := Advance(store, id, a.value, Running, start, opening, error);
    PersistedRan(start, store.PageOf(id), script, if ok then opening + [Running] else opening, error, ok);
    if !ok {
      a := Raised;
    }
  }

  // Whether preparing, orchestrating or synthesising raises past the handlers.
  predicate Raises(env: Environment) {
    || env.preparation.PreparationRaises?
    || (!env.preparation.NotConfigured? && !env.orchestration.OrchestrationRaises? && env.synthesis.SynthesisRaises?)
  }

  // The error a run records before it marks the investigation FAILED, if it does.
  function ErrorMessage(env: Environment): Option<string> {
    if env.preparation.NotConfigured? then Some("not_configured")
    else if env.orchestration.OrchestrationRaises? then Some(env.orchestration.message)
    else if env.synthesis.SynthesisError? then Some(env.synthesis.message)
    else None
  }

  // The findings a run is given to store.
  function Given(env: Environment): seq<FindingData> {
    if ErrorMessage(env).None? && env.orchestration.Output? then env.orchestration.findings else []
  }

  function RunsOf(env: Environment): seq<AgentRun> {
    if env.orchestration.Output? then env.orchestration.runs else []
  }

  function ClaimOf(env: Environment): string {
    if env.synthesis.Content? then Text.Strip(env.synthesis.text) else ""
  }

  function FinalScript(env: Environment): seq<Status> {
    if Raises(env) then [] else if ErrorMessage(env).Some? then [Failed] else ENDING
  }

  // The statuses a run persists one after another when nothing stops it.
  function Script(rows: map<Id, Stored>, id: Id, env: Environment): seq<Status> {
    if Stuck(rows, id) then [] else StartScript(rows, id) + FinalScript(env)
  }

  /** How the parts of a run decide its course: what raises, what is reported as an error and with
      which message (the first that occurs), and what otherwise goes into findings. */
  lemma CourseOf(env: Environment)
    ensures match env.preparation
      case PreparationRaises => Raises(env)
      case NotConfigured => !Raises(env) && ErrorMessage(env) == Some("not_configured") && Given(env) == []
      case Ready =>
        match env.orchestration
        case OrchestrationRaises(message) => !Raises(env) && ErrorMessage(env) == Some(message) && Given(env) == []
        case Output(runs, findings) =>
          match env.synthesis
          case SynthesisRaises => Raises(env)
          case SynthesisError(message) => !Raises(env) && ErrorMessage(env) == Some(message) && Given(env) == []
          case Content(text) =>
            && !Raises(env) && ErrorMessage(env) == None
            && Given(env) == findings && RunsOf(env) == runs && ClaimOf(env) == Text.Strip(text)
  {
  }

  /** Which statuses a run persists: none from a status it cannot start in; else QUEUED if the
      investigation is new, failed or cancelled, then RUNNING, then FAILED after an error, nothing
      after an exception, and otherwise VERIFYING, CALCULATING_RISK and COMPLETED. And the row
      that is left by a run that returns. */
  lemma StatusesOf(rows: map<Id, Stored>, id: Id, env: Environment, error: Option<string>)
    ensures var start := if id in rows then rows[id].status else Failed;
      var queued := if start in {Failed, Cancelled} then [Queued] else [];
      var ending := if Raises(env) then [] else if ErrorMessage(env).Some? then [Failed]
                    else [Verifying, CalculatingRisk, Completed];
      Script(rows, id, env) ==
        if start in {Analyzing, Verifying, CalculatingRisk, Completed} then [] else queued + [Running] + ending
    ensures ErrorMessage(env).Some? ==> Final(env, error) == Stored(Failed, ErrorMessage(env))
    ensures ErrorMessage(env).None? ==> Final(env, error) == Stored(Completed, error)
  {
  }

  // The row a run leaves when it returns.
  function Final(env: Environment, error: Option<string>): Stored {
    if ErrorMessage(env).Some? then Stored(Failed, ErrorMessage(env)) else Stored(Completed, error)
  }

  // What a run that returns has returned, made and stored.
  ghost predicate Reported(env: Environment, id: Id, known: set<Id>, r: Outcome, w: Writing) {
    if ErrorMessage(env).Some? then r == Finished(Failed, 0, [], [], []) && w == NOTHING
    else
      && env.orchestration.Output? && env.synthesis.Content?
      && Achieved(w, Given(env), RunsOf(env), ClaimOf(env), id, known, r)
  }

  // An error path: note the error, mark FAILED, persist.
  method Fail(id: Id, record: InvestigationRecord, env: Environment, store: InvestigationStore) returns (r: Outcome)
    requires !Raises(env) && ErrorMessage(env).Some?
    requires store.hasTenant && InStep(store.PageOf(id))
    requires id in store.investigations && record.status == store.investigations[id].status == Running
    modifies store`sessions, store`investigations, store`history, record
    ensures Ran(old(store.PageOf(id)), store.PageOf(id), FinalScript(env), r.Finished?)
    ensures r.Finished? <==> store.Quiet(old(store.sessions), store.sessions)
    ensures r.Finished? ==> r == Finished(Failed, 0, [], [], [])
    ensures r.Finished? ==> store.PageOf(id).row == Some(Stored(Failed, ErrorMessage(env)))
  {
    ghost var start := store.PageOf(id);
    record.error := ErrorMessage(env);
    var ok := Advance(store, id, record, Failed, start, [], record.error);
    assert [] + [Failed] == [Failed];
    PersistedRan(start, store.PageOf(id), [Failed], if ok then [Failed] else [], record.error, ok);
    return if ok then Finished(record.status, 0, [], [], []) else Aborted;
  }

  const ENDING: seq<Status> := [Verifying, CalculatingRisk, Completed]

  // Verify, calculate risk, complete.
  method Complete(store: InvestigationStore, id: Id, record: InvestigationRecord) returns (ok: bool)
    requires store.hasTenant && InStep(store.PageOf(id)) && record.error == None
    requires id in store.investigations && record.status == store.investigations[id].status == Running
    modifies store`sessions, store`investigations, store`history, record`status
    ensures Ran(old(store.PageOf(id)), store.PageOf(id), ENDING, ok)
    ensures ok <==> store.Quiet(old(store.sessions), store.sessions)
    ensures ok ==> store.PageOf(id).row == Some(Stored(Completed, old(store.investigations)[id].error))
  {
    ghost var start, error := store.PageOf(id), store.investigations[id].error;
    ok := Advance(store, id, record, Verifying, start, [], error);
    if !ok {
      PersistedRan(start, store.PageOf(id), ENDING, [], error, false);
      return;
    }
    ghost var one := [] + [Verifying];
    ok := Advance(store, id, record, CalculatingRisk, start, one, error);
    if !ok {
      PersistedRan(start, store.PageOf(id), ENDING, one, error, false);
      return;
    }
    ghost var two := one + [CalculatingRisk];
    ok := Advance(store, id, record, Completed, start, two, error);
    PersistedRan(start, store.PageOf(id), ENDING, if ok then two + [Completed] else two, error, ok);
  }

  const CLAIM_LENGTH := 4000
  const PLACEHOLDER := "No findings produced by orchestrator"

  function Clipped(claim: string): (r: string)
    ensures r <= claim && (|claim| >= 4000 ==> |r| == 4000) && (|claim| < 4000 ==> r == claim)
  {
    if |claim| > CLAIM_LENGTH then claim[..CLAIM_LENGTH] else claim
  }

  ghost predicate NoneSupported(fs: seq<FindingRow>) {
    forall i :: 0 <= i < |fs| ==> fs[i].reality == AiInference
  }

  // The findings a completed run adds to the orchestrator's: the model's synthesis if it said
  // anything, and a placeholder if otherwise there would be none.
  ghost predicate Closing(rows: seq<FindingRow>, claim: string, orchestrated: nat, items: seq<EvidenceRow>, id: Id) {
    if claim != "" then
      && |rows| == 1
      && rows[0] == FindingRow(rows[0].id, id, Clipped(claim), Ids(items), AiInference, 0.5)
    else if orchestrated == 0 then
      && |rows| == 1
      && rows[0] == FindingRow(rows[0].id, id, PLACEHOLDER, Ids(items), AiInference, 0.0)
    else rows == []
  }

  method AddClosing(
    store: InvestigationStore, ids: IdSource, id: Id, claim: string, orchestrated: nat, items: seq<EvidenceRow>)
    returns (a: Attempt<seq<FindingRow>>)
    requires store.hasTenant && id in store.investigations
    requires orchestrated == 0 ==> items == []
    modifies store`sessions, store`findings, ids
    ensures old(ids.next) <= ids.next && old(store.sessions) <= store.sessions
    ensures Below(old(store.findings), old(ids.next)) ==>
      (a.Returned? <==> store.Quiet(old(store.sessions), store.sessions))
    ensures a.Returned? ==> Closing(a.value, claim, orchestrated, items, id)
    ensures var stored := if a.Returned? then a.value else [];
      Inserted(old(store.findings), store.findings, FindingIds(stored), stored)
  {
    var row;
    if claim != "" {
      var fid := ids.Fresh();
      row := FindingRow(fid, id, Clipped(claim), Ids(items), AiInference, 0.5);
    } else if orchestrated == 0 {
      var fid := ids.Fresh();
      var evaluated := Evaluate(store, id, Ids(items));
      row := FindingRow(fid, id, PLACEHOLDER, Ids(items), evaluated.value, 0.0);
    } else {
      return Returned([]);
    }
    InsertedNext(store.findings, store.findings, [row.id], [row], 0);
    assert FindingIds([row]) == [row.id] && [row.id][..1] == [row.id] && [row][..1] == [row];
    var added := store.AddFinding(row);
    return if added.Returned? then Returned([row]) else Raised;
  }

  /** What a run has made (findings and their evidence from the orchestrator's output, and
      closing findings), and what of it has been stored. */
  datatype Writing = Writing(
    findings: seq<FindingRow>, items: seq<EvidenceRow>, closing: seq<FindingRow>,
    evidence: seq<EvidenceRow>, stored: seq<FindingRow>)

  const NOTHING := Writing([], [], [], [], [])

  datatype Shelf = Shelf(evidence: map<Id, EvidenceRow>, findings: map<Id, FindingRow>)

  // Evidence is stored first and in order, then findings in order.
  ghost predicate InOrder(w: Writing) {
    && w.evidence <= w.items && w.stored <= w.findings + w.closing
    && (w.stored != [] ==> w.evidence == w.items)
  }

  // Made from the orchestrator's output with fresh evidence ids, judged before any was stored.
  ghost predicate Drafted(
    w: Writing, data: seq<FindingData>, runs: seq<AgentRun>, claim: string, id: Id, from: Id, to: Id,
    before: map<Id, EvidenceRow>)
  {
    && Built(data, Allowed(runs), id, Known(before, id), w.findings, w.items)
    && Ascending(w.items, from, to) && AllOf(w.items, id)
    && (w.closing == [] || Closing(w.closing, claim, |data|, w.items, id))
  }

  // Exactly the rows of this writing came to the shelf.
  ghost predicate Wrote(
    w: Writing, data: seq<FindingData>, runs: seq<AgentRun>, claim: string, id: Id, from: Id, to: Id,
    before: Shelf, after: Shelf)
  {
    && (w == NOTHING || Drafted(w, data, runs, claim, id, from, to, before.evidence)) && InOrder(w)
    && Inserted(before.evidence, after.evidence, Ids(w.evidence), w.evidence)
    && Inserted(before.findings, after.findings, FindingIds(w.stored), w.stored)
  }

  // Everything was made and stored, and is what the run reports.
  ghost predicate Achieved(
    w: Writing, data: seq<FindingData>, runs: seq<AgentRun>, claim: string, id: Id, known: set<Id>, r: Outcome)
  {
    && r == Finished(Completed, CallCount(runs), w.items, w.findings, w.closing)
    && w.evidence == w.items && w.stored == w.findings + w.closing
    && Built(data, Allowed(runs), id, known, w.findings, w.items)
    && Closing(w.closing, claim, |data|, w.items, id)
  }

  lemma WroteNothing(
    data: seq<FindingData>, runs: seq<AgentRun>, claim: string, id: Id, from: Id, to: Id, shelf: Shelf)
    ensures Wrote(NOTHING, data, runs, claim, id, from, to, shelf, shelf)
  {
    InsertedNone(shelf.evidence, shelf.evidence);
    InsertedNone(shelf.findings, shelf.findings);
  }

  lemma WroteClosing(
    w: Writing, closing: seq<FindingRow>, data: seq<FindingData>, runs: seq<AgentRun>, claim: string, id: Id,
    from: Id, to: Id, later: Id, before: Shelf, mid: Shelf, after: Shelf)
    requires Wrote(w, data, runs, claim, id, from, to, before, mid) && to <= later && after.evidence == mid.evidence
    requires Drafted(w, data, runs, claim, id, from, to, before.evidence)
    requires w.evidence == w.items && w.stored == w.findings && w.closing == []
    requires closing == [] || Closing(closing, claim, |data|, w.items, id)
    requires Inserted(mid.findings, after.findings, FindingIds(closing), closing)
    ensures var all := w.(closing := closing, stored := w.findings + closing);
      Wrote(all, data, runs, claim, id, from, later, before, after)
  {
    InsertedTwice(
      before.findings, mid.findings, after.findings, FindingIds(w.stored), w.stored, FindingIds(closing), closing);
    assert FindingIds(w.stored + closing) == FindingIds(w.stored) + FindingIds(closing);
  }

  // Everything but the closing finding: build, then store evidence, then findings.
  method StoreBuilt(
    data: seq<FindingData>, runs: seq<AgentRun>, ghost claim: string, id: Id, store: InvestigationStore, ids: IdSource)
    returns (a: Attempt<(seq<FindingRow>, seq<EvidenceRow>)>, ghost w: Writing)
    requires store.hasTenant && id in store.investigations && Below(store.evidence, ids.next)
    modifies store`sessions, store`evidence, store`findings, ids
    ensures old(ids.next) <= ids.next && Below(store.evidence, ids.next) && old(store.sessions) <= store.sessions
    ensures Wrote(w, data, runs, claim, id, old(ids.next), ids.next, old(store.Rows()), store.Rows())
    ensures a.Returned? ==>
      && Drafted(w, data, runs, claim, id, old(ids.next), ids.next, old(store.evidence))
      && w == Writing(a.value.0, a.value.1, [], a.value.1, a.value.0) && (data == [] ==> a.value.1 == [])
    ensures Unclaimed(old(store.findings), data, old(ids.next)) ==>
      && (a.Returned? <==> store.Quiet(old(store.sessions), store.sessions) && IdsFree(old(store.findings), data))
      && (a.Returned? ==> Below(store.findings, ids.next))
  {
    ghost var from, before := ids.next, store.Rows();
    a := BuildFindings(data, runs, id, store, ids);
    if !a.Returned? {
      w := NOTHING;
      WroteNothing(data, runs, claim, id, from, ids.next, before);
      return;
    }
    var (findings, items) := a.value;
    assert findings + [] == findings;
    var ok, evidence := StoreEvidence(store, items, from, ids.next);
    w := Writing(findings, items, [], evidence, []);
    InsertedNone(store.findings, store.findings);
    if !ok {
      a := Raised;
      return;
    }
    ghost var stored;
    ok, stored := StoreFindings(store, findings);
    w := w.(stored := stored);
    if Unclaimed(before.findings, data, from) {
      FreeExactlyWhen(data, findings, id, from, ids.next, before.findings);
    }
    if !ok {
      a := Raised;
    } else if Unclaimed(before.findings, data, from) {
      NamedBelow(data, findings, id, from, ids.next, before.findings, store.findings);
    }
  }

  // Turn orchestrator output into evidence and findings and store them.
  method StoreOutput(
    data: seq<FindingData>, runs: seq<AgentRun>, claim: string, id: Id, store: InvestigationStore, ids: IdSource)
    returns (r: Outcome, ghost w: Writing)
    requires store.hasTenant && id in store.investigations && Below(store.evidence, ids.next)
    modifies store`sessions, store`evidence, store`findings, ids
    ensures old(ids.next) <= ids.next && Below(store.evidence, ids.next) && old(store.sessions) <= store.sessions
    ensures Wrote(w, data, runs, claim, id, old(ids.next), ids.next, old(store.Rows()), store.Rows())
    ensures Unclaimed(old(store.findings), data, old(ids.next)) ==>
      (r.Finished? <==> store.Quiet(old(store.sessions), store.sessions) && IdsFree(old(store.findings), data))
    ensures r.Finished? ==> Achieved(w, data, runs, claim, id, Known(old(store.evidence), id), r)
  {
    ghost var from, before := ids.next, store.Rows();
    var toolCalls := CountCalls(runs);
    var built;
    built, w := StoreBuilt(data, runs, claim, id, store, ids);
    if !built.Returned? {
      r := Aborted;
      return;
    }
    var (findings, items) := built.value;
    ghost var mid, to := store.Rows(), ids.next;
    var closing := AddClosing(store, ids, id, claim, |data|, items);
    ghost var rows := if closing.Returned? then closing.value else [];
    WroteClosing(w, rows, data, runs, claim, id, from, to, ids.next, before, mid, store.Rows());
    w := w.(closing := rows, stored := w.findings + rows);
    r := if closing.Returned? then Finished(Completed, toolCalls, items, findings, closing.value) else Aborted;
  }

  // Store what the run found and complete it.
  method Work(id: Id, record: InvestigationRecord, env: Environment, store: InvestigationStore, ids: IdSource)
    returns (r: Outcome, ghost w: Writing)
    requires !Raises(env) && ErrorMessage(env).None?
    requires store.hasTenant && InStep(store.PageOf(id)) && Below(store.evidence, ids.next) && record.error == None
    requires id in store.investigations && record.status == store.investigations[id].status == Running
    modifies store`sessions, store`investigations, store`history, store`evidence, store`findings, record`status, ids
    ensures Ran(old(store.PageOf(id)), store.PageOf(id), FinalScript(env), r.Finished?)
    ensures r.Aborted? && store.Quiet(old(store.sessions), store.sessions) ==>
      store.PageOf(id) == old(store.PageOf(id)).(sessions := store.sessions)
    ensures old(ids.next) <= ids.next && Below(store.evidence, ids.next)
    ensures Wrote(w, Given(env), RunsOf(env), ClaimOf(env), id, old(ids.next), ids.next,
                  old(store.Rows()), store.Rows())
    ensures Unclaimed(old(store.findings), Given(env), old(ids.next)) ==>
      (r.Finished? <==> store.Quiet(old(store.sessions), store.sessions) && IdsFree(old(store.findings), Given(env)))
    ensures r.Finished? ==> Achieved(w, Given(env), RunsOf(env), ClaimOf(env), id, Known(old(store.evidence), id), r)
    ensures r.Finished? ==> store.PageOf(id).row == Some(Stored(Completed, old(store.investigations)[id].error))
  {
    ghost var start, error := store.PageOf(id), store.investigations[id].error;
    r, w := StoreOutput(Given(env), RunsOf(env), ClaimOf(env), id, store, ids);
    if r.Aborted? {
      PersistedRan(start, store.PageOf(id), ENDING, [], error, false);
      return;
    }
    var ok := Complete(store, id, record);
    if !ok {
      r := Aborted;
    }
  }

  // Everything after marking the investigation RUNNING.
  method Proceed(id: Id, record: InvestigationRecord, env: Environment, store: InvestigationStore, ids: IdSource)
    returns (r: Outcome, ghost w: Writing)
    requires store.hasTenant && InStep(store.PageOf(id)) && Below(store.evidence, ids.next) && record.error == None
    requires id in store.investigations && record.status == store.investigations[id].status == Running
    modifies store`sessions, store`investigations, store`history, store`evidence, store`findings, record, ids
    ensures Ran(old(store.PageOf(id)), store.PageOf(id), FinalScript(env), r.Finished?)
    ensures r.Aborted? && store.Quiet(old(store.sessions), store.sessions) ==>
      store.PageOf(id) == old(store.PageOf(id)).(sessions := store.sessions)
    ensures old(ids.next) <= ids.next && Below(store.evidence, ids.next)
    ensures Wrote(w, Given(env), RunsOf(env), ClaimOf(env), id, old(ids.next), ids.next,
                  old(store.Rows()), store.Rows())
    ensures Raises(env) ==> w == NOTHING
    ensures Unclaimed(old(store.findings), Given(env), old(ids.next)) ==>
      (r.Finished? <==>
        && store.Quiet(old(store.sessions), store.sessions)
        && !Raises(env) && IdsFree(old(store.findings), Given(env)))
    ensures r.Finished? ==> Reported(env, id, Known(old(store.evidence), id), r, w)
    ensures r.Finished? ==> store.PageOf(id).row == Some(Final(env, old(store.investigations)[id].error))
  {
    w := NOTHING;
    WroteNothing(Given(env), RunsOf(env), ClaimOf(env), id, ids.next, ids.next, store.Rows());
    if Raises(env) {
      PersistedRan(store.PageOf(id), store.PageOf(id), FinalScript(env), [], None, false);
      r := Aborted;
      return;
    }
    if ErrorMessage(env).Some? {
      r := Fail(id, record, env, store);
    } else {
      r, w := Work(id, record, env, store, ids);
    }
  }

  function Last(h: seq<Status>): Option<Status> {
    if h == [] then None else Some(h[|h| - 1])
  }

  // A script that can follow a last status, if there is one.
  predicate Legal(last: Option<Status>, script: seq<Status>)
    decreases |script|
  {
    script != [] ==>
      && (if last.None? then script[0] == Queued else MayMark(last.value, script[0]))
      && Legal(Some(script[0]), script[1..])
  }

  lemma {:induction false} LegalWalks(h: seq<Status>, script: seq<Status>, n: nat)
    requires (h == [] || Walk(h)) && Legal(Last(h), script) && n <= |script| && h + script[..n] != []
    ensures Walk(h + script[..n])
    decreases |script|
  {
    if n == 0 {
      assert h + script[..0] == h;
    } else {
      if h != [] {
        WalkExtends(h, script[0]);
      }
      LegalWalks(h + [script[0]], script[1..], n - 1);
      assert h + [script[0]] + script[1..][..n - 1] == h + script[..n];
    }
  }

  lemma FinalLegal(env: Environment)
    ensures Legal(Some(Running), FinalScript(env))
  {
    assert Legal(Some(Running), [Failed]) by {
      assert [Failed][1..] == [];
    }
    assert ENDING[1..] == [CalculatingRisk, Completed];
    assert ENDING[1..][1..] == [Completed] && ENDING[1..][1..][1..] == [];
    assert Legal(Some(CalculatingRisk), ENDING[1..][1..]);
    assert Legal(Some(Verifying), ENDING[1..]);
  }

  lemma ScriptLegal(rows: map<Id, Stored>, last: Option<Status>, id: Id, env: Environment)
    requires last == if id in rows then Some(rows[id].status) else None
    ensures Legal(last, Script(rows, id, env))
  {
    if !Stuck(rows, id) {
      var script, running := Script(rows, id, env), [Running] + FinalScript(env);
      FinalLegal(env);
      assert running[1..] == FinalScript(env);
      if Requeued(rows, id) {
        assert script[0] == Queued && script[1..] == running;
        assert Legal(Some(Queued), running);
      } else {
        assert script == running;
      }
    }
  }

  // What a run does to one page keeps its history a walk of the table.
  lemma RunWalks(p: Page, q: Page, rows: map<Id, Stored>, id: Id, env: Environment, done: bool)
    requires Ran(p, q, Script(rows, id, env), done) && (p.statuses == [] || Walk(p.statuses))
    requires InStep(p) && p.row == if id in rows then Some(rows[id]) else None
    ensures p.statuses <= q.statuses && (q.statuses == [] || Walk(q.statuses))
  {
    var script := Script(rows, id, env);
    var n := |script|;
    if !done {
      n :| 0 <= n <= |script| && q.statuses == p.statuses + script[..n];
    }
    assert script[..|script|] == script;
    ScriptLegal(rows, Last(p.statuses), id, env);
    if q.statuses != [] {
      LegalWalks(p.statuses, script, n);
    }
  }

  // The pages of a run whose start has stopped early, or of one that went on.
  lemma WholeRun(p: Page, q: Page, r: Page, rows: map<Id, Stored>, id: Id, env: Environment, begun: bool, done: bool)
    requires Ran(p, q, StartScript(rows, id), begun) && (begun ==> !Stuck(rows, id))
    requires if begun then Ran(q, r, FinalScript(env), done) else r == q && !done
    ensures Ran(p, r, Script(rows, id, env), done)
  {
    if begun {
      RanOn(p, q, r, StartScript(rows, id), FinalScript(env), done);
    } else if !Stuck(rows, id) {
      RanPartly(p, q, StartScript(rows, id), FinalScript(env));
    }
  }

  // What holds of a changed page and of all the others before holds of all after.
  lemma TrackedAgain(h: Histories, rows: map<Id, Stored>, h': Histories, rows': map<Id, Stored>, id: Id)
    requires Tracked(h, rows) && h' - {id} == h - {id} && rows' - {id} == rows - {id}
    requires Tracks(h', rows', id)
    ensures Tracked(h', rows')
  {
    forall k ensures Tracks(h', rows', k) {
      if k != id {
        SameElsewhere(h, h', id, k);
        SameElsewhere(rows, rows', id, k);
        assert Tracks(h, rows, k);
      }
    }
  }

  lemma TrackedInStep(sessions: nat, rows: map<Id, Stored>, h: Histories, id: Id)
    requires Tracked(h, rows)
    ensures InStep(PageIn(sessions, rows, h, id)) && (HistoryOf(h, id) == [] || Walk(HistoryOf(h, id)))
  {
    assert Tracks(h, rows, id);
  }

  // What a run's pages say about the whole store.
  lemma RunKept(
    p: Page, q: Page, r: Page, rows: map<Id, Stored>, h: Histories, rows': map<Id, Stored>, h': Histories,
    id: Id, env: Environment, begun: bool, done: bool)
    requires Tracked(h, rows) && p == PageIn(p.sessions, rows, h, id) && r == PageIn(r.sessions, rows', h', id)
    requires Ran(p, q, StartScript(rows, id), begun) && (begun ==> !Stuck(rows, id))
    requires if begun then Ran(q, r, FinalScript(env), done) else r == q && !done
    ensures Ran(p, r, Script(rows, id, env), done) && Tracked(h', rows') && Grown(h, h', id)
  {
    TrackedInStep(p.sessions, rows, h, id);
    WholeRun(p, q, r, rows, id, env, begun, done);
    RunWalks(p, r, rows, id, env, done);
    TrackedAgain(h, rows, h', rows', id);
  }

  /** One run. It returns exactly when no session of its own was faulty, the investigation was
      not stored in a status from which no run starts, nothing outside the handlers raised, and
      no finding came with a taken id (fresh ids never are). Then the script of statuses was
      persisted in full, the row is FAILED with the error or COMPLETED with the error of an
      earlier failed run still on record, and evidence and findings are as reported. Otherwise
      the script was persisted up to some point, and if no session was faulty the investigation
      stays RUNNING, from where it can be run again. Either way the history stays a walk of the
      table, no other investigation is touched, and all that comes to the evidence and finding
      tables is what was made for this investigation: evidence in order first, then findings. */
  method RunInvestigation(id: Id, env: Environment, store: InvestigationStore, ids: IdSource)
    returns (r: Outcome, ghost w: Writing)
    requires store.Valid() && Below(store.evidence, ids.next)
    modifies store, ids
    ensures store.Valid() && Below(store.evidence, ids.next)
    ensures Ran(old(store.PageOf(id)), store.PageOf(id), Script(old(store.investigations), id, env), r.Finished?)
    ensures Grown(old(store.history), store.history, id)
    ensures Wrote(w, Given(env), RunsOf(env), ClaimOf(env), id, old(ids.next), ids.next,
                  old(store.Rows()), store.Rows())
    ensures Raises(env) || Stuck(old(store.investigations), id) ==> w == NOTHING
    ensures Unclaimed(old(store.findings), Given(env), old(ids.next)) ==>
      (r.Finished? <==>
        && store.Quiet(old(store.sessions), store.sessions) && !Stuck(old(store.investigations), id)
        && !Raises(env) && IdsFree(old(store.findings), Given(env)))
    ensures r.Aborted? && store.Quiet(old(store.sessions), store.sessions) && !Stuck(old(store.investigations), id) ==>
      && store.PageOf(id).row == Some(Stored(Running, ErrorOf(old(store.investigations), id)))
      && store.PageOf(id).statuses == old(store.PageOf(id)).statuses + StartScript(old(store.investigations), id)
    ensures Stuck(old(store.investigations), id) ==>
      r.Aborted? && store.PageOf(id) == old(store.PageOf(id)).(sessions := store.sessions)
    ensures r.Finished? ==> store.PageOf(id).row == Some(Final(env, ErrorOf(old(store.investigations), id)))
    ensures r.Finished? ==>
      Reported(env, id, Known(old(store.evidence), id), r, w) && r.status == Final(env, None).status
  {
    ghost var start, rows, histories := store.PageOf(id), store.investigations, store.history;
    TrackedInStep(store.sessions, rows, histories, id);
    w := NOTHING;
    WroteNothing(Given(env), RunsOf(env), ClaimOf(env), id, ids.next, ids.next, store.Rows());
    var begun := Begin(store, id);
    ghost var running := store.PageOf(id);
    if begun.Returned? {
      r, w := Proceed(id, begun.value, env, store, ids);
    } else {
      r := Aborted;
    }
    RunKept(start, running, store.PageOf(id), rows, histories, store.investigations, store.history, id, env,
            begun.Returned?, r.Finished?);
  }

  ghost predicate AllGrown(before: Histories, after: Histories) {
    forall k :: HistoryOf(before, k) <= HistoryOf(after, k)
  }

  ghost predicate CompletedKept(before: map<Id, Stored>, after: map<Id, Stored>) {
    forall k :: k in before && before[k].status == Completed ==> k in after && after[k] == before[k]
  }

  predicate IsComplete(r: Outcome) {
    r.Finished? && r.status == Completed
  }

  // Returned statuses were persisted, and a completed investigation is completed for good.
  ghost predicate Honoured(jobs: seq<(Id, Environment)>, outcomes: seq<Outcome>, rows: map<Id, Stored>, h: Histories)
    requires |outcomes| <= |jobs|
  {
    && (forall i :: 0 <= i < |outcomes| && outcomes[i].Finished? ==> outcomes[i].status in HistoryOf(h, jobs[i].0))
    && (forall i :: 0 <= i < |outcomes| && IsComplete(outcomes[i]) ==>
      jobs[i].0 in rows && rows[jobs[i].0].status == Completed)
    && forall i, j :: 0 <= i < j < |outcomes| && jobs[i].0 == jobs[j].0 && IsComplete(outcomes[i]) ==>
      outcomes[j].Aborted?
  }

  // What one run leaves of the others' rows and of its own.
  ghost predicate RunLeaves(rows: map<Id, Stored>, rows': map<Id, Stored>, id: Id, r: Outcome) {
    && rows' - {id} == rows - {id}
    && (Stuck(rows, id) ==> r.Aborted? && id in rows' && rows'[id] == rows[id])
    && (r.Finished? ==> id in rows' && r.status == rows'[id].status)
  }

  lemma CompletedStays(first: map<Id, Stored>, rows: map<Id, Stored>, rows': map<Id, Stored>, id: Id, r: Outcome)
    requires CompletedKept(first, rows) && RunLeaves(rows, rows', id, r)
    ensures CompletedKept(first, rows')
  {
    forall k | k in first && first[k].status == Completed ensures k in rows' && rows'[k] == first[k] {
      if k != id {
        SameElsewhere(rows, rows', id, k);
      }
    }
  }

  lemma AllGrownOn(first: Histories, h: Histories, h': Histories, id: Id)
    requires AllGrown(first, h) && Grown(h, h', id)
    ensures AllGrown(first, h')
  {
    forall k ensures HistoryOf(first, k) <= HistoryOf(h', k) {
      if k != id {
        SameElsewhere(h, h', id, k);
      }
    }
  }

  lemma StatusPersisted(rows: map<Id, Stored>, h: Histories, id: Id)
    requires Tracked(h, rows) && id in rows
    ensures rows[id].status in HistoryOf(h, id)
  {
    assert Tracks(h, rows, id);
  }

  lemma StillPersisted(before: Histories, after: Histories, id: Id, s: Status)
    requires AllGrown(before, after) && s in HistoryOf(before, id)
    ensures s in HistoryOf(after, id)
  {
    assert HistoryOf(before, id) <= HistoryOf(after, id);
  }

  lemma StillComplete(rows: map<Id, Stored>, rows': map<Id, Stored>, id: Id, r: Outcome, k: Id)
    requires RunLeaves(rows, rows', id, r) && k in rows && rows[k].status == Completed
    ensures k in rows' && rows'[k].status == Completed && (k == id ==> r.Aborted?)
  {
    if k != id {
      SameElsewhere(rows, rows', id, k);
    }
  }

  lemma NextHonoured(
    jobs: seq<(Id, Environment)>, outcomes: seq<Outcome>, rows: map<Id, Stored>, h: Histories,
    rows': map<Id, Stored>, h': Histories, id: Id, r: Outcome)
    requires |outcomes| < |jobs| && id == jobs[|outcomes|].0 && Honoured(jobs, outcomes, rows, h)
    requires AllGrown(h, h') && RunLeaves(rows, rows', id, r) && (r.Finished? ==> r.status in HistoryOf(h', id))
    ensures Honoured(jobs, outcomes + [r], rows', h')
  {
    forall i | 0 <= i < |outcomes|
      ensures outcomes[i].Finished? ==> outcomes[i].status in HistoryOf(h', jobs[i].0)
      ensures IsComplete(outcomes[i]) ==>
                jobs[i].0 in rows' && rows'[jobs[i].0].status == Completed && (jobs[i].0 == id ==> r.Aborted?)
    {
      if outcomes[i].Finished? {
        StillPersisted(h, h', jobs[i].0, outcomes[i].status);
      }
      if IsComplete(outcomes[i]) {
        StillComplete(rows, rows', id, r, jobs[i].0);
      }
    }
  }

  // ---------------------------------------------------------------- what completion means

  // What the findings cite beyond what they cited on arrival, one after another.
  function Cited(data: seq<FindingData>, findings: seq<FindingRow>): seq<Id>
    requires |data| == |findings|
  {
    if data == [] then [] else
      var n := |data| - 1;
      Cited(data[..n], findings[..n])
      + if |data[n].evidenceIds| > |findings[n].evidenceIds| then []
        else findings[n].evidenceIds[|data[n].evidenceIds|..]
  }

  lemma IdsSplit(items: seq<EvidenceRow>, m: nat)
    requires m <= |items|
    ensures Ids(items) == Ids(items[..m]) + Ids(items[m..])
  {
  }

  lemma BuiltPrefix(
    data: seq<FindingData>, calls: seq<ToolCall>, id: Id, known: set<Id>, findings: seq<FindingRow>,
    items: seq<EvidenceRow>, n: nat)
    requires Built(data, calls, id, known, findings, items) && |data| == n + 1
    ensures Built(data[..n], calls, id, known, findings[..n], items[..Times(n, |calls|)])
    ensures Share(items, n, |calls|) == items[Times(n, |calls|)..]
  {
    var fewer := items[..Times(n, |calls|)];
    LastShare(fewer, items[Times(n, |calls|)..], n, |calls|);
    assert fewer + items[Times(n, |calls|)..] == items;
    forall i | 0 <= i < n ensures MadeFrom(data[i], calls, id, known, findings[i], Share(fewer, i, |calls|)) {
      ShareKept(fewer, items, i, n, |calls|);
      assert MadeFrom(data[i], calls, id, known, findings[i], Share(items, i, |calls|));
    }
  }

  lemma {:induction false} CitedInOrder(
    data: seq<FindingData>, calls: seq<ToolCall>, id: Id, known: set<Id>, findings: seq<FindingRow>,
    items: seq<EvidenceRow>)
    requires Built(data, calls, id, known, findings, items)
    ensures Cited(data, findings) == Ids(items)
    decreases |data|
  {
    if data != [] {
      var n := |data| - 1;
      var m := Times(n, |calls|);
      BuiltPrefix(data, calls, id, known, findings, items, n);
      CitedInOrder(data[..n], calls, id, known, findings[..n], items[..m]);
      IdsSplit(items, m);
      assert MadeFrom(data[n], calls, id, known, findings[n], items[m..]);
      assert findings[n].evidenceIds[|data[n].evidenceIds|..] == Ids(items[m..]);
    }
  }

  /** Every finding gets one evidence row per allowed tool call: the evidence count is the
      product, and the findings' new citations, read in order, are the evidence list. */
  lemma {:induction false} EvidenceIsFindingsTimesCalls(
    data: seq<FindingData>, calls: seq<ToolCall>, id: Id, known: set<Id>, findings: seq<FindingRow>,
    items: seq<EvidenceRow>)
    requires Built(data, calls, id, known, findings, items)
    ensures |items| == |data| * |calls|
    ensures Cited(data, findings) == Ids(items)
  {
    TimesIsProduct(|data|, |calls|);
    CitedInOrder(data, calls, id, known, findings, items);
  }

  // A finding cites its share of the evidence list after what it cited on arrival.
  lemma EveryShare(
    data: seq<FindingData>, calls: seq<ToolCall>, id: Id, known: set<Id>, findings: seq<FindingRow>,
    items: seq<EvidenceRow>, i: nat)
    requires Built(data, calls, id, known, findings, items) && i < |data|
    ensures Times(i, |calls|) + |calls| <= |items|
    ensures MadeFrom(data[i], calls, id, known, findings[i], Share(items, i, |calls|))
  {
    ShareKept(items, items, i, |data|, |calls|);
  }

  ghost predicate Disjoint(a: seq<Id>, b: seq<Id>) {
    forall x, y :: 0 <= x < |a| && 0 <= y < |b| ==> a[x] != b[y]
  }

  ghost predicate Within(ids: seq<Id>, known: set<Id>) {
    forall x :: 0 <= x < |ids| ==> ids[x] in known
  }

  /** No two findings that arrived citing nothing share any evidence. */
  lemma {:induction false} CitationsDisjoint(
    data: seq<FindingData>, calls: seq<ToolCall>, id: Id, known: set<Id>, findings: seq<FindingRow>,
    items: seq<EvidenceRow>, from: Id, to: Id, i: nat, j: nat)
    requires Built(data, calls, id, known, findings, items) && Ascending(items, from, to) && i < j < |data|
    requires data[i].evidenceIds == data[j].evidenceIds == []
    ensures Disjoint(findings[i].evidenceIds, findings[j].evidenceIds)
  {
    EveryShare(data, calls, id, known, findings, items, i);
    EveryShare(data, calls, id, known, findings, items, j);
    TimesMonotone(i + 1, j, |calls|);
    var a, b := Share(items, i, |calls|), Share(items, j, |calls|);
    SharesApart(items, from, to, Times(i, |calls|), Times(j, |calls|), a, b);
    assert findings[i].evidenceIds == Ids(a) && findings[j].evidenceIds == Ids(b);
  }

  lemma SharesApart(items: seq<EvidenceRow>, from: Id, to: Id, p: nat, q: nat, a: seq<EvidenceRow>, b: seq<EvidenceRow>)
    requires Ascending(items, from, to) && p + |a| <= q && q + |b| <= |items|
    requires a == items[p..p + |a|] && b == items[q..q + |b|]
    ensures Disjoint(Ids(a), Ids(b))
  {
    forall x, y | 0 <= x < |a| && 0 <= y < |b| ensures Ids(a)[x] != Ids(b)[y] {
      assert a[x] == items[p + x] && b[y] == items[q + y];
    }
  }

  lemma CitedRow(
    data: seq<FindingData>, calls: seq<ToolCall>, id: Id, known: set<Id>, findings: seq<FindingRow>,
    items: seq<EvidenceRow>, i: nat, x: nat) returns (k: nat)
    requires Built(data, calls, id, known, findings, items) && i < |data|
    requires |data[i].evidenceIds| <= x < |findings[i].evidenceIds|
    ensures k < |items| && items[k].id == findings[i].evidenceIds[x] && items[k].investigation == id
  {
    EveryShare(data, calls, id, known, findings, items, i);
    var part, y := Share(items, i, |calls|), x - |data[i].evidenceIds|;
    assert findings[i].evidenceIds[x] == Ids(part)[y];
    assert Documents(part[y], calls[y], id);
    k := Times(i, |calls|) + y;
  }

  /** After a completed run every new citation names evidence stored for that investigation. */
  lemma {:induction false} CitationsResolve(
    data: seq<FindingData>, calls: seq<ToolCall>, id: Id, before: map<Id, EvidenceRow>, after: map<Id, EvidenceRow>,
    findings: seq<FindingRow>, items: seq<EvidenceRow>, i: nat, x: nat)
    requires Built(data, calls, id, Known(before, id), findings, items) && EvidenceStored(after, items) && i < |data|
    requires |data[i].evidenceIds| <= x < |findings[i].evidenceIds|
    ensures findings[i].evidenceIds[x] in Known(after, id)
  {
    var k := CitedRow(data, calls, id, Known(before, id), findings, items, i, x);
  }

  /** Because findings are judged before their evidence is stored, one is labelled
      EVIDENCE_SUPPORTED exactly when it arrived citing evidence, all of it already stored for
      this investigation, and no tool call was allowed; so never if it arrived citing none. */
  lemma SupportedExactlyWhen(
    data: seq<FindingData>, calls: seq<ToolCall>, id: Id, before: map<Id, EvidenceRow>, findings: seq<FindingRow>,
    items: seq<EvidenceRow>, from: Id, to: Id, i: nat)
    requires Built(data, calls, id, Known(before, id), findings, items) && Ascending(items, from, to) && i < |data|
    requires Below(before, from)
    ensures findings[i].reality == EvidenceSupported
       <==> data[i].evidenceIds != [] && calls == []
            && forall k :: 0 <= k < |data[i].evidenceIds| ==> data[i].evidenceIds[k] in Known(before, id)
  {
    EveryShare(data, calls, id, Known(before, id), findings, items, i);
    var given, ids, part := data[i].evidenceIds, findings[i].evidenceIds, Share(items, i, |calls|);
    if calls == [] {
      assert ids == given;
    } else {
      assert part[0] == items[Times(i, |calls|)] && ids[|given|] == Ids(part)[0];
      assert ids[|given|] !in Known(before, id);
    }
  }

  ghost predicate CitationsApart(fs: seq<FindingRow>) {
    forall i, j :: 0 <= i < j < |fs| ==> Disjoint(fs[i].evidenceIds, fs[j].evidenceIds)
  }

  ghost predicate CitationsKnown(fs: seq<FindingRow>, known: set<Id>) {
    forall i :: 0 <= i < |fs| ==> Within(fs[i].evidenceIds, known)
  }

  lemma FindingsCitingNothing(
    data: seq<FindingData>, calls: seq<ToolCall>, id: Id, before: map<Id, EvidenceRow>, after: map<Id, EvidenceRow>,
    fs: seq<FindingRow>, items: seq<EvidenceRow>, from: Id, to: Id)
    requires Built(data, calls, id, Known(before, id), fs, items) && Ascending(items, from, to)
    requires EvidenceStored(after, items) && Below(before, from)
    requires forall i :: 0 <= i < |data| ==> data[i].evidenceIds == []
    ensures CitationsApart(fs) && CitationsKnown(fs, Known(after, id)) && NoneSupported(fs)
  {
    var known := Known(before, id);
    forall i, j | 0 <= i < j < |data| ensures Disjoint(fs[i].evidenceIds, fs[j].evidenceIds) {
      CitationsDisjoint(data, calls, id, known, fs, items, from, to, i, j);
    }
    forall i | 0 <= i < |data| ensures Within(fs[i].evidenceIds, Known(after, id)) {
      forall x | 0 <= x < |fs[i].evidenceIds| ensures fs[i].evidenceIds[x] in Known(after, id) {
        CitationsResolve(data, calls, id, before, after, fs, items, i, x);
      }
    }
    forall i | 0 <= i < |fs| ensures fs[i].reality == AiInference {
      SupportedExactlyWhen(data, calls, id, before, fs, items, from, to, i);
    }
  }

  lemma ClosingUnsupported(rows: seq<FindingRow>, claim: string, orchestrated: nat, items: seq<EvidenceRow>, id: Id)
    requires Closing(rows, claim, orchestrated, items, id)
    ensures NoneSupported(rows)
  {
  }

  /** A completed run whose orchestrator findings cite nothing: it counted all tool calls and
      stored, for each finding, one evidence row per call of status ALLOW and no other, findings
      times allowed calls together; the findings' citations in order are those rows, no two
      findings share one, every citation resolves, and nothing is labelled EVIDENCE_SUPPORTED. */
  lemma {:induction false} CompletedRun(
    w: Writing, data: seq<FindingData>, runs: seq<AgentRun>, claim: string, id: Id, r: Outcome, from: Id, to: Id,
    before: Shelf, after: Shelf)
    requires Wrote(w, data, runs, claim, id, from, to, before, after)
    requires Achieved(w, data, runs, claim, id, Known(before.evidence, id), r)
    requires Below(before.evidence, from) && forall i :: 0 <= i < |data| ==> data[i].evidenceIds == []
    ensures r.toolCalls == |CallPlaces(runs)|
    ensures |after.evidence| == |before.evidence| + |data| * |AllowedPlaces(runs)|
    ensures forall i :: 0 <= i < |data| ==> EvidenceOfRuns(Share(r.evidence, i, |AllowedPlaces(runs)|), runs, id)
    ensures Cited(data, r.findings) == Ids(r.evidence)
    ensures CitationsApart(r.findings) && CitationsKnown(r.findings, Known(after.evidence, id))
    ensures CitationsKnown(r.closing, Known(after.evidence, id))
    ensures NoneSupported(r.findings) && NoneSupported(r.closing)
  {
    var calls, known := Allowed(runs), Known(before.evidence, id);
    CallsCounted(runs);
    var places := AllowedAcross(runs);
    forall i | 0 <= i < |data| ensures EvidenceOfRuns(Share(r.evidence, i, |AllowedPlaces(runs)|), runs, id) {
      EveryShare(data, calls, id, known, w.findings, w.items, i);
      MirrorsOfRuns(Share(w.items, i, |calls|), runs, id);
    }
    DraftedByThen(w, data, runs, claim, id, from, to, before, after, r);
    EvidenceOfWriting(before.evidence, after.evidence, w.items);
    InsertedSize(before.evidence, after.evidence, Ids(w.items), w.items);
    EvidenceIsFindingsTimesCalls(data, calls, id, known, w.findings, w.items);
    FindingsCitingNothing(data, calls, id, before.evidence, after.evidence, w.findings, w.items, from, to);
    ClosingUnsupported(w.closing, claim, |data|, w.items, id);
    ClosingResolves(w.closing, claim, |data|, w.items, id, after.evidence);
  }

  lemma DraftedByThen(
    w: Writing, data: seq<FindingData>, runs: seq<AgentRun>, claim: string, id: Id, from: Id, to: Id,
    before: Shelf, after: Shelf, r: Outcome)
    requires Wrote(w, data, runs, claim, id, from, to, before, after)
    requires Achieved(w, data, runs, claim, id, Known(before.evidence, id), r)
    ensures Drafted(w, data, runs, claim, id, from, to, before.evidence)
  {
  }

  // ---------------------------------------------------------------- any number of runs

  // All citations from the given ones on are stored evidence of the finding's investigation.
  ghost predicate ResolvesPast(f: FindingRow, given: seq<Id>, evidence: map<Id, EvidenceRow>) {
    && given <= f.evidenceIds
    && forall x :: |given| <= x < |f.evidenceIds| ==> f.evidenceIds[x] in Known(evidence, f.investigation)
  }

  // What a finding of this run may have cited on arrival; a closing finding cites nothing by then.
  ghost predicate Arrived(env: Environment, given: seq<Id>) {
    given == [] || exists i :: 0 <= i < |Given(env)| && Given(env)[i].evidenceIds == given
  }

  ghost predicate FromJob(f: FindingRow, job: (Id, Environment), evidence: map<Id, EvidenceRow>) {
    f.investigation == job.0 && exists given :: Arrived(job.1, given) && ResolvesPast(f, given, evidence)
  }

  // Every new row belongs to the investigation of one of the runs, and every citation that a run
  // added to a new finding resolves.
  ghost predicate NewRowsFrom(jobs: seq<(Id, Environment)>, before: Shelf, after: Shelf) {
    && (forall f :: f in after.findings && f !in before.findings ==>
          exists k :: 0 <= k < |jobs| && FromJob(after.findings[f], jobs[k], after.evidence))
    && (forall e :: e in after.evidence && e !in before.evidence ==>
          exists k :: 0 <= k < |jobs| && after.evidence[e].investigation == jobs[k].0)
  }

  lemma EvidenceOfWriting(before: map<Id, EvidenceRow>, after: map<Id, EvidenceRow>, rows: seq<EvidenceRow>)
    requires Inserted(before, after, Ids(rows), rows)
    ensures EvidenceStored(after, rows)
  {
    forall i | 0 <= i < |rows| ensures rows[i].id in after && after[rows[i].id] == rows[i] {
      assert Ids(rows)[i] == rows[i].id;
    }
  }

  lemma MadeResolves(
    data: seq<FindingData>, calls: seq<ToolCall>, id: Id, before: map<Id, EvidenceRow>, after: map<Id, EvidenceRow>,
    findings: seq<FindingRow>, items: seq<EvidenceRow>, i: nat)
    requires Built(data, calls, id, Known(before, id), findings, items) && EvidenceStored(after, items) && i < |data|
    ensures findings[i].investigation == id && ResolvesPast(findings[i], data[i].evidenceIds, after)
  {
    EveryShare(data, calls, id, Known(before, id), findings, items, i);
    forall x | |data[i].evidenceIds| <= x < |findings[i].evidenceIds|
      ensures findings[i].evidenceIds[x] in Known(after, id)
    {
      CitationsResolve(data, calls, id, before, after, findings, items, i, x);
    }
  }

  lemma ClosingResolves(
    rows: seq<FindingRow>, claim: string, orchestrated: nat, items: seq<EvidenceRow>, id: Id,
    evidence: map<Id, EvidenceRow>)
    requires Closing(rows, claim, orchestrated, items, id) && AllOf(items, id) && EvidenceStored(evidence, items)
    ensures CitationsKnown(rows, Known(evidence, id))
    ensures forall i :: 0 <= i < |rows| ==> rows[i].investigation == id
  {
    if rows != [] {
      forall x | 0 <= x < |rows[0].evidenceIds| ensures rows[0].evidenceIds[x] in Known(evidence, id) {
        assert Ids(items)[x] == items[x].id;
      }
    }
  }

  lemma StoredFromJob(
    w: Writing, job: (Id, Environment), from: Id, to: Id, before: Shelf, after: Shelf, i: nat)
    requires Wrote(w, Given(job.1), RunsOf(job.1), ClaimOf(job.1), job.0, from, to, before, after) && i < |w.stored|
    ensures FromJob(w.stored[i], job, after.evidence)
  {
    var id, env := job.0, job.1;
    EvidenceOfWriting(before.evidence, after.evidence, w.evidence);
    var n, data := |w.findings|, Given(env);
    assert w.stored[i] == (w.findings + w.closing)[i];
    if i < n {
      MadeResolves(data, Allowed(RunsOf(env)), id, before.evidence, after.evidence, w.findings, w.items, i);
      assert Arrived(env, data[i].evidenceIds);
    } else {
      ClosingResolves(w.closing, ClaimOf(env), |data|, w.items, id, after.evidence);
      assert Within(w.closing[i - n].evidenceIds, Known(after.evidence, id));
      assert Arrived(env, []) && ResolvesPast(w.stored[i], [], after.evidence);
    }
  }

  // What one run adds.
  lemma RunAdds(w: Writing, job: (Id, Environment), from: Id, to: Id, before: Shelf, after: Shelf)
    requires Wrote(w, Given(job.1), RunsOf(job.1), ClaimOf(job.1), job.0, from, to, before, after)
    ensures NewRowsFrom([job], before, after)
  {
    forall f | f in after.findings && f !in before.findings
      ensures FromJob(after.findings[f], [job][0], after.evidence)
    {
      var i :| 0 <= i < |w.stored| && FindingIds(w.stored)[i] == f;
      StoredFromJob(w, job, from, to, before, after, i);
    }
    forall e | e in after.evidence && e !in before.evidence ensures after.evidence[e].investigation == [job][0].0 {
      var i :| 0 <= i < |w.evidence| && Ids(w.evidence)[i] == e;
      assert w.evidence[i] == w.items[i];
    }
  }

  lemma FromJobKept(f: FindingRow, job: (Id, Environment), evidence: map<Id, EvidenceRow>, more: map<Id, EvidenceRow>)
    requires FromJob(f, job, evidence) && Kept(evidence, more)
    ensures FromJob(f, job, more)
  {
    var given :| Arrived(job.1, given) && ResolvesPast(f, given, evidence);
    assert ResolvesPast(f, given, more);
  }

  lemma NewRowsOn(jobs: seq<(Id, Environment)>, job: (Id, Environment), a: Shelf, b: Shelf, c: Shelf)
    requires NewRowsFrom(jobs, a, b) && NewRowsFrom([job], b, c)
    requires Kept(b.evidence, c.evidence) && Kept(b.findings, c.findings)
    ensures NewRowsFrom(jobs + [job], a, c)
  {
    var so, n := jobs + [job], |jobs|;
    forall f | f in c.findings && f !in a.findings
      ensures exists k :: 0 <= k < |so| && FromJob(c.findings[f], so[k], c.evidence)
    {
      if f in b.findings {
        var k :| 0 <= k < n && FromJob(b.findings[f], jobs[k], b.evidence);
        FromJobKept(b.findings[f], jobs[k], b.evidence, c.evidence);
        assert FromJob(c.findings[f], so[k], c.evidence);
      } else {
        assert FromJob(c.findings[f], so[n], c.evidence);
      }
    }
    forall e | e in c.evidence && e !in a.evidence
      ensures exists k :: 0 <= k < |so| && c.evidence[e].investigation == so[k].0
    {
      if e in b.evidence {
        var k :| 0 <= k < n && b.evidence[e].investigation == jobs[k].0;
        assert c.evidence[e].investigation == so[k].0;
      } else {
        assert c.evidence[e].investigation == so[n].0;
      }
    }
  }

  // Statuses only move on, and completed investigations are completed for good.
  ghost predicate Lasting(
    jobs: seq<(Id, Environment)>, outcomes: seq<Outcome>,
    first: map<Id, Stored>, rows: map<Id, Stored>, h0: Histories, h: Histories)
    requires |outcomes| <= |jobs|
  {
    Honoured(jobs, outcomes, rows, h) && AllGrown(h0, h) && CompletedKept(first, rows)
  }

  lemma LastingOn(
    jobs: seq<(Id, Environment)>, outcomes: seq<Outcome>, r: Outcome, id: Id,
    first: map<Id, Stored>, rows: map<Id, Stored>, rows': map<Id, Stored>, h0: Histories, h: Histories, h': Histories)
    requires |outcomes| < |jobs| && id == jobs[|outcomes|].0 && Lasting(jobs, outcomes, first, rows, h0, h)
    requires Tracked(h', rows') && Grown(h, h', id) && RunLeaves(rows, rows', id, r)
    ensures Lasting(jobs, outcomes + [r], first, rows', h0, h')
  {
    AllGrownOn(h0, h, h', id);
    AllGrownOn(h, h, h', id);
    CompletedStays(first, rows, rows', id, r);
    if r.Finished? {
      StatusPersisted(rows', h', id);
    }
    NextHonoured(jobs, outcomes, rows, h, rows', h', id, r);
  }

  // These runs have kept what was stored and added what was made.
  ghost predicate Added(jobs: seq<(Id, Environment)>, before: Shelf, after: Shelf) {
    && Kept(before.evidence, after.evidence) && Kept(before.findings, after.findings)
    && NewRowsFrom(jobs, before, after)
  }

  lemma AddedOn(
    jobs: seq<(Id, Environment)>, job: (Id, Environment), w: Writing, from: Id, to: Id,
    before: Shelf, mid: Shelf, after: Shelf)
    requires Added(jobs, before, mid)
    requires Wrote(w, Given(job.1), RunsOf(job.1), ClaimOf(job.1), job.0, from, to, mid, after)
    ensures Added(jobs + [job], before, after)
  {
    RunAdds(w, job, from, to, mid, after);
    NewRowsOn(jobs, job, before, mid, after);
  }

  // The next of several runs.
  method RunNext(
    jobs: seq<(Id, Environment)>, outcomes: seq<Outcome>, store: InvestigationStore, ids: IdSource,
    ghost first: map<Id, Stored>, ghost h0: Histories, ghost before: Shelf, ghost past: seq<(Id, Environment)>)
    returns (r: Outcome)
    requires |outcomes| < |jobs| && store.Valid() && Below(store.evidence, ids.next)
    requires Lasting(jobs, outcomes, first, store.investigations, h0, store.history)
    requires Added(past, before, store.Rows())
    modifies store, ids
    ensures store.Valid() && Below(store.evidence, ids.next)
    ensures Lasting(jobs, outcomes + [r], first, store.investigations, h0, store.history)
    ensures Added(past + [jobs[|outcomes|]], before, store.Rows())
  {
    ghost var rows, h, mid, from := store.investigations, store.history, store.Rows(), ids.next;
    var job := jobs[|outcomes|];
    ghost var w;
    r, w := RunInvestigation(job.0, job.1, store, ids);
    LastingOn(jobs, outcomes, r, job.0, first, rows, store.investigations, h0, h, store.history);
    AddedOn(past, job, w, from, ids.next, before, mid, store.Rows());
  }

  /** Any number of runs one after another, of the same or different investigations, whatever
      fails in them: histories stay walks and only grow, stored evidence and findings never
      change, a completed investigation never changes again and every later run of it raises,
      and every returned status was persisted. Whatever was stored in between, by aborted runs
      too, belongs to the investigations that were run, and every citation that a run added to
      a stored finding resolves to stored evidence of the same investigation. */
  method RunInvestigations(jobs: seq<(Id, Environment)>, store: InvestigationStore, ids: IdSource)
    returns (outcomes: seq<Outcome>)
    requires store.Valid() && Below(store.evidence, ids.next)
    modifies store, ids
    ensures store.Valid() && Below(store.evidence, ids.next) && |outcomes| == |jobs|
    ensures Honoured(jobs, outcomes, store.investigations, store.history)
    ensures AllGrown(old(store.history), store.history)
    ensures CompletedKept(old(store.investigations), store.investigations)
    ensures Kept(old(store.evidence), store.evidence) && Kept(old(store.findings), store.findings)
    ensures NewRowsFrom(jobs, old(store.Rows()), store.Rows())
  {
    outcomes := [];
    ghost var first, h0, before := store.investigations, store.history, store.Rows();
    ghost var past := [];
    var n := 0;
    while n < |jobs|
      invariant n == |outcomes| <= |jobs| && store.Valid() && Below(store.evidence, ids.next)
      invariant Lasting(jobs, outcomes, first, store.investigations, h0, store.history)
      invariant past == jobs[..n] && Added(past, before, store.Rows())
    {
      var r := RunNext(jobs, outcomes, store, ids, first, h0, before, past);
      outcomes, past, n := outcomes + [r], past + [jobs[n]], n + 1;
    }
    assert past == jobs;
  }
}
