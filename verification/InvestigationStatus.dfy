/** The status machine of safenestt/investigations/records.py. */
module InvestigationStatus {
  import opened Basics

  datatype Status =
    | Queued | Running | WaitingForTool | Verifying | CalculatingRisk | Completed | Failed | Cancelled | Analyzing

  // to is listed for from in TRANSITIONS.
  predicate Listed(from: Status, to: Status) {
    match from
    case Queued => to == Running || to == Cancelled || to == Failed
    case Running => to == Analyzing || to == WaitingForTool || to == Verifying || to == Failed || to == Cancelled
    case Analyzing => to == WaitingForTool || to == Failed || to == Cancelled
    case WaitingForTool => to == Running || to == Verifying || to == Failed || to == Cancelled
    case Verifying => to == CalculatingRisk || to == Failed || to == Cancelled
    case CalculatingRisk => to == Completed || to == Failed || to == Cancelled
    case Completed => false
    case Failed => to == Queued
    case Cancelled => to == Queued
  }

  /** The table read by its targets: what leads to each status. */
  lemma LeadsTo(from: Status, to: Status)
    ensures Listed(from, to) <==> from in match to
      case Queued => {Failed, Cancelled}
      case Running => {Queued, WaitingForTool}
      case Analyzing => {Running}
      case WaitingForTool => {Running, Analyzing}
      case Verifying => {Running, WaitingForTool}
      case CalculatingRisk => {Verifying}
      case Completed => {CalculatingRisk}
      case Failed => {Queued, Running, Analyzing, WaitingForTool, Verifying, CalculatingRisk}
      case Cancelled => {Queued, Running, Analyzing, WaitingForTool, Verifying, CalculatingRisk}
  {
  }

  predicate MayMark(from: Status, to: Status) {
    Listed(from, to) || to == from
  }

  class InvestigationRecord {
    var status: Status
    var error: Option<string>

    constructor (status: Status, error: Option<string>)
      ensures this.status == status && this.error == error
    {
      this.status, this.error := status, error;
    }

    // False when the transition raises InvalidStatusError.
    method Mark(to: Status) returns (ok: bool)
      modifies this`status
      ensures ok == MayMark(old(status), to)
      ensures status == if ok then to else old(status)
    {
      if !Listed(status, to) && to != status {
        return false;
      }
      status := to;
      return true;
    }
  }

  // A history of one investigation: it starts queued and follows the table, self-loops allowed.
  ghost predicate Walk(h: seq<Status>) {
    h != [] &&
    if |h| == 1 then h[0] == Queued
    else Walk(h[..|h| - 1]) && MayMark(h[|h| - 2], h[|h| - 1])
  }

  lemma WalkExtends(h: seq<Status>, to: Status)
    requires Walk(h) && MayMark(h[|h| - 1], to)
    ensures Walk(h + [to])
  {
    assert (h + [to])[..|h|] == h;
  }

  lemma {:induction false} WalkPrefix(h: seq<Status>, n: nat)
    requires Walk(h) && 0 < n <= |h|
    ensures Walk(h[..n])
    decreases |h|
  {
    if n == |h| {
      assert h[..n] == h;
    } else {
      WalkPrefix(h[..|h| - 1], n);
      assert h[..|h| - 1][..n] == h[..n];
    }
  }

  lemma WalkStep(h: seq<Status>, i: nat)
    requires Walk(h) && i < |h|
    ensures if i == 0 then h[0] == Queued else MayMark(h[i - 1], h[i])
  {
    WalkPrefix(h, i + 1);
  }

  lemma {:induction false} CompletedIsAbsorbing(h: seq<Status>, i: nat, j: nat)
    requires Walk(h) && i <= j < |h| && h[i] == Completed
    ensures h[j] == Completed
    decreases j
  {
    if i < j {
      CompletedIsAbsorbing(h, i, j - 1);
      WalkStep(h, j);
    }
  }

  /** Completion is always earned since the investigation was last queued: it was verified
      at v, then had its risk calculated at r, and nothing else happened in between. */
  lemma {:induction false} CompletionIsEarned(h: seq<Status>, i: nat) returns (v: nat, r: nat)
    requires Walk(h) && i < |h| && h[i] == Completed
    ensures v < r < i && h[v] == Verifying && h[r] == CalculatingRisk
    ensures forall k :: v <= k <= i ==> h[k] in {Verifying, CalculatingRisk, Completed}
    decreases i
  {
    WalkStep(h, i);
    if h[i - 1] == Completed {
      v, r := CompletionIsEarned(h, i - 1);
    } else {
      r := i - 1;
      v := RiskFollowsVerifying(h, r);
    }
  }

  lemma {:induction false} RiskFollowsVerifying(h: seq<Status>, r: nat) returns (v: nat)
    requires Walk(h) && r < |h| && h[r] == CalculatingRisk
    ensures v < r && h[v] == Verifying
    ensures forall k :: v <= k <= r ==> h[k] in {Verifying, CalculatingRisk}
    decreases r
  {
    WalkStep(h, r);
    if h[r - 1] == CalculatingRisk {
      v := RiskFollowsVerifying(h, r - 1);
    } else {
      v := r - 1;
    }
  }
}
