/** The human approval gate, and what a decision does to the run that waits for it. */
module Approvals {
  import opened Vocabulary
  import opened TaskRows
  import opened EventLog
  import opened RunCompletion
  import opened RunManager

  datatype ApprovalStatus = Pending | Approved | Rejected

  datatype Request = Request(
    run: Option<nat>, strategy: nat, status: ApprovalStatus, createdAt: nat, decidedBy: Option<string>, reason: Option<string>)

  datatype StrategyStatus = PendingPaperApproval | PaperTrading | Deprecated | OtherStatus(name: string)

  datatype Error = NotFound | AlreadyDecided | ReasonRequired

  datatype Decision = Decided | Refused(error: Error)

  predicate IsSpace(c: char) {
    c in {' ', '\t', '\n', '\r'}
  }

  predicate IsBlank(s: string) {
    forall i | 0 <= i < |s| :: IsSpace(s[i])
  }

  predicate BlankOutside(s: string, i: nat, j: nat) {
    forall k | 0 <= k < |s| && !(i <= k < j) :: IsSpace(s[k])
  }

  /** What is left of the text between the blanks at its two ends. */
  predicate IsStripped(s: string, stripped: string) {
    exists i: nat, j: nat | i <= j <= |s| :: BlankOutside(s, i, j) && stripped == s[i..j]
  }

  lemma StripStart(s: string, stripped: string)
    requires s != "" && IsSpace(s[0]) && IsStripped(s[1..], stripped)
    ensures IsStripped(s, stripped)
  {
    var tail := s[1..];
    var i: nat, j: nat :| i <= j <= |tail| && BlankOutside(tail, i, j) && stripped == tail[i..j];
    forall k | 0 < k < |s| ensures s[k] == tail[k - 1] {}
    assert BlankOutside(s, i + 1, j + 1);
    assert s[i + 1..j + 1] == tail[i..j];
  }

  lemma StripEnd(s: string, stripped: string)
    requires s != "" && IsSpace(s[|s| - 1]) && IsStripped(s[..|s| - 1], stripped)
    ensures IsStripped(s, stripped)
  {
    var init := s[..|s| - 1];
    var i: nat, j: nat :| i <= j <= |init| && BlankOutside(init, i, j) && stripped == init[i..j];
    forall k | 0 <= k < |init| ensures s[k] == init[k] {}
    assert BlankOutside(s, i, j);
    assert s[i..j] == init[i..j];
  }

  function Strip(s: string): (stripped: string)
    ensures stripped == "" <==> IsBlank(s)
    ensures stripped != "" ==> !IsSpace(stripped[0]) && !IsSpace(stripped[|stripped| - 1])
    ensures IsStripped(s, stripped)
  {
    if s == "" then assert BlankOutside(s, 0, 0); ""
    else if IsSpace(s[0]) then
      assert IsBlank(s) <==> IsBlank(s[1..]) by { assert s == [s[0]] + s[1..]; }
      var rest := Strip(s[1..]);
      StripStart(s, rest);
      rest
    else if IsSpace(s[|s| - 1]) then
      var rest := Strip(s[..|s| - 1]);
      StripEnd(s, rest);
      rest
    else assert BlankOutside(s, 0, |s|); s
  }

  predicate HasPendingApproval(requests: seq<Request>, run: nat) {
    exists i | 0 <= i < |requests| :: requests[i].run == Some(run) && requests[i].status.Pending?
  }

  // --- which decision counts for a strategy ---

  predicate IsFor(requests: seq<Request>, i: nat, strategy: nat) {
    i < |requests| && requests[i].strategy == strategy
  }

  /** No request for the strategy was created later. */
  ghost predicate IsLatest(requests: seq<Request>, i: nat, strategy: nat) {
    IsFor(requests, i, strategy) && forall j: nat | IsFor(requests, j, strategy) :: requests[j].createdAt <= requests[i].createdAt
  }

  /** A strategy may be promoted only on the strength of its latest request: not without one, not while
      it is pending, and not after a later rejection. */
  method HasApprovedPaperRequest(requests: seq<Request>, strategy: nat) returns (approved: bool)
    ensures approved ==> exists i: nat :: IsLatest(requests, i, strategy) && requests[i].status.Approved?
    ensures !approved ==>
      (forall i: nat :: !IsFor(requests, i, strategy)) || exists i: nat :: IsLatest(requests, i, strategy) && !requests[i].status.Approved?
  {
    var latest: Option<nat> := None;
    for i := 0 to |requests|
      invariant latest.None? ==> forall j: nat | j < i :: !IsFor(requests, j, strategy)
      invariant latest.Some? ==> IsFor(requests, latest.value, strategy)
      invariant latest.Some? ==> forall j: nat | j < i && IsFor(requests, j, strategy) :: requests[j].createdAt <= requests[latest.value].createdAt
    {
      if requests[i].strategy == strategy && (latest.None? || requests[latest.value].createdAt < requests[i].createdAt) {
        latest := Some(i);
      }
    }
    approved := latest.Some? && requests[latest.value].status.Approved?;
    assert latest.Some? ==> IsLatest(requests, latest.value, strategy);
  }

  // --- decisions ---

  /** What settling does to a run: completes it if it is not terminal and nothing is pending or open. */
  predicate Settles(run: Run, pendingApproval: bool) {
    !IsTerminalRun(run.status) && !pendingApproval && AllTerminal(run.db)
  }

  function Settled(run: Run, pendingApproval: bool): Run {
    if Settles(run, pendingApproval) then run.(status := RunCompleted) else run
  }

  /** What a decision may do to run `r`, over the requests as they are afterwards: it is completed if it was not
      over, all its tasks have ended and none of its requests is pending, and else it stays as it was. */
  ghost predicate RightlySettled(requests: seq<Request>, r: nat, before: Run, after: Run) {
    && ((exists i | 0 <= i < |requests| :: requests[i].run == Some(r) && requests[i].status == Pending) ==> after == before)
    && (before.status in {RunCompleted, RunFailed, RunCannotPlan, RunCancelled} ==> after == before)
    && ((exists t | 0 <= t < |before.db.tasks| :: before.db.tasks[t].status !in {Completed, Failed, Blocked, Escalated, Cancelled}) ==> after == before)
    && ((forall i | 0 <= i < |requests| && requests[i].run == Some(r) :: requests[i].status != Pending)
        && before.status !in {RunCompleted, RunFailed, RunCannotPlan, RunCancelled}
        && (forall t | 0 <= t < |before.db.tasks| :: before.db.tasks[t].status in {Completed, Failed, Blocked, Escalated, Cancelled})
        ==> after == before.(status := RunCompleted))
  }

  lemma SettledIsRight(requests: seq<Request>, r: nat, run: Run)
    ensures RightlySettled(requests, r, run, Settled(run, HasPendingApproval(requests, r)))
  {
  }

  class Desk {
    var requests: seq<Request>
    var strategies: map<nat, StrategyStatus>
    var runs: seq<Run>
    /** The requests decided so far, in order: one audit row each. */
    var decisions: seq<nat>

    /** A request has been decided exactly when it has an audit row, and then exactly one. */
    ghost predicate Valid()
      reads this
    {
      && (forall i | 0 <= i < |decisions| :: decisions[i] < |requests| && !requests[decisions[i]].status.Pending?)
      && (forall r: nat | r < |requests| && !requests[r].status.Pending? :: r in decisions)
      && (forall i, j | 0 <= i < j < |decisions| :: decisions[i] != decisions[j])
    }

    constructor (strategies: map<nat, StrategyStatus>, runs: seq<Run>)
      ensures Valid() && requests == [] && decisions == [] && this.strategies == strategies && this.runs == runs
    {
      this.strategies, this.runs := strategies, runs;
      requests, decisions := [], [];
    }

    method Open(run: Option<nat>, strategy: nat, now: nat)
      requires Valid()
      modifies `requests
      ensures Valid() && requests == old(requests) + [Request(run, strategy, Pending, now, None, None)]
    {
      requests := requests + [Request(run, strategy, Pending, now, None, None)];
      assert forall r: nat | r < |requests| && !requests[r].status.Pending? :: r < |old(requests)|;
    }

    function LoadPending(request: nat): (error: Option<Error>)
      reads this
      ensures error.None? <==> request < |requests| && requests[request].status.Pending?
      ensures error == Some(NotFound) <==> request >= |requests|
    {
      if request >= |requests| then Some(NotFound)
      else if !requests[request].status.Pending? then Some(AlreadyDecided)
      else None
    }

    method Approve(request: nat, actor: string) returns (decision: Decision)
      requires Valid()
      modifies this
      ensures Valid()
      ensures decision.Decided? <==> old(LoadPending(request)).None?
      ensures decision.Refused? ==> decision == Refused(old(LoadPending(request)).value) && Unchanged(old(requests), old(strategies), old(runs), old(decisions))
      ensures decision.Decided? ==>
        DecidedAs(old(requests), old(strategies), old(runs), old(decisions), request, Approved, actor, None, PaperTrading)
      ensures decision.Decided? ==> forall r: nat | r < |runs| && old(requests)[request].run == Some(r) :: RightlySettled(requests, r, old(runs)[r], runs[r])
    {
      var error := LoadPending(request);
      if error.Some? {
        return Refused(error.value);
      }
      Decide(request, Approved, actor, None, PaperTrading);
      decision := Decided;
    }

    method Reject(request: nat, actor: string, reason: string) returns (decision: Decision)
      requires Valid()
      modifies this
      ensures Valid()
      ensures decision.Decided? <==> !IsBlank(reason) && old(LoadPending(request)).None?
      ensures decision.Refused? ==>
        && decision.error == (if IsBlank(reason) then ReasonRequired else old(LoadPending(request)).value)
        && Unchanged(old(requests), old(strategies), old(runs), old(decisions))
      ensures decision.Decided? ==>
        DecidedAs(old(requests), old(strategies), old(runs), old(decisions), request, Rejected, actor, Some(Strip(reason)), Deprecated)
      ensures decision.Decided? ==> forall r: nat | r < |runs| && old(requests)[request].run == Some(r) :: RightlySettled(requests, r, old(runs)[r], runs[r])
    {
      if Strip(reason) == "" {
        return Refused(ReasonRequired);
      }
      var error := LoadPending(request);
      if error.Some? {
        return Refused(error.value);
      }
      Decide(request, Rejected, actor, Some(Strip(reason)), Deprecated);
      decision := Decided;
    }

    ghost predicate Unchanged(requests0: seq<Request>, strategies0: map<nat, StrategyStatus>, runs0: seq<Run>, decisions0: seq<nat>)
      reads this
    {
      requests == requests0 && strategies == strategies0 && runs == runs0 && decisions == decisions0
    }

    /** The request is decided, its strategy moves if it was waiting for the decision, its run is settled
        if it can be, and nothing else changes. */
    ghost predicate DecidedAs(requests0: seq<Request>, strategies0: map<nat, StrategyStatus>, runs0: seq<Run>, decisions0: seq<nat>,
                              request: nat, status: ApprovalStatus, actor: string, reason: Option<string>, outcome: StrategyStatus)
      requires request < |requests0|
      reads this
    {
      var strategy := requests0[request].strategy;
      && requests == requests0[request := requests0[request].(status := status, decidedBy := Some(actor), reason := if reason.Some? then reason else requests0[request].reason)]
      && decisions == decisions0 + [request]
      && strategies == (if strategy in strategies0 && strategies0[strategy].PendingPaperApproval? then strategies0[strategy := outcome] else strategies0)
      && |runs| == |runs0|
      && (forall r: nat | r < |runs| && requests0[request].run != Some(r) :: runs[r] == runs0[r])
      && (forall r: nat | r < |runs| && requests0[request].run == Some(r) :: runs[r] == Settled(runs0[r], HasPendingApproval(requests, r)))
    }

    method Decide(request: nat, status: ApprovalStatus, actor: string, reason: Option<string>, outcome: StrategyStatus)
      requires Valid() && request < |requests| && requests[request].status.Pending? && !status.Pending?
      modifies this
      ensures Valid()
      ensures DecidedAs(old(requests), old(strategies), old(runs), old(decisions), request, status, actor, reason, outcome)
      ensures forall r: nat | r < |runs| && old(requests)[request].run == Some(r) :: RightlySettled(requests, r, old(runs)[r], runs[r])
    {
      var r := requests[request];
      if r.strategy in strategies && strategies[r.strategy].PendingPaperApproval? {
        strategies := strategies[r.strategy := outcome];
      }
      Record(request, r.(status := status, decidedBy := Some(actor), reason := if reason.Some? then reason else r.reason));
      if r.run.Some? {
        SettleRunAfterApproval(r.run.value);
      }
    }

    method Record(request: nat, decided: Request)
      requires Valid() && request < |requests| && requests[request].status.Pending? && !decided.status.Pending?
      modifies `requests, `decisions
      ensures Valid() && requests == old(requests)[request := decided] && decisions == old(decisions) + [request]
    {
      assert request !in decisions;
      requests := requests[request := decided];
      decisions := decisions + [request];
      assert decisions[|decisions| - 1] == request;
    }

    method SettleRunAfterApproval(run: nat)
      modifies `runs
      ensures |runs| == |old(runs)|
      ensures forall r: nat | r < |runs| && r != run :: runs[r] == old(runs)[r]
      ensures run < |runs| ==> runs[run] == Settled(old(runs)[run], HasPendingApproval(requests, run))
      ensures run < |runs| ==> RightlySettled(requests, run, old(runs)[run], runs[run])
    {
      if run < |runs| {
        SettledIsRight(requests, run, runs[run]);
      }
      if run >= |runs| || IsTerminalRun(runs[run].status) {
        return;
      }
      if HasPendingApproval(requests, run) {
        return;
      }
      if !AllTerminal(runs[run].db) {
        return;
      }
      runs := runs[run := runs[run].(status := RunCompleted)];
    }

    /** A decided request is never decided again: every later decision is refused and changes nothing. */
    method DecideAgain(request: nat, actor: string, reason: string) returns (approval: Decision, rejection: Decision)
      requires Valid() && request in decisions
      modifies this
      ensures Unchanged(old(requests), old(strategies), old(runs), old(decisions))
      ensures approval == Refused(AlreadyDecided)
      ensures rejection == Refused(if IsBlank(reason) then ReasonRequired else AlreadyDecided)
    {
      approval := Approve(request, actor);
      rejection := Reject(request, actor, reason);
    }
  }
}
