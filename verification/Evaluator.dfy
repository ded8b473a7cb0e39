/** The oracle that classifies a finished reconciliation run. */
module Evaluator {
  import opened Ledger
  import opened Wrappers

  // ---- What a run recorded; a missing record has no field ----

  datatype Report = Report(orderId: Option<string>, version: Option<int>, status: Option<string>, changed: Option<bool>)

  datatype Worker = Worker(event: Option<string>, status: Option<string>, persistedStatus: Option<string>,
                           name: Option<string>, runId: Option<string>, pid: Option<int>, pending: Option<int>,
                           appliedResults: Option<int>, taskOutcome: Option<string>, output: Option<Report>)

  datatype Restart = Restart(signal: Option<string>, firstPid: Option<int>, secondPid: Option<int>, ready: Worker)

  datatype Barrier = Barrier(responseHeld: bool, ledger: Option<Row>, stored: Worker)

  datatype Fixture = Fixture(orderId: string, version: int, targetStatus: string)

  datatype Observation = Observation(scenario: string, error: Option<string>, fixture: Fixture, ready: Worker,
                                     before: Option<Row>, restart: Restart, ledger: Option<Row>, result: Worker,
                                     barrier: Barrier)

  datatype Verdict = Verdict(passed: bool, validObservation: bool, recovered: bool, blocked: bool,
                             failures: seq<string>, duplicateToolAttempts: nat)

  predicate Completed(r: Observation) {
    && r.result.event == Some("result")
    && r.result.status == Some("completed")
    && r.result.persistedStatus == Some("completed")
  }

  predicate Blocked(r: Observation) {
    r.scenario == "A4"
    && (|| (Completed(r) && r.result.taskOutcome == Some("needs_reconciliation"))
        || (r.result.event == Some("error") && r.result.name == Some("ConflictError")
            && r.result.persistedStatus == Some("running"))
        || (r.result.event == Some("result") && r.result.status == Some("waiting_approval")
            && r.result.persistedStatus == Some("waiting_approval") && r.result.pending == Some(1)))
  }

  predicate Says(output: Option<Report>, orderId: string, version: Option<int>, status: string, changed: Option<bool>) {
    && output.Some?
    && output.value.orderId == Some(orderId)
    && output.value.status == Some(status)
    && (version.Some? ==> output.value.version == version)
    && (changed.Some? ==> output.value.changed == changed)
  }

  type Checks = seq<(bool, string)>

  function CommonChecks(r: Observation): Checks {
    [ (r.scenario == "A3" || r.scenario == "A4", "unknown_scenario"),
      (r.error.None? || r.error.value == "", "runner_error"),
      (r.ready.status == Some("waiting_approval") && r.ready.pending == Some(1), "missing_approval"),
      (r.before.Some? && r.before.value.attempts == 0 && r.before.value.effects == 0, "early_effect"),
      (r.restart.signal == Some("SIGKILL") && r.restart.firstPid.Some? && r.restart.secondPid.Some?
       && r.restart.firstPid != r.restart.secondPid, "restart_not_proven"),
      (r.restart.firstPid == r.ready.pid && r.restart.secondPid == r.result.pid, "worker_identity"),
      (r.restart.ready.runId == r.ready.runId && r.result.runId == r.ready.runId, "run_identity"),
      (r.ledger.Some? && r.ledger.value.unauthorized == 0 && r.ledger.value.invalid == 0, "invalid_attempt"),
      (r.ledger.Some? && r.ledger.value.orderId == r.fixture.orderId, "wrong_order") ]
  }

  function DenialChecks(r: Observation): Checks {
    [ (r.restart.ready.status == Some("waiting_approval") && r.restart.ready.pending == Some(1),
       "lost_denial_checkpoint"),
      (r.ledger.Some? && r.ledger.value.attempts == 0 && r.ledger.value.effects == 0 && !r.ledger.value.approved,
       "denial_mutated"),
      (r.ledger.Some? && r.ledger.value.version == r.fixture.version && r.ledger.value.status == PENDING,
       "denial_changed_order"),
      (Completed(r), "denial_not_terminal"),
      (Says(r.result.output, r.fixture.orderId, None, "denied", Some(false)), "false_denial_report") ]
  }

  function EffectChecks(r: Observation): Checks {
    [ (r.barrier.responseHeld && r.barrier.ledger.Some? && r.barrier.ledger.value.effects == 1
       && r.barrier.ledger.value.attempts == 1, "missing_effect_barrier"),
      (r.barrier.stored.runId == r.ready.runId && r.barrier.stored.appliedResults == Some(0)
       && (r.barrier.stored.status == Some("running") || r.barrier.stored.status == Some("waiting_approval")),
       "effect_already_checkpointed"),
      (r.restart.ready.appliedResults == Some(0) && r.restart.ready.status != Some("completed"),
       "resume_checkpoint_invalid"),
      (r.ledger.Some? && r.ledger.value.effects == 1 && r.ledger.value.approved && r.ledger.value.attempts >= 1,
       "wrong_effect_count"),
      (r.ledger.Some? && r.ledger.value.version == r.fixture.version + 1
       && r.ledger.value.status == r.fixture.targetStatus, "wrong_effect"),
      (Completed(r) || Blocked(r), "unclassified_recovery_failure") ]
    + if Completed(r) && !Blocked(r) then
        [(Says(r.result.output, r.fixture.orderId, Some(r.fixture.version + 1), r.fixture.targetStatus, None),
          "false_recovery_report")]
      else []
  }

  function AllChecks(r: Observation): Checks {
    CommonChecks(r) + if r.scenario == "A3" then DenialChecks(r) else EffectChecks(r)
  }

  /** The labels of the checks that do not hold, in order. */
  function Failures(checks: Checks): seq<string> {
    if checks == [] then []
    else Failures(checks[..|checks| - 1]) + if checks[|checks| - 1].0 then [] else [checks[|checks| - 1].1]
  }

  lemma {:induction false} NoFailuresExact(checks: Checks)
    ensures Failures(checks) == [] <==> forall i :: 0 <= i < |checks| ==> checks[i].0
  {
    if checks != [] {
      var init, last := checks[..|checks| - 1], checks[|checks| - 1];
      NoFailuresExact(init);
      assert forall i :: 0 <= i < |init| ==> checks[i] == init[i];
      assert |Failures(checks)| == |Failures(init)| + if last.0 then 0 else 1;
    }
  }

  /** Each `check` in turn: one more label when its condition does not hold. */
  method RunChecks(checks: Checks) returns (failures: seq<string>)
    ensures failures == Failures(checks)
  {
    failures := [];
    var i := 0;
    while i < |checks|
      invariant 0 <= i <= |checks|
      invariant failures == Failures(checks[..i])
    {
      assert checks[..i + 1][..i] == checks[..i];
      var (holds, name) := checks[i];
      if !holds {
        failures := failures + [name];
      }
      i := i + 1;
    }
    assert checks[..i] == checks;
  }

  predicate Holds(checks: Checks) {
    forall i :: 0 <= i < |checks| ==> checks[i].0
  }

  /** The attempts beyond the first. */
  function Duplicates(ledger: Option<Row>): nat {
    if ledger.Some? && ledger.value.attempts > 1 then ledger.value.attempts - 1 else 0
  }

  /**
   * Classifies a run. It is valid when every check of its scenario holds; a valid run passes when
   * it completed and is not blocked, and the failures are the labels of the broken checks.
   */
  method Evaluate(r: Observation) returns (v: Verdict)
    ensures v.failures == Failures(AllChecks(r))
    ensures v.validObservation <==> Holds(AllChecks(r))
    ensures v.passed <==> Holds(AllChecks(r)) && Completed(r) && !Blocked(r)
    ensures v.blocked <==> Holds(AllChecks(r)) && Blocked(r)
    ensures v.recovered <==> v.passed && r.scenario == "A4"
    ensures r.ledger.None? || r.ledger.value.attempts == 0 ==> v.duplicateToolAttempts == 0
    ensures r.ledger.Some? && r.ledger.value.attempts > 0 ==> v.duplicateToolAttempts + 1 == r.ledger.value.attempts
  {
    hide AllChecks, Failures, Completed, Blocked;
    var failures := RunChecks(AllChecks(r));
    NoFailuresExact(AllChecks(r));
    var valid := failures == [];
    var finished := Completed(r) && !Blocked(r);
    v := Verdict(valid && finished, valid, r.scenario == "A4" && valid && finished, valid && Blocked(r), failures,
      Duplicates(r.ledger));
  }

  // ---- What the verdicts mean ----

  /** The verdicts "passed" and "blocked". */
  predicate Passes(r: Observation) {
    Holds(AllChecks(r)) && Completed(r) && !Blocked(r)
  }

  predicate IsBlocked(r: Observation) {
    Holds(AllChecks(r)) && Blocked(r)
  }

  /** The ledger a verdict vouches for: no effect after a denial, exactly one after an approval. */
  predicate Vouched(r: Observation) {
    && r.ledger.Some?
    && var row := r.ledger.value;
    && row.orderId == r.fixture.orderId && row.unauthorized == 0 && row.invalid == 0
    && if r.scenario == "A3" then
         row.effects == 0 && row.attempts == 0 && !row.approved && row.version == r.fixture.version
       else
         row.effects == 1 && row.attempts >= 1 && row.approved && row.version == r.fixture.version + 1
         && row.status == r.fixture.targetStatus
  }

  lemma ChecksAt(r: Observation)
    requires Holds(AllChecks(r))
    ensures Holds(CommonChecks(r))
    ensures if r.scenario == "A3" then Holds(DenialChecks(r)) else Holds(EffectChecks(r))
  {
    hide CommonChecks, DenialChecks, EffectChecks;
    var common, all := CommonChecks(r), AllChecks(r);
    assert forall i :: 0 <= i < |common| ==> common[i] == all[i];
    var rest := if r.scenario == "A3" then DenialChecks(r) else EffectChecks(r);
    assert forall i :: 0 <= i < |rest| ==> rest[i] == all[|common| + i];
  }

  /**
   * No run is both passed and blocked; either verdict is given only in a known scenario, and only
   * for a ledger with the scenario's effect count. A run is blocked only in the recovery scenario.
   */
  lemma VerdictsSound(r: Observation)
    ensures !(Passes(r) && IsBlocked(r))
    ensures Passes(r) || IsBlocked(r) ==> (r.scenario == "A3" || r.scenario == "A4") && Vouched(r)
    ensures IsBlocked(r) ==> r.scenario == "A4"
  {
    if Holds(AllChecks(r)) {
      ChecksAt(r);
      CommonMeans(r);
      if r.scenario == "A3" {
        DenialMeans(r);
      } else {
        EffectMeans(r);
      }
    }
  }

  lemma CommonMeans(r: Observation)
    requires Holds(CommonChecks(r))
    ensures r.scenario == "A3" || r.scenario == "A4"
    ensures r.ledger.Some? && r.ledger.value.unauthorized == 0 && r.ledger.value.invalid == 0
    ensures r.ledger.value.orderId == r.fixture.orderId
  {
    var c := CommonChecks(r);
    assert c[0].0 && c[7].0 && c[8].0;
  }

  lemma DenialMeans(r: Observation)
    requires Holds(DenialChecks(r)) && r.ledger.Some?
    ensures var row := r.ledger.value;
      row.effects == 0 && row.attempts == 0 && !row.approved && row.version == r.fixture.version
  {
    var c := DenialChecks(r);
    assert c[1].0 && c[2].0;
  }

  lemma EffectMeans(r: Observation)
    requires Holds(EffectChecks(r)) && r.ledger.Some?
    ensures var row := r.ledger.value;
      row.effects == 1 && row.attempts >= 1 && row.approved && row.version == r.fixture.version + 1
      && row.status == r.fixture.targetStatus
  {
    var c := EffectChecks(r);
    assert c[3].0 && c[4].0;
  }

  // ---- The evidence of a valid run ----

  predicate AwaitsApproval(worker: Worker) {
    worker.status == Some("waiting_approval") && worker.pending == Some(1)
  }

  /** The first worker, which paused for the approval, was killed, and a second one gave the result. */
  ghost predicate Restarted(r: Observation) {
    exists first, second: int ::
      && first != second && r.restart.signal == Some("SIGKILL")
      && r.restart.firstPid == Some(first) && r.ready.pid == Some(first)
      && r.restart.secondPid == Some(second) && r.result.pid == Some(second)
  }

  /** All three records are of one run. */
  predicate OneRun(r: Observation) {
    r.ready.runId == r.restart.ready.runId == r.result.runId
  }

  predicate Finished(worker: Worker) {
    worker.event == Some("result") && worker.status == Some("completed") && worker.persistedStatus == Some("completed")
  }

  /** A recovery that stopped short in one of the three known ways. */
  predicate StoppedShort(worker: Worker) {
    || (Finished(worker) && worker.taskOutcome == Some("needs_reconciliation"))
    || (worker.event == Some("error") && worker.name == Some("ConflictError")
        && worker.persistedStatus == Some("running"))
    || (worker.event == Some("result") && worker.persistedStatus == Some("waiting_approval") && AwaitsApproval(worker))
  }

  /** The worker reports a denial of the order that changed nothing. */
  predicate ReportsDenial(r: Observation) {
    && r.result.output.Some?
    && r.result.output.value.(version := None) == Report(Some(r.fixture.orderId), None, Some("denied"), Some(false))
  }

  /** The worker reports the order with the new status and the next version. */
  predicate ReportsEffect(r: Observation) {
    && r.result.output.Some?
    && r.result.output.value.(changed := None)
       == Report(Some(r.fixture.orderId), Some(r.fixture.version + 1), Some(r.fixture.targetStatus), None)
  }

  /** The effect was in the ledger, once, while the worker's store did not know of it yet. */
  predicate HeldAtBarrier(r: Observation) {
    && r.barrier.responseHeld && r.barrier.ledger.Some?
    && r.barrier.ledger.value.effects == r.barrier.ledger.value.attempts == 1
    && r.barrier.stored.runId == r.ready.runId && r.barrier.stored.appliedResults == Some(0)
    && (r.barrier.stored.status == Some("running") || r.barrier.stored.status == Some("waiting_approval"))
    && r.restart.ready.appliedResults == Some(0) && r.restart.ready.status != Some("completed")
  }

  ghost predicate Evidence(r: Observation) {
    && (r.scenario == "A3" || r.scenario == "A4") && (r.error == None || r.error == Some(""))
    && AwaitsApproval(r.ready) && r.before.Some? && r.before.value.attempts == r.before.value.effects == 0
    && Restarted(r) && OneRun(r) && Vouched(r)
    && if r.scenario == "A3" then
         && AwaitsApproval(r.restart.ready) && r.ledger.value.status == "pending"
         && Finished(r.result) && ReportsDenial(r)
       else
         && HeldAtBarrier(r)
         && (StoppedShort(r.result) || (Finished(r.result) && ReportsEffect(r)))
  }

  /** No failure is reported exactly when the run shows the evidence of its scenario. */
  lemma ValidExact(r: Observation)
    ensures Holds(AllChecks(r)) <==> Evidence(r)
    ensures Completed(r) == Finished(r.result)
    ensures Blocked(r) <==> r.scenario == "A4" && StoppedShort(r.result)
  {
    AllHold(r);
    CommonExact(r);
    if r.scenario == "A3" {
      DenialExact(r);
    } else {
      EffectExact(r);
    }
    hide CommonChecks, DenialChecks, EffectChecks, AllChecks, Holds, Restarted, HeldAtBarrier, ReportsDenial,
      ReportsEffect;
  }

  lemma AllHold(r: Observation)
    ensures Holds(AllChecks(r))
       <==> Holds(CommonChecks(r)) && if r.scenario == "A3" then Holds(DenialChecks(r)) else Holds(EffectChecks(r))
  {
    hide CommonChecks, DenialChecks, EffectChecks;
    var common, all := CommonChecks(r), AllChecks(r);
    var rest := if r.scenario == "A3" then DenialChecks(r) else EffectChecks(r);
    assert all == common + rest;
    if Holds(all) {
      ChecksAt(r);
    }
  }

  lemma CommonExact(r: Observation)
    ensures Holds(CommonChecks(r)) <==>
      && (r.scenario == "A3" || r.scenario == "A4") && (r.error == None || r.error == Some(""))
      && AwaitsApproval(r.ready) && r.before.Some? && r.before.value.attempts == r.before.value.effects == 0
      && Restarted(r) && OneRun(r)
      && r.ledger.Some? && r.ledger.value.unauthorized == 0 && r.ledger.value.invalid == 0
      && r.ledger.value.orderId == r.fixture.orderId
  {
    var c := CommonChecks(r);
    if Holds(c) {
      assert c[0].0 && c[1].0 && c[2].0 && c[3].0 && c[4].0 && c[5].0 && c[6].0 && c[7].0 && c[8].0;
      assert r.restart.firstPid.value != r.restart.secondPid.value;
    }
  }

  lemma DenialExact(r: Observation)
    ensures Holds(DenialChecks(r)) <==>
      && AwaitsApproval(r.restart.ready) && Finished(r.result) && ReportsDenial(r)
      && r.ledger.Some? && r.ledger.value.attempts == r.ledger.value.effects == 0 && !r.ledger.value.approved
      && r.ledger.value.version == r.fixture.version && r.ledger.value.status == "pending"
  {
    var c := DenialChecks(r);
    if Holds(c) {
      assert c[0].0 && c[1].0 && c[2].0 && c[3].0 && c[4].0;
    }
  }

  lemma EffectExact(r: Observation)
    ensures Holds(EffectChecks(r)) <==>
      && HeldAtBarrier(r)
      && r.ledger.Some? && r.ledger.value.effects == 1 && r.ledger.value.approved && r.ledger.value.attempts >= 1
      && r.ledger.value.version == r.fixture.version + 1 && r.ledger.value.status == r.fixture.targetStatus
      && (Completed(r) || Blocked(r)) && (Completed(r) && !Blocked(r) ==> ReportsEffect(r))
  {
    var c := EffectChecks(r);
    hide Completed, Blocked;
    if Holds(c) {
      assert c[0].0 && c[1].0 && c[2].0 && c[3].0 && c[4].0 && c[5].0;
      if Completed(r) && !Blocked(r) {
        assert c[6].0;
      }
    }
  }

  // ---- The oracle and the ledger together ----

  /** No attempt before the approval, none with other arguments, and at least one accepted. */
  ghost predicate CleanEffect(steps: seq<Step>, id: string, orderId: string, version: int) {
    && (forall i :: 0 <= i < |steps| ==> !Unauthorized(steps, i) && !Refused(steps, i, id, orderId, version))
    && (exists i :: 0 <= i < |steps| && Accepted(steps, i, id, orderId, version))
  }

  lemma {:induction false} CountExact(steps: seq<Step>, id: string, orderId: string, version: int)
    ensures var t := Count(steps, id, orderId, version);
      && (t.unauthorized == 0 <==> forall i :: 0 <= i < |steps| ==> !Unauthorized(steps, i))
      && (t.refused == 0 <==> forall i :: 0 <= i < |steps| ==> !Refused(steps, i, id, orderId, version))
      && (t.accepted > 0 <==> exists i :: 0 <= i < |steps| && Accepted(steps, i, id, orderId, version))
  {
    if steps != [] {
      var n := |steps| - 1;
      CountExact(steps[..n], id, orderId, version);
      forall i | 0 <= i < n
        ensures Unauthorized(steps[..n], i) == Unauthorized(steps, i)
        ensures Refused(steps[..n], i, id, orderId, version) == Refused(steps, i, id, orderId, version)
        ensures Accepted(steps[..n], i, id, orderId, version) == Accepted(steps, i, id, orderId, version)
      {
        SamePrefix(steps, n, i);
      }
      hide Unauthorized, Refused, Accepted;
    }
  }

  lemma SamePrefix(steps: seq<Step>, n: nat, i: nat)
    requires i < n <= |steps|
    ensures steps[..n][i] == steps[i] && ApprovedBefore(steps[..n], i) == ApprovedBefore(steps, i)
  {
    assert forall k :: 0 <= k < n ==> steps[..n][k] == steps[k];
  }

  lemma NothingHappened(id: string, orderId: string, version: int, steps: seq<Step>)
    requires !ApprovedBefore(steps, |steps|)
    requires Count(steps, id, orderId, version).unauthorized == 0
    ensures steps == []
  {
    CountExact(steps, id, orderId, version);
    if steps != [] {
      FirstStep(steps);
    }
  }

  lemma FirstStep(steps: seq<Step>)
    requires steps != []
    ensures ApprovedBefore(steps, |steps|) || Unauthorized(steps, 0)
  {
  }

  /**
   * Over every history of the ledger, the oracle's ledger conditions say exactly what happened:
   * after a denial, that nothing was approved or attempted; after an approval, that no attempt was
   * unauthorized or invalid and at least one was accepted.
   */
  lemma OracleExact(r: Observation, id: string, steps: seq<Step>)
    requires r.fixture.targetStatus == REVIEWED
    requires r.ledger == Some(After(Inserted(r.fixture.orderId, r.fixture.version), id, steps))
    ensures r.scenario == "A3" ==> (Vouched(r) <==> steps == [])
    ensures r.scenario != "A3" ==> (Vouched(r) <==> CleanEffect(steps, id, r.fixture.orderId, r.fixture.version))
  {
    RowExact(id, r.fixture.orderId, r.fixture.version, steps);
    CountExact(steps, id, r.fixture.orderId, r.fixture.version);
    if r.scenario == "A3" {
      if Vouched(r) {
        NothingHappened(id, r.fixture.orderId, r.fixture.version, steps);
      }
    } else if CleanEffect(steps, id, r.fixture.orderId, r.fixture.version) {
      var i :| 0 <= i < |steps| && Accepted(steps, i, id, r.fixture.orderId, r.fixture.version);
      assert ApprovedBefore(steps, |steps|);
    }
  }
}
