/** When a finished job stops being finished: exactly which runs leave a complete job failed. */
module SlackCompletion {
  import opened Text
  import opened SlackWorker

  // ---------------------------------------------------------------------------
  // When a complete job becomes failed
  // ---------------------------------------------------------------------------

  /** Does the save made at this await replace the file? */
  predicate Writes(s: Service, tick: nat) {
    if tick >= s.lifetime then s.tornAt(tick) else s.save(tick).renamed || s.save(tick).failure.None?
  }

  /** The await at which a complete job's report is refused with a sign-out error, starting at a turn of the loop. */
  function Refusal(s: Service, tick: nat): Option<nat>
    decreases s.lifetime - tick
  {
    if tick + 1 >= s.lifetime || !s.now(tick) then None
    else
      match s.report(tick + 1)
      case Returned(_) => None
      case Rejected(e) => if SignedOut(e) then Some(tick + 1) else Refusal(s, tick + 2)
  }

  /** A sign-out refusal comes, and the save of the failed job replaces the file. */
  predicate FailsFrom(s: Service, tick: nat) { Refusal(s, tick).Some? && Writes(s, Refusal(s, tick).value + 1) }

  lemma FailWrites(s: Service, m: Machine, e: Error)
    ensures AfterFail(s, m, e).0.disk ==
            if Writes(s, m.tick + 1) then m.job.(status := Failed, error := Some(FailureCode(e))) else m.disk
  {
    hide FailureCode;
  }

  /** One turn on a complete job that the portal does not know to be complete. */
  lemma CompleteTurn(s: Service, m: Machine)
    requires !Dead(s, m) && m.job.status == Complete && m.reported != Some(Complete)
    ensures var turn := AfterAttempt(s, m);
      if m.tick + 1 >= s.lifetime then turn.1 == Gone && turn.0.disk == m.disk
      else match s.report(m.tick + 1)
        case Returned(_) => (turn.1 == Stop || turn.1 == Gone) && (turn.0.disk == m.disk || turn.0.disk.status == Complete)
        case Rejected(e) =>
          if SignedOut(e) then turn == (Awaited(m), Raise(e), false)
          else turn.0 == Awaited(Awaited(m)) && (turn.1 == Poll || turn.1 == Gone) && (turn.1 == Poll <==> m.tick + 2 < s.lifetime)
    ensures m.trace <= AfterAttempt(s, m).0.trace
  {
  }

  lemma {:induction false} CompleteLoopFailsIff(s: Service, m: Machine)
    requires m.job.status == Complete && m.disk.status == Complete && m.reported != Some(Complete)
    ensures var status := AfterLoop(s, m).0.disk.status;
            status == (if FailsFrom(s, m.tick) then Failed else Complete)
    decreases s.lifetime - m.tick
  {
    hide AfterAttempt, AfterFail, AfterSave, Writes, FailureCode;
    if !Dead(s, m) {
      if s.now(m.tick) {
        LoopTurns(s, m);
        CompleteTurn(s, m);
        var turn := AfterAttempt(s, m);
        if turn.1 == Poll { CompleteLoopFailsIff(s, turn.0); }
        if turn.1.Raise? { FailWrites(s, turn.0, turn.1.error); }
        if m.tick + 2 >= s.lifetime { assert Refusal(s, m.tick + 2).None?; }
      } else {
        LoopEnds(s, m);
      }
    }
  }

  /** A job known to be complete is left alone. */
  lemma ToldLoopStops(s: Service, m: Machine)
    requires m.job.status == Complete && m.reported == Some(Complete)
    ensures AfterLoop(s, m).0 == m
  {
    hide AfterFail;
    if !Dead(s, m) && s.now(m.tick) {
      LoopTurns(s, m);
      assert AfterAttempt(s, m) == (m, Stop, false);
    }
  }

  /**
   * A run that finds a complete job leaves it failed exactly when the portal was not told
   * of its completion, a report is refused with a sign-out error before one is accepted and
   * before the deadline and the process's death, and the save that follows replaces the
   * file; in every other case the job stays complete.
   */
  lemma FinishedJobFailsIff(s: Service, m: Machine)
    requires m.disk.status == Complete
    ensures AfterRun(s, m).0.disk.status ==
            if s.lifetime > 0 && m.disk.reported != Some(Complete) && FailsFrom(s, 0) then Failed else Complete
  {
    hide AfterLoop, AfterRun, FailsFrom;
    RunBegins(s, m);
    var started := Recorded(m.(tick := 0), Started).(job := m.disk, reported := m.disk.reported);
    if s.lifetime > 0 {
      if m.disk.reported == Some(Complete) { ToldLoopStops(s, started); } else { CompleteLoopFailsIff(s, started); }
    }
  }

  // ---------------------------------------------------------------------------
  // When a run completes a job and fails it again
  // ---------------------------------------------------------------------------

  /** A save of a complete job. */
  predicate Completion(e: Event) { e.Saved? && e.job.status == Complete }

  /** The job is not complete, and none was saved complete since. */
  predicate Unfinished(t: seq<Event>, m: Machine) {
    && m.job.status != Complete && t <= m.trace
    && forall k | |t| <= k < |m.trace| :: !Completion(m.trace[k])
  }

  lemma UnfinishedLonger(t: seq<Event>, m: Machine, m': Machine)
    requires Unfinished(t, m) && Unfinished(m.trace, m')
    ensures Unfinished(t, m')
  {
    hide Completion;
    forall k | |t| <= k < |m'.trace| ensures !Completion(m'.trace[k]) {
      if k < |m.trace| { assert m'.trace[k] == m.trace[k]; }
    }
  }

  lemma SaveUnfinished(s: Service, m: Machine)
    requires m.job.status != Complete
    ensures Unfinished(m.trace, AfterSave(s, m).0) && AfterSave(s, m).0.job == m.job
    ensures AfterSave(s, m).1 == Ok ==> AfterSave(s, m).0.disk == m.job
  {
  }

  lemma ReportUnfinished(s: Service, m: Machine)
    requires m.job.status != Complete
    ensures var r := AfterReport(s, m);
            Unfinished(m.trace, r.0) && r.0.job.status == m.job.status && (r.0.disk == m.disk || r.0.disk.status == m.job.status)
  {
    hide AfterSave;
    var told := Awaited(m).(reported := Some(m.job.status), job := m.job.(reported := Some(m.job.status)));
    SaveUnfinished(s, told);
    SaveDisk(s, told);
  }

  lemma SaveDisk(s: Service, m: Machine)
    ensures AfterSave(s, m).0.disk == if Writes(s, m.tick + 1) then m.job else m.disk
  {
  }

  lemma AcceptUnfinished(s: Service, m: Machine, token: string, id: string)
    requires m.job.status != Complete
    ensures Unfinished(m.trace, AfterAccept(s, m, token, id).0)
  {
    hide AfterSave;
    var got := Recorded(m, Delivered(token, id));
    var ready := got.(job := got.job.(token := Some(token), deliveryId := Some(id), status := Installing));
    SaveUnfinished(s, ready);
    assert Unfinished(m.trace, ready);
    UnfinishedLonger(m.trace, ready, AfterSave(s, ready).0);
  }

  lemma DeliverUnfinished(s: Service, m: Machine)
    requires m.job.status != Complete
    ensures Unfinished(m.trace, AfterDeliver(s, m).0)
  {
    hide AfterAccept, StartsWith;
    var n := Awaited(m);
    var answer := s.receive(n.tick);
    if answer.Returned? && answer.value.botToken.Some? && answer.value.deliveryId.Some? {
      AcceptUnfinished(s, n, answer.value.botToken.value, answer.value.deliveryId.value);
    }
  }

  lemma AcknowledgeUnfinished(s: Service, m: Machine)
    requires m.job.status != Complete
    ensures Unfinished(m.trace, AfterAcknowledge(s, m).0)
  {
    hide AfterSave;
    if Given(m.job.deliveryId) && !m.job.acknowledged {
      var n := Awaited(Recorded(m, AckCall(m.job.deliveryId.value)));
      assert Unfinished(m.trace, n);
      var ready := n.(job := n.job.(acknowledged := true));
      SaveUnfinished(s, ready);
      assert Unfinished(m.trace, ready);
      UnfinishedLonger(m.trace, ready, AfterSave(s, ready).0);
    }
  }

  lemma PrepareUnfinished(s: Service, m: Machine)
    requires m.job.status != Complete
    ensures var r := AfterPrepare(s, m); Unfinished(m.trace, r.0) && (r.1 == Ok ==> r.0.disk.status == Installing)
  {
    hide AfterSave, AfterReport;
    var ready := m.(job := m.job.(status := Installing));
    SaveUnfinished(s, ready);
    var saved := AfterSave(s, ready);
    if saved.1 == Ok {
      ReportUnfinished(s, saved.0);
      UnfinishedLonger(m.trace, saved.0, AfterReport(s, saved.0).0);
    }
  }

  lemma ClearUnfinished(s: Service, m: Machine)
    requires m.job.status != Complete
    ensures var r := AfterClear(s, m).0; Unfinished(m.trace, r) && r.disk == m.disk
  {
  }

  /** The worker just before it saves a complete job, if this turn's installation is answered. */
  function Installed(s: Service, m: Machine): Option<Machine> {
    var told := AfterReport(s, m);
    if told.1 != Ok || told.0.job.status == Complete then None
    else
      var delivered := AfterDeliver(s, told.0);
      if delivered.1 != Proceed then None
      else
        var acked := AfterAcknowledge(s, delivered.0);
        if acked.1 != Proceed then None
        else
          var ready := AfterPrepare(s, acked.0);
          if ready.1 != Ok then None else InstalledUnderLock(s, ready.0)
  }

  function InstalledUnderLock(s: Service, m: Machine): Option<Machine> {
    var n := Awaited(m);
    if Dead(s, n) || s.lock(n.tick).Rejected? then None
    else
      var cleared := AfterClear(s, Recorded(n, LockTaken));
      var i := Awaited(Recorded(cleared.0, InstallCall));
      if cleared.1 != Proceed || Dead(s, i) || s.install(i.tick).Rejected? then None else Some(i.(job := i.job.(status := Complete)))
  }

  /** How the turn goes on from there. */
  function AfterCompletion(s: Service, i: Machine): (Machine, Turn, bool) {
    var saved := AfterSave(s, i);
    var left := Recorded(saved.0, LockLeft);
    if saved.1 == Killed then (saved.0, Gone, true)
    else if saved.1.Threw? then (left, AsTurn(saved.1), true)
    else var told := AfterReport(s, left); (told.0, AsTurn(told.1), true)
  }

  lemma LockCompletes(s: Service, m: Machine)
    requires m.job.status != Complete && m.disk.status == Installing
    ensures var i, locked := InstalledUnderLock(s, m), AfterLock(s, m);
      match i
      case Some(n) =>
        && n.job.status == Complete && n.disk.status == Installing && n.tick < s.lifetime && m.trace <= n.trace
        && (forall k | |m.trace| <= k < |n.trace| :: !Completion(n.trace[k]))
        && locked == (var saved := AfterSave(s, n);
                      (if saved.1 == Killed then saved.0 else Recorded(saved.0, LockLeft), AsTurn(saved.1), true))
      case None => locked.1 != Proceed && Unfinished(m.trace, locked.0)
  {
    hide AfterSave, AfterClear;
    var taken := Recorded(Awaited(m), LockTaken);
    assert Unfinished(m.trace, taken);
    ClearUnfinished(s, taken);
    var cleared := AfterClear(s, taken);
    UnfinishedLonger(m.trace, taken, cleared.0);
    var called := Awaited(Recorded(cleared.0, InstallCall));
    assert Unfinished(m.trace, called);
  }

  /** A turn completes the job as `Installed` says, or leaves it unfinished. */
  lemma TurnCompletes(s: Service, m: Machine)
    requires m.job.status != Complete
    ensures match Installed(s, m)
      case Some(i) =>
        && i.job.status == Complete && i.disk.status == Installing && i.tick < s.lifetime && m.trace <= i.trace
        && (forall k | |m.trace| <= k < |i.trace| :: !Completion(i.trace[k]))
        && AfterAttempt(s, m) == AfterCompletion(s, i)
      case None => AfterAttempt(s, m).1 != Stop && Unfinished(m.trace, AfterAttempt(s, m).0)
  {
    hide AfterReport, AfterDeliver, AfterAcknowledge, AfterPrepare, AfterLock, AfterSave, InstalledUnderLock, Unfinished, Completion;
    ReportUnfinished(s, m);
    var told := AfterReport(s, m);
    UnfinishedMeans(m.trace, told.0);
    if told.1 == Ok {
      DeliverUnfinished(s, told.0);
      var delivered := AfterDeliver(s, told.0);
      UnfinishedMeans(told.0.trace, delivered.0);
      UnfinishedLonger(m.trace, told.0, delivered.0);
      DeliverGoesOn(s, told.0);
      if delivered.1 == Proceed {
        AcknowledgeUnfinished(s, delivered.0);
        var acked := AfterAcknowledge(s, delivered.0);
        UnfinishedMeans(delivered.0.trace, acked.0);
        UnfinishedLonger(m.trace, delivered.0, acked.0);
        AcknowledgeGoesOn(s, delivered.0);
        if acked.1 == Proceed { ApplyCompletes(s, m.trace, acked.0); }
      }
    }
  }

  lemma UnfinishedMeans(t: seq<Event>, m: Machine)
    requires Unfinished(t, m)
    ensures m.job.status != Complete && t <= m.trace && forall k | |t| <= k < |m.trace| :: !Completion(m.trace[k])
  {
  }

  lemma DeliverGoesOn(s: Service, m: Machine)
    ensures AfterDeliver(s, m).1 != Stop
  {
    hide AfterSave, StartsWith;
  }

  lemma AcknowledgeGoesOn(s: Service, m: Machine)
    ensures AfterAcknowledge(s, m).1 != Stop
  {
    hide AfterSave;
  }

  lemma ApplyCompletes(s: Service, t: seq<Event>, m: Machine)
    requires Unfinished(t, m)
    ensures var ready := AfterPrepare(s, m);
      match if ready.1 != Ok then None else InstalledUnderLock(s, ready.0)
      case Some(i) =>
        && i.job.status == Complete && i.disk.status == Installing && i.tick < s.lifetime && t <= i.trace
        && (forall k | |t| <= k < |i.trace| :: !Completion(i.trace[k]))
        && AfterApply(s, m) == AfterCompletion(s, i)
      case None => AfterApply(s, m).1 != Stop && Unfinished(t, AfterApply(s, m).0)
  {
    hide AfterReport, AfterPrepare, AfterLock, AfterSave, InstalledUnderLock, Unfinished, Completion;
    UnfinishedMeans(t, m);
    PrepareUnfinished(s, m);
    var ready := AfterPrepare(s, m);
    UnfinishedLonger(t, m, ready.0);
    if ready.1 == Ok {
      UnfinishedMeans(t, ready.0);
      LockCompletes(s, ready.0);
      var i := InstalledUnderLock(s, ready.0);
      if i.Some? {
        forall k | |t| <= k < |i.value.trace| ensures !Completion(i.value.trace[k]) {
          if k < |ready.0.trace| { assert i.value.trace[k] == ready.0.trace[k]; }
        }
      } else {
        UnfinishedLonger(t, ready.0, AfterLock(s, ready.0).0);
        LockGoesOn(s, ready.0);
      }
    }
  }

  lemma LockGoesOn(s: Service, m: Machine)
    ensures AfterLock(s, m).1 != Stop
  {
    hide AfterSave;
  }

  /** The worker just before the save of a complete job, if a turn of this loop gets there. */
  function Completing(s: Service, m: Machine): Option<Machine>
    decreases s.lifetime - m.tick
  {
    if Dead(s, m) || !s.now(m.tick) then None
    else if Installed(s, m).Some? then Installed(s, m)
    else
      var turn := AfterAttempt(s, m);
      match turn.1
      case Stop => None
      case Gone => None
      case Raise(e) =>
        if Fatal(e) || turn.2 || Dead(s, Awaited(turn.0)) then None else Completing(s, Awaited(turn.0))
      case _ => Completing(s, turn.0)
  }

  /** After the completion is saved the job is failed: by the catch when that save was rejected, or by a refused report. */
  predicate FailsAfterCompletion(s: Service, i: Machine) {
    var t := i.tick + 1;
    t < s.lifetime
    && if s.save(t).failure.Some? then Writes(s, t + 1) else i.reported != Some(Complete) && RefusedLater(s, t)
  }

  /** The report made after tick `t`, or a later turn's, is refused with a sign-out error, and the job is saved failed. */
  predicate RefusedLater(s: Service, t: nat) {
    t + 1 < s.lifetime && s.report(t + 1).Rejected?
    && if SignedOut(s.report(t + 1).error) then Writes(s, t + 2) else FailsFrom(s, t + 1)
  }

  /** The rest of the loop once a turn has completed the job. */
  function LoopAfterCompletion(s: Service, i: Machine): Machine {
    var turn := AfterCompletion(s, i);
    match turn.1
    case Raise(e) => AfterFail(s, turn.0, e).0
    case Proceed => AfterLoop(s, turn.0).0
    case _ => turn.0
  }

  lemma CompletionOutcome(s: Service, i: Machine)
    ensures AfterCompletion(s, i).1 != Stop && AfterCompletion(s, i).1 != Poll && AfterCompletion(s, i).2
  {
    hide AfterSave, AfterReport;
  }

  lemma SaveOutcome(s: Service, m: Machine)
    ensures var r, t := AfterSave(s, m), m.tick + 1;
      && r.0.disk == (if Writes(s, t) then m.job else m.disk) && r.0.job == m.job && r.0.tick == t && r.0.reported == m.reported
      && r.1 == (if t >= s.lifetime then Killed else if s.save(t).failure.Some? then Threw(Error(0, "io")) else Ok)
      && m.trace <= r.0.trace && (Writes(s, t) ==> |r.0.trace| > |m.trace| && r.0.trace[|m.trace|] == Saved(m.job))
      && (forall k | |m.trace| <= k < |r.0.trace| :: r.0.trace[k].Saved? ==> Writes(s, t) && r.0.trace[k].job == m.job)
  {
  }

  /** What the report at the end of the completing turn leaves. */
  lemma LastReport(s: Service, m: Machine)
    requires m.job.status == Complete && m.tick < s.lifetime
    ensures var r, t := AfterReport(s, m), m.tick + 1;
      if m.reported == Some(Complete) then r == (m, Ok)
      else if t >= s.lifetime then r == (Awaited(m), Killed)
      else match s.report(t)
        case Returned(_) =>
          && (r.1 == Ok || r.1 == Killed) && r.0.job.status == Complete && r.0.reported == Some(Complete)
          && (r.0.disk == m.disk || r.0.disk.status == Complete)
        case Rejected(e) => r == (Awaited(m), if SignedOut(e) then Threw(e) else Ok)
  {
    hide AfterSave;
    var told := Awaited(m).(reported := Some(Complete), job := m.job.(reported := Some(Complete)));
    SaveOutcome(s, told);
  }

  /** The loop that goes on after the completing save was made. */
  lemma SavedThenLoop(s: Service, i: Machine)
    requires i.job.status == Complete && i.disk.status == Installing && i.tick + 1 < s.lifetime && s.save(i.tick + 1).failure.None?
    ensures LoopAfterCompletion(s, i).disk.status == if FailsAfterCompletion(s, i) then Failed else Complete
  {
    hide AfterSave, AfterReport, AfterLoop, AfterFail, Writes, FailsFrom, FailureCode, Fatal;
    SaveOutcome(s, i);
    WritesIfFinished(s, i.tick + 1);
    var left := Recorded(AfterSave(s, i).0, LockLeft);
    LastReport(s, left);
    var turn := AfterCompletion(s, i);
    if turn.1.Raise? {
      FailWrites(s, turn.0, turn.1.error);
    } else if turn.1 == Proceed {
      if turn.0.reported == Some(Complete) { ToldLoopStops(s, turn.0); } else { CompleteLoopStatus(s, turn.0); }
    }
  }

  lemma WritesIfFinished(s: Service, tick: nat)
    requires tick < s.lifetime && s.save(tick).failure.None?
    ensures Writes(s, tick)
  {
  }

  lemma CompleteLoopStatus(s: Service, m: Machine)
    requires m.job.status == Complete && m.disk.status == Complete && m.reported != Some(Complete)
    ensures AfterLoop(s, m).0.disk.status == if FailsFrom(s, m.tick) then Failed else Complete
  {
    CompleteLoopFailsIff(s, m);
  }

  /** The file once a turn has got to the completing save. */
  lemma CompletionFails(s: Service, i: Machine)
    requires i.job.status == Complete && i.disk.status == Installing && i.tick < s.lifetime
    ensures LoopAfterCompletion(s, i).disk.status ==
            if FailsAfterCompletion(s, i) then Failed else if Writes(s, i.tick + 1) then Complete else Installing
  {
    hide AfterSave, AfterReport, AfterLoop, AfterFail, Writes, FailsFrom, FailureCode, Fatal;
    var t := i.tick + 1;
    SaveOutcome(s, i);
    if t < s.lifetime {
      if s.save(t).failure.None? {
        SavedThenLoop(s, i);
        WritesIfFinished(s, t);
      } else {
        FailWrites(s, Recorded(AfterSave(s, i).0, LockLeft), Error(0, "io"));
      }
    }
  }

  /** The history only grows. */
  lemma SaveGrows(s: Service, m: Machine)
    ensures m.trace <= AfterSave(s, m).0.trace
  {
  }

  /** The job was complete in the file at some point between the two histories. */
  predicate Completed(before: seq<Event>, after: seq<Event>) {
    exists k :: |before| <= k < |after| && Completion(after[k])
  }

  /** How a turn that is no longer going on ends the run: by marking the job failed or expired, or at once. */
  lemma EndUnfinished(s: Service, t: seq<Event>, m: Machine, e: Error)
    requires Unfinished(t, m)
    ensures Unfinished(t, AfterFail(s, m, e).0) && Unfinished(t, AfterExpire(s, m).0)
  {
    hide AfterSave, Unfinished, FailureCode, Completion;
    var failed := m.(job := m.job.(status := Failed, error := Some(FailureCode(e))));
    var expired := m.(job := m.job.(status := Expired, error := Some("approval_window_expired")));
    SameTrace(t, m, failed);
    SameTrace(t, m, expired);
    SaveUnfinished(s, failed);
    SaveUnfinished(s, expired);
    UnfinishedLonger(t, failed, AfterSave(s, failed).0);
    UnfinishedLonger(t, expired, AfterSave(s, expired).0);
  }

  lemma SameTrace(t: seq<Event>, m: Machine, m': Machine)
    requires Unfinished(t, m) && m'.trace == m.trace && m'.job.status != Complete
    ensures Unfinished(t, m')
  {
    hide Completion;
  }

  /** The machine `i` is where the first completion of the history since `t` is about to be saved. */
  predicate AtCompletion(s: Service, t: seq<Event>, i: Machine) {
    && i.job.status == Complete && i.disk.status == Installing && i.tick < s.lifetime && t <= i.trace
    && forall k | |t| <= k < |i.trace| :: !Completion(i.trace[k])
  }

  lemma AtCompletionLater(s: Service, t: seq<Event>, m: Machine, i: Machine)
    requires Unfinished(t, m) && AtCompletion(s, m.trace, i)
    ensures AtCompletion(s, t, i)
  {
    hide Completion;
    forall k | |t| <= k < |i.trace| ensures !Completion(i.trace[k]) {
      if k < |m.trace| { assert i.trace[k] == m.trace[k]; }
    }
  }

  /** The loop completes the job as `Completing` says, or never has it complete. */
  lemma {:induction false} LoopCompletes(s: Service, m: Machine)
    requires m.job.status != Complete
    ensures match Completing(s, m)
      case Some(i) => AtCompletion(s, m.trace, i) && AfterLoop(s, m).0 == LoopAfterCompletion(s, i)
      case None => Unfinished(m.trace, AfterLoop(s, m).0)
    decreases s.lifetime - m.tick
  {
    hide AfterAttempt, AfterFail, AfterExpire, AfterLoop, AfterCompletion, Installed, Unfinished, Completion, Fatal;
    NothingYet(m);
    if Dead(s, m) {
      DeadLoop(s, m);
    } else if !s.now(m.tick) {
      LoopEnds(s, m);
      EndUnfinished(s, m.trace, m, Error(0, ""));
    } else {
      LoopTurns(s, m);
      TurnCompletes(s, m);
      var turn := AfterAttempt(s, m);
      if Installed(s, m).Some? {
        CompletionOutcome(s, Installed(s, m).value);
      } else {
        UnfinishedMeans(m.trace, turn.0);
        if turn.1.Raise? {
          EndUnfinished(s, m.trace, turn.0, turn.1.error);
          SameTrace(m.trace, turn.0, Awaited(turn.0));
        }
        if turn.1 == Proceed || turn.1 == Poll || (turn.1.Raise? && !Fatal(turn.1.error) && !turn.2 && !Dead(s, Awaited(turn.0))) {
          var next := if turn.1.Raise? then Awaited(turn.0) else turn.0;
          LoopCompletes(s, next);
          if Completing(s, next).Some? {
            AtCompletionLater(s, m.trace, next, Completing(s, next).value);
          } else {
            UnfinishedLonger(m.trace, next, AfterLoop(s, next).0);
          }
        }
      }
    }
  }

  lemma NothingYet(m: Machine)
    ensures m.job.status != Complete ==> Unfinished(m.trace, m)
  {
  }

  lemma DeadLoop(s: Service, m: Machine)
    requires Dead(s, m)
    ensures AfterLoop(s, m) == (m, false)
  {
  }

  lemma ReportGrows(s: Service, m: Machine)
    ensures m.trace <= AfterReport(s, m).0.trace
  {
    hide AfterSave;
    var told := Awaited(m).(reported := Some(m.job.status), job := m.job.(reported := Some(m.job.status)));
    SaveGrows(s, told);
  }

  lemma {:induction false} CompleteLoopGrows(s: Service, m: Machine)
    requires m.job.status == Complete
    ensures m.trace <= AfterLoop(s, m).0.trace
    decreases s.lifetime - m.tick
  {
    hide AfterAttempt, AfterFail, AfterLoop;
    if Dead(s, m) {
      DeadLoop(s, m);
    } else if !s.now(m.tick) {
      LoopEnds(s, m);
    } else if m.reported == Some(Complete) {
      ToldLoopStops(s, m);
    } else {
      LoopTurns(s, m);
      CompleteTurn(s, m);
      var turn := AfterAttempt(s, m);
      if turn.1 == Poll { CompleteLoopGrows(s, turn.0); }
      if turn.1.Raise? { FailGrows(s, turn.0, turn.1.error); }
    }
  }

  lemma FailGrows(s: Service, m: Machine, e: Error)
    ensures m.trace <= AfterFail(s, m, e).0.trace
    ensures forall k | |m.trace| <= k < |AfterFail(s, m, e).0.trace| :: !Completion(AfterFail(s, m, e).0.trace[k])
  {
    hide FailureCode;
  }

  /** The completing save is in the history exactly when it replaced the file. */
  lemma CompletionSeen(s: Service, t: seq<Event>, i: Machine)
    requires AtCompletion(s, t, i)
    ensures t <= LoopAfterCompletion(s, i).trace
    ensures Completed(t, LoopAfterCompletion(s, i).trace) <==> Writes(s, i.tick + 1)
  {
    hide AfterSave, AfterReport, AfterLoop, AfterFail, Writes, FailureCode, Fatal;
    SaveOutcome(s, i);
    var saved, n := AfterSave(s, i), i.tick + 1;
    var left, r := Recorded(saved.0, LockLeft), LoopAfterCompletion(s, i);
    if n < s.lifetime && s.save(n).failure.None? {
      WritesIfFinished(s, n);
      ReportGrows(s, left);
      LastReport(s, left);
      var told := AfterReport(s, left);
      if told.1.Threw? { FailGrows(s, told.0, told.1.error); } else if told.1 == Ok { CompleteLoopGrows(s, told.0); }
      assert saved.0.trace <= r.trace;
    } else if n < s.lifetime {
      FailGrows(s, left, Error(0, "io"));
      assert left.trace <= r.trace;
    }
    if Writes(s, n) {
      assert r.trace[|i.trace|] == Saved(i.job);
      assert Completion(r.trace[|i.trace|]);
    } else {
      forall k | |t| <= k < |r.trace| ensures !Completion(r.trace[k]) {
        if k < |i.trace| { assert r.trace[k] == i.trace[k]; }
        else if k < |saved.0.trace| { assert r.trace[k] == saved.0.trace[k]; }
        else if k == |saved.0.trace| { assert r.trace[k] == LockLeft; }
      }
    }
  }

  /** A run as it enters its loop. */
  function Begun(m: Machine): Machine {
    Recorded(m.(tick := 0), Started).(job := m.disk, reported := m.disk.reported)
  }

  /**
   * A run completes the job and leaves it failed exactly when a turn's installation is
   * answered, the save of the completion replaces the file, and then either that save is
   * rejected all the same, or a report is refused with a sign-out error, at once or in a
   * later turn; and the save of the failed job replaces the file.
   */
  lemma CompletingRunFailsIff(s: Service, m: Machine)
    requires m.disk.status != Complete && !Settled(m.disk.status)
    ensures var r := AfterRun(s, m).0;
      (Completed(m.trace, r.trace) && r.disk.status == Failed) <==>
        s.lifetime > 0
        && match Completing(s, Begun(m))
           case None => false
           case Some(i) => Writes(s, i.tick + 1) && FailsAfterCompletion(s, i)
  {
    hide AfterLoop, AfterRun, Completing, FailsAfterCompletion, LoopAfterCompletion, Writes, Completion, Completed;
    RunBegins(s, m);
    var b := Begun(m);
    if s.lifetime == 0 {
      NotCompleted(m.trace, m.trace);
    } else {
      LoopCompletes(s, b);
      BegunTrace(m);
      match Completing(s, b)
      case None =>
        UnfinishedMeans(b.trace, AfterLoop(s, b).0);
        NotCompletedSince(m.trace, Started, AfterLoop(s, b).0.trace);
      case Some(i) =>
        CompletionSeen(s, b.trace, i);
        CompletionFails(s, i);
        CompletedSince(m.trace, Started, LoopAfterCompletion(s, i).trace);
    }
  }

  lemma BegunTrace(m: Machine)
    ensures Begun(m).trace == m.trace + [Started] && Begun(m).job == m.disk
  {
  }

  lemma NotCompleted(before: seq<Event>, after: seq<Event>)
    requires forall k | |before| <= k < |after| :: !Completion(after[k])
    ensures !Completed(before, after)
  {
    hide Completion;
  }

  lemma CompletedSince(before: seq<Event>, e: Event, after: seq<Event>)
    requires before + [e] <= after && !e.Saved?
    ensures Completed(before, after) <==> Completed(before + [e], after)
  {
    assert after[|before|] == e;
  }

  lemma NotCompletedSince(before: seq<Event>, e: Event, after: seq<Event>)
    requires before + [e] <= after && !e.Saved? && forall k | |before + [e]| <= k < |after| :: !Completion(after[k])
    ensures !Completed(before, after)
  {
    hide Completion;
    NotCompleted(before + [e], after);
    CompletedSince(before, e, after);
  }
}
