/** How a run on an unconcluded job ends, read off the service's answers one await at a time. */
module SlackEnding {
  import opened Text
  import opened SlackWorker
  import opened SlackCompletion

  // ---------------------------------------------------------------------------
  // The awaits of one turn
  // ---------------------------------------------------------------------------

  /** What a turn waits for, in its order. */
  datatype Await =
    | Tell(status: Status)
    | Ask
    | Acknowledge
    | Keep
    | TakeLock
    | AskAgain
    | Announce
    | Begin
    | Settle

  /** The awaits still due for a job as it stands. */
  function Plan(job: Job): seq<Await> {
    if job.status == Complete then [Tell(Complete), Settle]
    else
      [Tell(job.status)]
      + (if Given(job.token) then [] else [Ask, Keep])
      + (if job.acknowledged || (Given(job.token) && !Given(job.deliveryId)) then [] else [Acknowledge, Keep])
      + [Keep, Tell(Installing), TakeLock, AskAgain, Announce, Begin, Keep, Tell(Complete)]
  }

  /** How a turn ends; trouble says whether the installation had begun, and at which await it came. */
  datatype Walked = Finished | Waits | Rests | Cut | Trouble(error: Error, began: bool, tick: nat)

  function Cutoff(s: Service, t: nat, walked: Walked): Walked { if t >= s.lifetime then Cut else walked }

  /** The error an answer raises: an error of the service, or a refusal of what it answered. */
  function Complaint(s: Service, a: Await, t: nat): Option<Error> {
    match a
    case Ask =>
      (match s.receive(t)
       case Rejected(e) => Some(e)
       case Returned(d) =>
         if d.status == "deleted" then Some(Error(0, "app_revoked"))
         else if !Given(d.botToken) then if d.status == "installed" then Some(Error(0, "credential_unavailable")) else None
         else if !Given(d.deliveryId) || !("xoxb-" <= d.botToken.value) then Some(Error(0, "invalid_delivery"))
         else None)
    case AskAgain =>
      (match s.receive(t)
       case Rejected(e) => Some(e)
       case Returned(d) => if d.status == "installed" then None else Some(Error(0, "app_revoked")))
    case Acknowledge => (match s.receive(t) case Rejected(e) => Some(e) case Returned(_) => None)
    case Tell(_) =>
      (match s.report(t) case Rejected(e) => if e.status in {401, 403} then Some(e) else None case Returned(_) => None)
    case Announce => (match s.report(t) case Rejected(e) => Some(e) case Returned(_) => None)
    case TakeLock => (match s.lock(t) case Rejected(e) => Some(e) case Returned(_) => None)
    case Begin => (match s.install(t) case Rejected(e) => Some(e) case Returned(_) => None)
    case Keep => if s.save(t).failure.Some? then Some(Error(0, "io")) else None
    case Settle => None
  }

  /** The awaits in order, until one raises or the process dies. A status is told once, and then saved. */
  function Walk(s: Service, plan: seq<Await>, t: nat, told: Option<Status>, began: bool): Walked {
    if plan == [] then Finished
    else if plan[0].Tell? && told == Some(plan[0].status) then Walk(s, plan[1..], t, told, began)
    else if plan[0] == Settle && told == Some(Complete) then Rests
    else if t + 1 >= s.lifetime then Cut
    else
      var begins := began || plan[0] == Begin;
      match Complaint(s, plan[0], t + 1)
      case Some(e) => Trouble(e, begins, t + 1)
      case None =>
        if plan[0] == Settle then Waits
        else if plan[0] == Ask && !Given(s.receive(t + 1).value.botToken) then Cutoff(s, t + 2, Waits)
        else if plan[0].Tell? && s.report(t + 1).Returned? then
          Cutoff(s, t + 2, Walk(s, plan[1..], t + 2, Some(plan[0].status), begins))
        else Walk(s, plan[1..], t + 1, told, begins)
  }

  // ---------------------------------------------------------------------------
  // A turn is its walk
  // ---------------------------------------------------------------------------

  function Ended(turn: (Machine, Turn, bool)): Walked {
    match turn.1
    case Proceed => Finished
    case Poll => Waits
    case Stop => Rests
    case Gone => Cut
    case Raise(e) => Trouble(e, turn.2, turn.0.tick)
  }

  /** What is left of a turn after some part of it: the rest of the plan, from there. */
  function Then(s: Service, part: (Machine, Turn), plan: seq<Await>, began: bool): Walked {
    if part.1 == Proceed then Walk(s, plan, part.0.tick, part.0.reported, began) else Ended((part.0, part.1, began))
  }

  lemma WalkTell(s: Service, m: Machine, plan: seq<Await>, began: bool)
    ensures var r := AfterReport(s, m);
      Walk(s, [Tell(m.job.status)] + plan, m.tick, m.reported, began) == Then(s, (r.0, AsTurn(r.1)), plan, began)
  {
    hide Walk;
    WalkUnfolds(s, Tell(m.job.status), plan, m.tick, m.reported, began);
  }

  lemma WalkUnfolds(s: Service, a: Await, rest: seq<Await>, t: nat, told: Option<Status>, began: bool)
    ensures Walk(s, [a] + rest, t, told, began) ==
      if a.Tell? && told == Some(a.status) then Walk(s, rest, t, told, began)
      else if a == Settle && told == Some(Complete) then Rests
      else if t + 1 >= s.lifetime then Cut
      else
        var begins := began || a == Begin;
        match Complaint(s, a, t + 1)
        case Some(e) => Trouble(e, begins, t + 1)
        case None =>
          if a == Settle then Waits
          else if a == Ask && !Given(s.receive(t + 1).value.botToken) then Cutoff(s, t + 2, Waits)
          else if a.Tell? && s.report(t + 1).Returned? then
            Cutoff(s, t + 2, Walk(s, rest, t + 2, Some(a.status), begins))
          else Walk(s, rest, t + 1, told, begins)
  {
    assert ([a] + rest)[1..] == rest;
  }

  lemma WalkKeep(s: Service, m: Machine, plan: seq<Await>, began: bool)
    ensures var r := AfterSave(s, m);
      Walk(s, [Keep] + plan, m.tick, m.reported, began) == Then(s, (r.0, AsTurn(r.1)), plan, began)
  {
    hide Walk;
    WalkUnfolds(s, Keep, plan, m.tick, m.reported, began);
  }

  lemma WalkDeliver(s: Service, m: Machine, plan: seq<Await>)
    ensures Walk(s, (if Given(m.job.token) then [] else [Ask, Keep]) + plan, m.tick, m.reported, false)
            == Then(s, AfterDeliver(s, m), plan, false)
  {
    hide Walk, AfterSave;
    if Given(m.job.token) {
      assert [] + plan == plan;
    } else {
      assert [Ask, Keep] + plan == [Ask] + ([Keep] + plan);
      WalkUnfolds(s, Ask, [Keep] + plan, m.tick, m.reported, false);
      var n := Awaited(m);
      if !Dead(s, n) && s.receive(n.tick).Returned? {
        var d := s.receive(n.tick).value;
        if Given(d.botToken) && Given(d.deliveryId) {
          var got := Recorded(n, Delivered(d.botToken.value, d.deliveryId.value));
          WalkKeep(s, got.(job := got.job.(token := d.botToken, deliveryId := d.deliveryId, status := Installing)), plan, false);
        }
      }
    }
  }

  lemma WalkAcknowledge(s: Service, m: Machine, plan: seq<Await>)
    ensures Walk(s, (if m.job.acknowledged || !Given(m.job.deliveryId) then [] else [Acknowledge, Keep]) + plan, m.tick, m.reported, false)
            == Then(s, AfterAcknowledge(s, m), plan, false)
  {
    hide Walk, AfterSave;
    if m.job.acknowledged || !Given(m.job.deliveryId) {
      assert [] + plan == plan;
    } else {
      assert [Acknowledge, Keep] + plan == [Acknowledge] + ([Keep] + plan);
      WalkUnfolds(s, Acknowledge, [Keep] + plan, m.tick, m.reported, false);
      var n := Awaited(Recorded(m, AckCall(m.job.deliveryId.value)));
      WalkKeep(s, n.(job := n.job.(acknowledged := true)), plan, false);
    }
  }

  lemma WalkPrepare(s: Service, m: Machine, plan: seq<Await>)
    ensures var r := AfterPrepare(s, m);
      Walk(s, [Keep, Tell(Installing)] + plan, m.tick, m.reported, false) == Then(s, (r.0, AsTurn(r.1)), plan, false)
    ensures AfterPrepare(s, m).1 == Ok ==> AfterPrepare(s, m).0.job.status == Installing
  {
    hide Walk, AfterSave, AfterReport;
    assert [Keep, Tell(Installing)] + plan == [Keep] + ([Tell(Installing)] + plan);
    var ready := m.(job := m.job.(status := Installing));
    WalkKeep(s, ready, [Tell(Installing)] + plan, false);
    var saved := AfterSave(s, ready);
    SaveOutcome(s, ready);
    if saved.1 == Ok {
      WalkTell(s, saved.0, plan, false);
      ReportUnfinished(s, saved.0);
    }
  }

  lemma WalkInstall(s: Service, m: Machine, plan: seq<Await>)
    ensures Walk(s, [Begin, Keep] + plan, m.tick, m.reported, false) == Then(s, AfterInstall(s, m), plan, true)
    ensures AfterInstall(s, m).1 == Proceed ==> AfterInstall(s, m).0.job.status == Complete
  {
    hide Walk, AfterSave;
    assert [Begin, Keep] + plan == [Begin] + ([Keep] + plan);
    WalkUnfolds(s, Begin, [Keep] + plan, m.tick, m.reported, false);
    var n := Awaited(Recorded(m, InstallCall));
    var done := n.(job := n.job.(status := Complete));
    WalkKeep(s, done, plan, true);
    SaveOutcome(s, done);
  }

  lemma WalkClear(s: Service, m: Machine, plan: seq<Await>)
    ensures Walk(s, [AskAgain, Announce] + plan, m.tick, m.reported, false) == Then(s, AfterClear(s, m), plan, false)
  {
    hide Walk;
    assert [AskAgain, Announce] + plan == [AskAgain] + ([Announce] + plan);
    WalkUnfolds(s, AskAgain, [Announce] + plan, m.tick, m.reported, false);
    WalkUnfolds(s, Announce, plan, m.tick + 1, m.reported, false);
  }

  lemma WalkLock(s: Service, m: Machine, plan: seq<Await>)
    ensures var r := AfterLock(s, m);
      Walk(s, [TakeLock, AskAgain, Announce, Begin, Keep] + plan, m.tick, m.reported, false) == Then(s, (r.0, r.1), plan, r.2)
    ensures AfterLock(s, m).1 == Proceed ==> AfterLock(s, m).0.job.status == Complete && AfterLock(s, m).2
  {
    hide Walk, AfterClear, AfterInstall;
    var afterAsk := [Begin, Keep] + plan;
    assert [TakeLock, AskAgain, Announce, Begin, Keep] + plan == [TakeLock] + ([AskAgain, Announce] + afterAsk);
    WalkUnfolds(s, TakeLock, [AskAgain, Announce] + afterAsk, m.tick, m.reported, false);
    var n := Awaited(m);
    if !Dead(s, n) && s.lock(n.tick).Returned? {
      var taken := Recorded(n, LockTaken);
      WalkClear(s, taken, afterAsk);
      var cleared := AfterClear(s, taken);
      if cleared.1 == Proceed { WalkInstall(s, cleared.0, plan); }
    }
  }

  lemma WalkApply(s: Service, m: Machine)
    ensures Walk(s, [Keep, Tell(Installing), TakeLock, AskAgain, Announce, Begin, Keep, Tell(Complete)], m.tick, m.reported, false)
            == Ended(AfterApply(s, m))
  {
    hide Walk, AfterPrepare, AfterLock, AfterReport;
    var afterTell := [TakeLock, AskAgain, Announce, Begin, Keep] + [Tell(Complete)];
    assert [Keep, Tell(Installing)] + afterTell == [Keep, Tell(Installing), TakeLock, AskAgain, Announce, Begin, Keep, Tell(Complete)];
    WalkPrepare(s, m, afterTell);
    var ready := AfterPrepare(s, m);
    if ready.1 == Ok {
      WalkLock(s, ready.0, [Tell(Complete)]);
      var locked := AfterLock(s, ready.0);
      if locked.1 == Proceed {
        assert [Tell(Complete)] + [] == [Tell(Complete)];
        WalkTell(s, locked.0, [], locked.2);
        NothingLeft(s, AfterReport(s, locked.0).0, locked.2);
      }
    }
  }

  lemma NothingLeft(s: Service, m: Machine, began: bool)
    ensures Walk(s, [], m.tick, m.reported, began) == Finished
  {
  }

  lemma ReportKeepsJob(s: Service, m: Machine)
    ensures AfterReport(s, m).0.job == m.job.(reported := AfterReport(s, m).0.job.reported)
  {
  }

  lemma DeliveredJob(s: Service, m: Machine)
    requires AfterDeliver(s, m).1 == Proceed
    ensures var job := AfterDeliver(s, m).0.job;
      Given(job.token) && job.acknowledged == m.job.acknowledged
      && (if Given(m.job.token) then job.deliveryId == m.job.deliveryId else Given(job.deliveryId))
  {
    hide StartsWith;
  }

  lemma WalkSettle(s: Service, m: Machine)
    requires m.job.status == Complete
    ensures Walk(s, Plan(m.job), m.tick, m.reported, false) == Ended(AfterAttempt(s, m))
  {
    hide Walk, AfterReport;
    assert Plan(m.job) == [Tell(Complete)] + [Settle];
    WalkTell(s, m, [Settle], false);
    ReportKeepsJob(s, m);
    var told := AfterReport(s, m).0;
    assert [Settle] == [Settle] + [];
    WalkUnfolds(s, Settle, [], told.tick, told.reported, false);
  }

  /** The loop's turn ends as the walk of its plan does. */
  lemma TurnIsWalk(s: Service, m: Machine)
    ensures Walk(s, Plan(m.job), m.tick, m.reported, false) == Ended(AfterAttempt(s, m))
  {
    hide Walk, AfterReport, AfterDeliver, AfterAcknowledge, AfterApply;
    if m.job.status == Complete {
      WalkSettle(s, m);
    } else {
      var apply := [Keep, Tell(Installing), TakeLock, AskAgain, Announce, Begin, Keep, Tell(Complete)];
      var ask := if Given(m.job.token) then [] else [Ask, Keep];
      var ack := if m.job.acknowledged || (Given(m.job.token) && !Given(m.job.deliveryId)) then [] else [Acknowledge, Keep];
      assert Plan(m.job) == [Tell(m.job.status)] + (ask + (ack + apply));
      WalkTell(s, m, ask + (ack + apply), false);
      ReportKeepsJob(s, m);
      var told := AfterReport(s, m);
      if told.1 == Ok {
        WalkDeliver(s, told.0, ack + apply);
        var delivered := AfterDeliver(s, told.0);
        if delivered.1 == Proceed {
          DeliveredJob(s, told.0);
          WalkAcknowledge(s, delivered.0, apply);
          var acked := AfterAcknowledge(s, delivered.0);
          if acked.1 == Proceed { WalkApply(s, acked.0); }
        }
      }
    }
  }

  // ---------------------------------------------------------------------------
  // The end of a run
  // ---------------------------------------------------------------------------

  /** The reason an error fails the job for, unless the next turn may do better. */
  function Reason(e: Error, began: bool): Option<string> {
    if e.status in {401, 403} then Some("sign_in_required")
    else if e.status == 404 || began || e.code in {"app_revoked", "credential_unavailable", "invalid_delivery", "invalid_service"}
    then Some(if e.code == "" then "install_needs_attention" else e.code)
    else None
  }

  /** How the turns end: with the job left as it is, failed or expired, and the await after which that is saved. */
  datatype End = Left | Failing(tick: nat, reason: string) | Expiring(tick: nat)

  function EndOf(s: Service, m: Machine): End
    decreases s.lifetime - m.tick
  {
    if m.tick >= s.lifetime then Left
    else if !s.now(m.tick) then if m.job.status == Complete then Left else Expiring(m.tick)
    else
      match Walk(s, Plan(m.job), m.tick, m.reported, false)
      case Rests => Left
      case Cut => Left
      case Trouble(e, began, t) =>
        if Reason(e, began).Some? then Failing(t, Reason(e, began).value) else EndOf(s, Awaited(AfterAttempt(s, m).0))
      case _ => if AfterAttempt(s, m).0.tick > m.tick then EndOf(s, AfterAttempt(s, m).0) else Left
  }

  predicate Unsettled(m: Machine) { !Settled(m.job.status) && !Settled(m.disk.status) }

  lemma SaveUnsettled(s: Service, m: Machine)
    requires Unsettled(m)
    ensures Unsettled(AfterSave(s, m).0)
  {
  }

  lemma ReportUnsettled(s: Service, m: Machine)
    requires Unsettled(m)
    ensures Unsettled(AfterReport(s, m).0)
  {
    hide AfterSave;
    var told := Some(m.job.status);
    SaveUnsettled(s, Awaited(m).(reported := told, job := m.job.(reported := told)));
  }

  lemma DeliverUnsettled(s: Service, m: Machine)
    requires Unsettled(m)
    ensures Unsettled(AfterDeliver(s, m).0)
  {
    hide AfterSave, StartsWith;
    var n := Awaited(m);
    if s.receive(n.tick).Returned? {
      var d := s.receive(n.tick).value;
      if Given(d.botToken) && Given(d.deliveryId) {
        var got := Recorded(n, Delivered(d.botToken.value, d.deliveryId.value));
        SaveUnsettled(s, got.(job := got.job.(token := d.botToken, deliveryId := d.deliveryId, status := Installing)));
      }
    }
  }

  lemma AcknowledgeUnsettled(s: Service, m: Machine)
    requires Unsettled(m)
    ensures Unsettled(AfterAcknowledge(s, m).0)
  {
    hide AfterSave;
    if Given(m.job.deliveryId) {
      var n := Awaited(Recorded(m, AckCall(m.job.deliveryId.value)));
      SaveUnsettled(s, n.(job := n.job.(acknowledged := true)));
    }
  }

  lemma ClearUnsettled(s: Service, m: Machine)
    requires Unsettled(m)
    ensures Unsettled(AfterClear(s, m).0)
  {
  }

  lemma InstallUnsettled(s: Service, m: Machine)
    requires Unsettled(m)
    ensures Unsettled(AfterInstall(s, m).0)
  {
    hide AfterSave;
    var n := Awaited(Recorded(m, InstallCall));
    SaveUnsettled(s, n.(job := n.job.(status := Complete)));
  }

  lemma ApplyUnsettled(s: Service, m: Machine)
    requires Unsettled(m)
    ensures Unsettled(AfterApply(s, m).0)
  {
    hide AfterSave, AfterReport, AfterClear, AfterInstall;
    var ready := m.(job := m.job.(status := Installing));
    SaveUnsettled(s, ready);
    ReportUnsettled(s, AfterSave(s, ready).0);
    var prepared := AfterPrepare(s, m);
    if prepared.1 == Ok {
      var taken := Recorded(Awaited(prepared.0), LockTaken);
      ClearUnsettled(s, taken);
      InstallUnsettled(s, AfterClear(s, taken).0);
      ReportUnsettled(s, AfterLock(s, prepared.0).0);
    }
  }

  lemma TurnUnsettled(s: Service, m: Machine)
    requires Unsettled(m)
    ensures Unsettled(AfterAttempt(s, m).0)
  {
    hide AfterReport, AfterDeliver, AfterAcknowledge, AfterApply;
    ReportUnsettled(s, m);
    var told := AfterReport(s, m).0;
    DeliverUnsettled(s, told);
    var delivered := AfterDeliver(s, told).0;
    AcknowledgeUnsettled(s, delivered);
    ApplyUnsettled(s, AfterAcknowledge(s, delivered).0);
  }

  /** The job file a loop that ends as `end` leaves. */
  predicate Concludes(s: Service, end: End, disk: Job) {
    match end
    case Left => !Settled(disk.status)
    case Failing(t, reason) =>
      if Writes(s, t + 1) then disk.status == Failed && disk.error == Some(reason) else !Settled(disk.status)
    case Expiring(t) =>
      if Writes(s, t + 1) then disk.status == Expired && disk.error == Some("approval_window_expired") else !Settled(disk.status)
  }

  lemma FailConcludes(s: Service, m: Machine, e: Error, began: bool)
    requires Unsettled(m)
    ensures Reason(e, began).Some? <==> Fatal(e) || began
    ensures Reason(e, began).Some? ==> Concludes(s, Failing(m.tick, Reason(e, began).value), AfterFail(s, m, e).0.disk)
  {
    hide AfterSave, Writes;
    SaveOutcome(s, m.(job := m.job.(status := Failed, error := Some(FailureCode(e)))));
  }

  lemma ExpireConcludes(s: Service, m: Machine)
    requires Unsettled(m)
    ensures Concludes(s, Expiring(m.tick), AfterExpire(s, m).0.disk)
  {
    hide AfterSave, Writes;
    SaveOutcome(s, m.(job := m.job.(status := Expired, error := Some("approval_window_expired"))));
  }

  lemma {:induction false} LoopEndsAs(s: Service, m: Machine)
    requires Unsettled(m)
    ensures Concludes(s, EndOf(s, m), AfterLoop(s, m).0.disk)
    decreases s.lifetime - m.tick
  {
    hide AfterAttempt, AfterFail, AfterExpire, AfterLoop, Concludes, Walk, Plan, Fatal, Reason;
    LeftConcludes(s, m);
    if Dead(s, m) {
      DeadLoop(s, m);
    } else if !s.now(m.tick) {
      LoopEnds(s, m);
      ExpireConcludes(s, m);
    } else {
      LoopTurns(s, m);
      TurnIsWalk(s, m);
      TurnUnsettled(s, m);
      var turn := AfterAttempt(s, m);
      LeftConcludes(s, turn.0);
      match turn.1
      case Raise(e) =>
        FailConcludes(s, turn.0, e, turn.2);
        if Reason(e, turn.2).None? {
          LoopEndsAs(s, Awaited(turn.0));
          if Dead(s, Awaited(turn.0)) { DeadLoop(s, Awaited(turn.0)); }
        }
      case Proceed => LoopEndsAs(s, turn.0);
      case Poll => LoopEndsAs(s, turn.0);
      case _ =>
    }
  }

  lemma LeftConcludes(s: Service, m: Machine)
    requires Unsettled(m)
    ensures Concludes(s, Left, m.disk)
  {
  }

  /**
   * A run on a job that is neither failed nor expired: it ends failed, with which reason, or
   * expired, or leaves the job as it is, exactly as the awaits of its turns say, provided the
   * save that concludes it replaces the file.
   */
  lemma RunEndsAs(s: Service, m: Machine)
    requires !Settled(m.disk.status)
    ensures Concludes(s, if s.lifetime == 0 then Left else EndOf(s, Begun(m)), AfterRun(s, m).0.disk)
  {
    hide AfterLoop, AfterRun, EndOf, Concludes;
    RunBegins(s, m);
    LeftConcludes(s, m.(job := m.disk));
    if s.lifetime > 0 { LoopEndsAs(s, Begun(m)); }
  }
}
