/**
 * The background Slack installation job: what a worker may do to the job file
 * and to the service, over every history of runs that may be killed at any await.
 */
module SlackWorker {
  import opened Text

  datatype Status = AwaitingApproval | Installing | Complete | Failed | Expired

  /** The fields of the saved job that change. */
  datatype Job = Job(
    status: Status,
    token: Option<string>,
    deliveryId: Option<string>,
    acknowledged: bool,
    reported: Option<Status>,
    error: Option<string>)

  datatype Delivery = Delivery(status: string, botToken: Option<string>, deliveryId: Option<string>)

  /** `status` 0 and `code` "" stand for an error without that property. */
  datatype Error = Error(status: nat, code: string)

  datatype Answer<T> = Returned(value: T) | Rejected(error: Error)

  /** How a save ends when the process survives it; the rename may precede a rejection. */
  datatype SaveResult = SaveResult(renamed: bool, failure: Option<Error>)

  /**
   * The world of one run: any answer to any call, and the await at which the
   * process is killed. `tornAt` says whether a save cut short had renamed.
   */
  datatype Service = Service(
    lifetime: nat,
    now: nat -> bool,
    receive: nat -> Answer<Delivery>,
    report: nat -> Answer<()>,
    install: nat -> Answer<()>,
    lock: nat -> Answer<()>,
    save: nat -> SaveResult,
    tornAt: nat -> bool)

  datatype Event =
    | Started
    | Saved(job: Job)
    | SaveRejected
    | Delivered(token: string, deliveryId: string)
    | AckCall(deliveryId: string)
    | LockTaken
    | StatusAnswer(status: string)
    | InstallCall
    | LockLeft

  predicate Given(o: Option<string>) { o.Some? && o.value != "" }

  // ---------------------------------------------------------------------------
  // What a history promises
  // ---------------------------------------------------------------------------

  /** The job file after the events of `t`. */
  function Durable(first: Job, t: seq<Event>): Job {
    if t == [] then first
    else if t[|t| - 1].Saved? then t[|t| - 1].job
    else Durable(first, t[..|t| - 1])
  }

  datatype Clearance = Outside | Locked | Cleared

  /**
   * The current run: did every save finish, is no delivery newer than the last save that
   * replaced the file, how often was install called, what the lock section knows.
   */
  datatype Run = Run(savesFinished: bool, held: bool, installs: nat, lock: Clearance)

  function Advance(r: Run, e: Event): Run {
    match e
    case Started => Run(true, true, 0, Outside)
    case Delivered(_, _) => r.(held := false)
    case Saved(_) => r.(held := true)
    case SaveRejected => r.(savesFinished := false)
    case InstallCall => r.(installs := r.installs + 1)
    case LockTaken => r.(lock := Locked)
    case LockLeft => r.(lock := Outside)
    case StatusAnswer(s) =>
      if r.lock == Outside then r else r.(lock := if s == "installed" then Cleared else Locked)
    case _ => r
  }

  function RunOf(t: seq<Event>): Run {
    if t == [] then Run(true, true, 0, Outside) else Advance(RunOf(t[..|t| - 1]), t[|t| - 1])
  }

  /** The token and the receipt came together, from the service or with the first job. */
  predicate Paired(first: Job, t: seq<Event>, token: Option<string>, id: Option<string>) {
    || (first.token == token && first.deliveryId == id)
    || (token.Some? && id.Some? && Delivered(token.value, id.value) in t)
  }

  predicate Settled(s: Status) { s == Failed || s == Expired }

  /** `after` may replace `before` in the job file. */
  predicate MayReplace(before: Job, after: Job) {
    && !Settled(before.status)
    && (Given(before.token) ==> after.token == before.token && after.deliveryId == before.deliveryId)
    && (before.acknowledged ==> after.acknowledged)
    && (before.status == Complete ==> after.status == Complete || after.status == Failed)
  }

  /** `e` is allowed after `t`. */
  predicate Allowed(first: Job, t: seq<Event>, e: Event) {
    var d := Durable(first, t);
    match e
    case Saved(job) =>
      MayReplace(d, job) && (Given(job.token) && Given(job.deliveryId) ==> Paired(first, t, job.token, job.deliveryId))
    case AckCall(id) =>
      && (RunOf(t).held ==> Given(d.token) && d.deliveryId == Some(id) && Paired(first, t, d.token, d.deliveryId))
      && (!RunOf(t).held ==> !Given(d.token))
    case InstallCall =>
      && d.status == Installing && Given(d.token) && (Given(d.deliveryId) ==> d.acknowledged)
      && RunOf(t).installs == 0 && RunOf(t).lock == Cleared
    case _ => true
  }

  predicate Safe(first: Job, t: seq<Event>) {
    t == [] || (Safe(first, t[..|t| - 1]) && Allowed(first, t[..|t| - 1], t[|t| - 1]))
  }

  lemma Extend(first: Job, t: seq<Event>, e: Event)
    requires Safe(first, t) && Allowed(first, t, e)
    ensures Safe(first, t + [e])
    ensures Durable(first, t + [e]) == if e.Saved? then e.job else Durable(first, t)
    ensures RunOf(t + [e]) == Advance(RunOf(t), e)
    ensures forall token, id :: Paired(first, t, token, id) ==> Paired(first, t + [e], token, id)
  {
    assert (t + [e])[..|t|] == t;
  }

  // ---------------------------------------------------------------------------
  // The worker
  // ---------------------------------------------------------------------------

  /** How a piece of the worker ends: normally, with an exception, or with the process. */
  datatype Outcome = Ok | Threw(error: Error) | Killed

  /** How one turn of the loop ends. */
  datatype Turn = Proceed | Poll | Stop | Raise(error: Error) | Gone

  function AsTurn(o: Outcome): Turn {
    match o case Ok => Proceed case Threw(e) => Raise(e) case Killed => Gone
  }

  predicate SignedOut(e: Error) { e.status == 401 || e.status == 403 }

  predicate Fatal(e: Error) {
    || SignedOut(e) || e.status == 404
    || e.code == "app_revoked" || e.code == "credential_unavailable"
    || e.code == "invalid_delivery" || e.code == "invalid_service"
  }

  // ---------------------------------------------------------------------------
  // What each piece does, as a function of the service's answers
  // ---------------------------------------------------------------------------

  /** The job file, the history, the awaits made, and what the process holds in memory. */
  datatype Machine = Machine(disk: Job, trace: seq<Event>, tick: nat, job: Job, reported: Option<Status>)

  function Recorded(m: Machine, e: Event): Machine { m.(trace := m.trace + [e]) }

  function Awaited(m: Machine): Machine { m.(tick := m.tick + 1) }

  predicate Dead(s: Service, m: Machine) { m.tick >= s.lifetime }

  function AfterSave(s: Service, m: Machine): (r: (Machine, Outcome))
    ensures r.0.tick == m.tick + 1
  {
    var n := Awaited(m);
    var result := if Dead(s, n) then SaveResult(s.tornAt(n.tick), None) else s.save(n.tick);
    var wrote := if result.renamed || (!Dead(s, n) && result.failure.None?) then Recorded(n.(disk := n.job), Saved(n.job)) else n;
    if Dead(s, n) then (wrote, Killed)
    else if result.failure.Some? then (Recorded(wrote, SaveRejected), Threw(Error(0, "io")))
    else (wrote, Ok)
  }

  function AfterReport(s: Service, m: Machine): (r: (Machine, Outcome))
    ensures r.0.tick >= m.tick
  {
    if m.reported == Some(m.job.status) then (m, Ok)
    else
      var n := Awaited(m);
      if Dead(s, n) then (n, Killed)
      else
        match s.report(n.tick)
        case Rejected(e) => (n, if SignedOut(e) then Threw(e) else Ok)
        case Returned(_) =>
          var told := Some(n.job.status);
          var saved := AfterSave(s, n.(reported := told, job := n.job.(reported := told)));
          (saved.0, if saved.1.Threw? then Ok else saved.1)
  }

  function AfterAccept(s: Service, m: Machine, token: string, id: string): (r: (Machine, Turn))
    ensures r.0.tick == m.tick + 1
  {
    var n := Recorded(m, Delivered(token, id));
    var saved := AfterSave(s, n.(job := n.job.(token := Some(token), deliveryId := Some(id), status := Installing)));
    (saved.0, AsTurn(saved.1))
  }

  function AfterDeliver(s: Service, m: Machine): (r: (Machine, Turn))
    ensures r.0.tick >= m.tick && (r.1 == Poll ==> r.0.tick > m.tick)
  {
    if Given(m.job.token) then (m, Proceed)
    else
      var n := Awaited(m);
      if Dead(s, n) then (n, Gone)
      else
        match s.receive(n.tick)
        case Rejected(e) => (n, Raise(e))
        case Returned(d) =>
          if d.status == "deleted" then (n, Raise(Error(0, "app_revoked")))
          else if !Given(d.botToken) then
            if d.status == "installed" then (n, Raise(Error(0, "credential_unavailable")))
            else (Awaited(n), if Dead(s, Awaited(n)) then Gone else Poll)
          else if !Given(d.deliveryId) || !StartsWith(d.botToken.value, "xoxb-") then (n, Raise(Error(0, "invalid_delivery")))
          else AfterAccept(s, n, d.botToken.value, d.deliveryId.value)
  }

  function AfterAcknowledge(s: Service, m: Machine): (r: (Machine, Turn))
    ensures r.0.tick >= m.tick
  {
    if !Given(m.job.deliveryId) || m.job.acknowledged then (m, Proceed)
    else
      var n := Awaited(Recorded(m, AckCall(m.job.deliveryId.value)));
      if Dead(s, n) then (n, Gone)
      else
        match s.receive(n.tick)
        case Rejected(e) => (n, Raise(e))
        case Returned(_) =>
          var saved := AfterSave(s, n.(job := n.job.(acknowledged := true)));
          (saved.0, AsTurn(saved.1))
  }

  function AfterPrepare(s: Service, m: Machine): (r: (Machine, Outcome))
    ensures r.0.tick > m.tick
  {
    var saved := AfterSave(s, m.(job := m.job.(status := Installing)));
    if saved.1 == Ok then AfterReport(s, saved.0) else saved
  }

  function AfterClear(s: Service, m: Machine): (r: (Machine, Turn))
    ensures r.0.tick > m.tick
  {
    var n := Awaited(m);
    if Dead(s, n) then (n, Gone)
    else
      match s.receive(n.tick)
      case Rejected(e) => (n, Raise(e))
      case Returned(d) =>
        var asked := Recorded(n, StatusAnswer(d.status));
        if d.status != "installed" then (asked, Raise(Error(0, "app_revoked")))
        else
          var told := Awaited(asked);
          if Dead(s, told) then (told, Gone)
          else
            match s.report(told.tick)
            case Rejected(e) => (told, Raise(e))
            case Returned(_) => (told, Proceed)
  }

  function AfterInstall(s: Service, m: Machine): (r: (Machine, Turn))
    ensures r.0.tick > m.tick
  {
    var n := Awaited(Recorded(m, InstallCall));
    if Dead(s, n) then (n, Gone)
    else
      match s.install(n.tick)
      case Rejected(e) => (n, Raise(e))
      case Returned(_) =>
        var saved := AfterSave(s, n.(job := n.job.(status := Complete)));
        (saved.0, AsTurn(saved.1))
  }

  /** The lock section; the flag says whether the installation began. */
  function AfterLock(s: Service, m: Machine): (r: (Machine, Turn, bool))
    ensures r.0.tick > m.tick
  {
    var n := Awaited(m);
    if Dead(s, n) then (n, Gone, false)
    else if s.lock(n.tick).Rejected? then (n, Raise(s.lock(n.tick).error), false)
    else
      var cleared := AfterClear(s, Recorded(n, LockTaken));
      var applying := cleared.1 == Proceed;
      var done := if applying then AfterInstall(s, cleared.0) else cleared;
      (if done.1 == Gone then done.0 else Recorded(done.0, LockLeft), done.1, applying)
  }

  function AfterApply(s: Service, m: Machine): (r: (Machine, Turn, bool))
    ensures r.0.tick > m.tick
  {
    var ready := AfterPrepare(s, m);
    if ready.1 != Ok then (ready.0, AsTurn(ready.1), false)
    else
      var locked := AfterLock(s, ready.0);
      if locked.1 != Proceed then locked
      else
        var told := AfterReport(s, locked.0);
        (told.0, AsTurn(told.1), locked.2)
  }

  function AfterAttempt(s: Service, m: Machine): (r: (Machine, Turn, bool))
    ensures r.0.tick >= m.tick && (r.1 == Proceed || r.1 == Poll ==> r.0.tick > m.tick)
  {
    var told := AfterReport(s, m);
    if told.1 != Ok then (told.0, AsTurn(told.1), false)
    else if told.0.job.status == Complete then
      if told.0.reported == Some(Complete) then (told.0, Stop, false)
      else (Awaited(told.0), if Dead(s, Awaited(told.0)) then Gone else Poll, false)
    else
      var delivered := AfterDeliver(s, told.0);
      if delivered.1 != Proceed then (delivered.0, delivered.1, false)
      else
        var acked := AfterAcknowledge(s, delivered.0);
        if acked.1 != Proceed then (acked.0, acked.1, false) else AfterApply(s, acked.0)
  }

  function FailureCode(e: Error): string {
    if SignedOut(e) then "sign_in_required" else if e.code != "" then e.code else "install_needs_attention"
  }

  function AfterFail(s: Service, m: Machine, e: Error): (Machine, bool) {
    var saved := AfterSave(s, m.(job := m.job.(status := Failed, error := Some(FailureCode(e)))));
    (saved.0, saved.1 != Killed)
  }

  function AfterExpire(s: Service, m: Machine): (Machine, bool) {
    var saved := AfterSave(s, m.(job := m.job.(status := Expired, error := Some("approval_window_expired"))));
    (saved.0, saved.1 != Killed)
  }

  /** The loop until the deadline; the result says whether the process lived to its end. */
  function AfterLoop(s: Service, m: Machine): (Machine, bool)
    decreases s.lifetime - m.tick
  {
    if Dead(s, m) then (m, false)
    else if !s.now(m.tick) then if m.job.status == Complete then (m, true) else AfterExpire(s, m)
    else
      var turn := AfterAttempt(s, m);
      match turn.1
      case Stop => (turn.0, true)
      case Gone => (turn.0, false)
      case Raise(e) =>
        if Fatal(e) || turn.2 then AfterFail(s, turn.0, e)
        else if Dead(s, Awaited(turn.0)) then (Awaited(turn.0), false)
        else AfterLoop(s, Awaited(turn.0))
      case _ => AfterLoop(s, turn.0)
  }

  /** One run over a job file and a history. */
  function AfterRun(s: Service, m: Machine): (Machine, bool) {
    var begun := m.(tick := 0);
    if s.lifetime == 0 then (begun, false)
    else
      var started := Recorded(begun, Started).(job := m.disk);
      if Settled(m.disk.status) then (started, true)
      else AfterLoop(s, started.(reported := m.disk.reported))
  }

  class Worker {
    const first: Job
    /** The job file and everything observable that has happened, across runs. */
    var disk: Job
    var trace: seq<Event>
    /** The current run. */
    var service: Service
    var tick: nat
    var job: Job
    var reported: Option<Status>

    constructor (first: Job, service: Service)
      ensures Linked() && trace == [] && this.first == disk == job == first
      ensures this.service == service && tick == 0
    {
      this.first, disk, trace := first, first, [];
      this.service, tick, job, reported := service, 0, first, None;
    }

    ghost predicate Linked()
      reads this`disk, this`trace
    {
      disk == Durable(first, trace) && Safe(first, trace)
    }

    function Now(): Machine
      reads this
    {
      Machine(disk, trace, tick, job, reported)
    }

    /** Memory never falls behind the file. */
    ghost predicate Ahead()
      reads this`disk, this`trace, this`job
    {
      && Linked() && !Settled(job.status) && MayReplace(disk, job)
      && (Given(job.token) && Given(job.deliveryId) ==> Paired(first, trace, job.token, job.deliveryId))
      && (RunOf(trace).installs > 0 ==> job.status == Complete)
    }

    /** Only a delivery newer than the last save lets a receipt be known and not be in the file. */
    ghost predicate Level()
      reads this`disk, this`trace, this`job
    {
      && (RunOf(trace).held ==> job.token == disk.token && job.deliveryId == disk.deliveryId)
      && (!RunOf(trace).held ==> Given(job.token) && !Given(disk.token) && !RunOf(trace).savesFinished)
      && (RunOf(trace).savesFinished ==> job.status == Complete ==> disk.status == Complete)
    }

    /** Level but for a save that is about to be made. */
    ghost predicate Saving()
      reads this`disk, this`trace, this`job
    {
      && (RunOf(trace).held ==> job.token == disk.token && job.deliveryId == disk.deliveryId)
      && (!RunOf(trace).held ==> Given(job.token) && !Given(disk.token))
    }

    /** The file says how the job ended, or a save did not finish. */
    ghost predicate Concluded()
      reads this`disk, this`trace
    {
      Settled(disk.status) || disk.status == Complete || !RunOf(trace).savesFinished
    }

    ghost predicate Running()
      reads this`disk, this`trace, this`job
    {
      Ahead() && Level() && RunOf(trace).lock == Outside
    }

    method Log(e: Event)
      requires Linked() && !e.Saved? && Allowed(first, trace, e)
      modifies this`trace
      ensures Linked() && trace == old(trace) + [e]
      ensures RunOf(trace) == Advance(old(RunOf(trace)), e)
      ensures Paired(first, old(trace), job.token, job.deliveryId) ==> Paired(first, trace, job.token, job.deliveryId)
    {
      Extend(first, trace, e);
      trace := trace + [e];
    }

    /** Each await counts; the last one of a lifetime never returns. */
    method Await() returns (alive: bool)
      requires tick < service.lifetime
      modifies this`tick
      ensures tick == old(tick) + 1
      ensures alive == (tick < service.lifetime)
    {
      tick := tick + 1;
      alive := tick < service.lifetime;
    }

    /** The rename: the job file becomes the job in memory. */
    method Put()
      requires Linked() && Allowed(first, trace, Saved(job))
      modifies this`disk, this`trace
      ensures Linked() && disk == job && trace == old(trace) + [Saved(job)]
      ensures RunOf(trace) == old(RunOf(trace)).(held := true)
    {
      Extend(first, trace, Saved(job));
      disk := job;
      trace := trace + [Saved(job)];
    }

    /** Replace the job file with the job in memory. */
    method Save() returns (o: Outcome)
      requires tick < service.lifetime
      requires Linked() && Allowed(first, trace, Saved(job))
      modifies this`tick, this`disk, this`trace
      ensures Linked() && old(trace) <= trace
      ensures o == Killed <==> tick >= service.lifetime
      ensures disk == old(disk) || disk == job
      ensures tick == old(tick) + 1
      ensures o == Ok ==> disk == job
      ensures o.Threw? ==> o.error == Error(0, "io") && !RunOf(trace).savesFinished
      ensures SameRun(old(RunOf(trace)), RunOf(trace))
      ensures || (RunOf(trace).held && disk == job)
              || (disk == old(disk) && RunOf(trace).held == old(RunOf(trace).held))
      ensures (Now(), o) == AfterSave(service, old(Now()))
    {
      hide Safe, Durable, RunOf, Paired, MayReplace;
      var alive := Await();
      var result := if alive then service.save(tick) else SaveResult(service.tornAt(tick), None);
      if result.renamed || (alive && result.failure.None?) { Put(); }
      if !alive { return Killed; }
      if result.failure.Some? {
        Log(SaveRejected);
        // A file-system error carries neither a status nor one of the service's codes.
        return Threw(Error(0, "io"));
      }
      return Ok;
    }

    /** Save a job that only moves forward. */
    method Commit() returns (o: Outcome)
      requires tick < service.lifetime && Ahead() && Saving()
      modifies this`tick, this`disk, this`trace
      ensures Linked() && old(trace) <= trace
      ensures o == Killed <==> tick >= service.lifetime
      ensures o != Killed ==> Ahead() && Level()
      ensures tick == old(tick) + 1
      ensures disk == old(disk) || disk == job
      ensures o == Ok ==> disk == job
      ensures SameRun(old(RunOf(trace)), RunOf(trace))
      ensures o.Threw? ==> o.error == Error(0, "io")
      ensures (Now(), o) == AfterSave(service, old(Now()))
    {
      o := Save();
      PairedKept(first, old(trace), trace, job.token, job.deliveryId);
    }

    /** Tell the portal the job's status, once per status; only a sign-out escapes. */
    method Report() returns (o: Outcome)
      requires tick < service.lifetime && Running()
      modifies this`tick, this`disk, this`trace, this`job, this`reported
      ensures Linked() && old(trace) <= trace
      ensures o != Killed ==> Running() && old(tick) <= tick < service.lifetime
      ensures job == old(job).(reported := job.reported)
      ensures disk == old(disk) || disk == job
      ensures o.Threw? ==> SignedOut(o.error)
      ensures old(reported == Some(job.status)) ==> o == Ok && Now() == old(Now())
      ensures o == Ok && old(tick) < tick && service.report(old(tick) + 1).Returned? ==> reported == Some(job.status)
      ensures (Now(), o) == AfterReport(service, old(Now()))
    {
      hide Safe, Durable, RunOf, Paired;
      if reported == Some(job.status) { return Ok; }
      var alive := Await();
      if !alive { return Killed; }
      match service.report(tick)
      case Rejected(e) => return if SignedOut(e) then Threw(e) else Ok;
      case Returned(_) =>
        reported := Some(job.status);
        job := job.(reported := reported);
        o := Commit();
        if o.Threw? { o := Ok; }
    }

    /** Ask for the token while there is none; it is saved before anything else happens. */
    method Deliver() returns (turn: Turn)
      requires tick < service.lifetime && Running() && job.status != Complete
      modifies this`tick, this`disk, this`trace, this`job
      ensures Linked() && old(trace) <= trace && turn != Stop
      ensures turn != Gone ==> Running() && job.status != Complete && old(tick) <= tick < service.lifetime
      ensures turn == Proceed ==> Given(job.token)
      ensures turn == Poll ==> old(tick) < tick
      ensures (Now(), turn) == AfterDeliver(service, old(Now()))
    {
      hide Safe, Durable, RunOf, Paired;
      if Given(job.token) { return Proceed; }
      var alive := Await();
      if !alive { return Gone; }
      var answer := service.receive(tick);
      if answer.Rejected? { return Raise(answer.error); }
      var delivery := answer.value;
      if delivery.status == "deleted" { return Raise(Error(0, "app_revoked")); }
      if !Given(delivery.botToken) {
        if delivery.status == "installed" { return Raise(Error(0, "credential_unavailable")); }
        alive := Await();
        return if alive then Poll else Gone;
      }
      if !Given(delivery.deliveryId) || !StartsWith(delivery.botToken.value, "xoxb-") {
        return Raise(Error(0, "invalid_delivery"));
      }
      turn := Accept(delivery.botToken.value, delivery.deliveryId.value);
    }

    method Accept(token: string, id: string) returns (turn: Turn)
      requires tick < service.lifetime && Running() && job.status != Complete && !Given(job.token)
      requires token != "" && id != ""
      modifies this`tick, this`disk, this`trace, this`job
      ensures Linked() && old(trace) <= trace
      ensures turn == Proceed || turn.Raise? || turn == Gone
      ensures turn == Gone <==> tick >= service.lifetime
      ensures turn != Gone ==> Running() && job.status != Complete
      ensures turn == Proceed ==> Given(job.token)
      ensures turn != Gone ==> job == old(job).(token := Some(token), deliveryId := Some(id), status := Installing)
      ensures tick == old(tick) + 1
      ensures (Now(), turn) == AfterAccept(service, old(Now()), token, id)
      ensures turn == Proceed ==> disk == job
    {
      hide Safe, Durable, RunOf;
      Log(Delivered(token, id));
      job := job.(token := Some(token), deliveryId := Some(id), status := Installing);
      var o := Commit();
      turn := AsTurn(o);
    }

    /** Acknowledge the receipt once. */
    method Acknowledge() returns (turn: Turn)
      requires tick < service.lifetime && Running() && job.status != Complete && Given(job.token)
      modifies this`tick, this`disk, this`trace, this`job
      ensures Linked() && old(trace) <= trace && turn != Stop && turn != Poll
      ensures turn != Gone ==> Running() && job.status != Complete && old(tick) <= tick < service.lifetime
      ensures turn == Proceed ==> Given(job.token) && (Given(job.deliveryId) ==> job.acknowledged)
      ensures turn.Raise? ==> old(tick) < tick
      ensures old(Given(job.deliveryId) && !job.acknowledged) ==> old(trace) + [AckCall(old(job).deliveryId.value)] <= trace
      ensures (Now(), turn) == AfterAcknowledge(service, old(Now()))
    {
      hide Safe, Durable, RunOf, Paired;
      if !Given(job.deliveryId) || job.acknowledged { return Proceed; }
      Log(AckCall(job.deliveryId.value));
      var alive := Await();
      if !alive { return Gone; }
      var answer := service.receive(tick);
      if answer.Rejected? { return Raise(answer.error); }
      job := job.(acknowledged := true);
      var o := Commit();
      turn := AsTurn(o);
    }

    /** Everything an installation may rely on is in the file. */
    ghost predicate Prepared()
      reads this
    {
      disk.status == Installing && Given(disk.token) && (Given(disk.deliveryId) ==> disk.acknowledged)
    }

    method Prepare() returns (o: Outcome)
      requires tick < service.lifetime && Running() && job.status != Complete && Given(job.token)
      requires Given(job.deliveryId) ==> job.acknowledged
      modifies this`tick, this`disk, this`trace, this`job, this`reported
      ensures Linked() && old(trace) <= trace
      ensures o != Killed ==> Running() && old(tick) < tick < service.lifetime
      ensures o == Ok ==> Prepared() && job.status != Complete
      ensures (Now(), o) == AfterPrepare(service, old(Now()))
    {
      hide Safe, Durable, RunOf, Paired;
      job := job.(status := Installing);
      o := Commit();
      if o == Ok { o := Report(); }
    }

    /** Install inside one setup-lock section, after asking again whether the app is still installed. */
    method Apply() returns (turn: Turn, applying: bool)
      requires tick < service.lifetime && Running() && job.status != Complete && Given(job.token)
      requires Given(job.deliveryId) ==> job.acknowledged
      modifies this`tick, this`disk, this`trace, this`job, this`reported
      ensures Linked() && old(trace) <= trace && turn != Stop && turn != Poll
      ensures turn != Gone ==> old(tick) < tick < service.lifetime
      ensures turn == Proceed || (turn.Raise? && !applying) ==> Running()
      ensures turn.Raise? ==> MayFail()
      ensures (Now(), turn, applying) == AfterApply(service, old(Now()))
    {
      hide Safe, Durable, RunOf, Paired;
      var o := Prepare();
      if o != Ok { return AsTurn(o), false; }
      turn, applying := UnderLock();
      if turn == Proceed {
        o := Report();
        turn := AsTurn(o);
      }
    }

    method UnderLock() returns (turn: Turn, applying: bool)
      requires tick < service.lifetime && Running() && job.status != Complete && Prepared()
      modifies this`tick, this`disk, this`trace, this`job
      ensures Linked() && old(trace) <= trace
      ensures turn == Proceed || turn.Raise? || turn == Gone
      ensures turn != Gone ==> MayFail() && old(tick) < tick < service.lifetime
      ensures turn == Proceed || (turn.Raise? && !applying) ==> Running()
      ensures (Now(), turn, applying) == AfterLock(service, old(Now()))
    {
      hide Safe, Durable, RunOf, Paired, AfterClear, AfterInstall;
      applying := false;
      var alive := Await();
      if !alive { return Gone, false; }
      if service.lock(tick).Rejected? { return Raise(service.lock(tick).error), false; }
      Log(LockTaken);
      turn := Clear();
      if turn == Proceed {
        applying := true;
        turn := Install();
      }
      if turn != Gone { Log(LockLeft); }
    }

    /** Inside the lock, ask once more whether the app is still installed, and tell the portal. */
    method Clear() returns (turn: Turn)
      requires tick < service.lifetime && Ahead() && Level() && RunOf(trace).lock == Locked
      modifies this`tick, this`trace
      ensures Linked() && old(trace) <= trace
      ensures turn == Proceed || turn.Raise? || turn == Gone
      ensures turn != Gone ==> Ahead() && Level() && old(tick) < tick < service.lifetime
      ensures RunOf(trace).installs == old(RunOf(trace).installs)
      ensures turn == Proceed ==> RunOf(trace).lock == Cleared
      ensures (Now(), turn) == AfterClear(service, old(Now()))
    {
      hide Safe, Durable, RunOf, Paired;
      var alive := Await();
      if !alive { return Gone; }
      var current := service.receive(tick);
      if current.Rejected? { return Raise(current.error); }
      Log(StatusAnswer(current.value.status));
      if current.value.status != "installed" { return Raise(Error(0, "app_revoked")); }
      alive := Await();
      if !alive { return Gone; }
      var told := service.report(tick);
      return if told.Rejected? then Raise(told.error) else Proceed;
    }

    method Install() returns (turn: Turn)
      requires tick < service.lifetime && Ahead() && Level()
      requires disk.status == Installing && Given(disk.token) && (Given(disk.deliveryId) ==> disk.acknowledged)
      requires RunOf(trace).lock == Cleared && RunOf(trace).installs == 0
      modifies this`tick, this`disk, this`trace, this`job
      ensures Linked() && old(trace) <= trace
      ensures turn == Proceed || turn.Raise? || turn == Gone
      ensures turn != Gone ==> MayFail() && Level() && old(tick) < tick < service.lifetime
      ensures turn == Proceed ==> Ahead()
      ensures (Now(), turn) == AfterInstall(service, old(Now()))
    {
      hide Safe, Durable, RunOf, Paired;
      Log(InstallCall);
      var alive := Await();
      if !alive { return Gone; }
      var done := service.install(tick);
      if done.Rejected? { return Raise(done.error); }
      job := job.(status := Complete);
      var o := Commit();
      turn := AsTurn(o);
    }

    /** The job may be marked failed. */
    ghost predicate MayFail()
      reads this`disk, this`trace, this`job
    {
      && Linked() && MayReplace(disk, job.(status := Failed))
      && (Given(job.token) && Given(job.deliveryId) ==> Paired(first, trace, job.token, job.deliveryId))
    }

    /** Mark the job failed and tell the portal, best effort. */
    method Fail(e: Error) returns (alive: bool)
      requires tick < service.lifetime && MayFail()
      modifies this`tick, this`disk, this`trace, this`job
      ensures Linked() && old(trace) <= trace
      ensures alive ==> Concluded()
      ensures disk == old(disk) || (disk == job && job.status == Failed)
      ensures (Now(), alive) == AfterFail(service, old(Now()), e)
    {
      job := job.(status := Failed, error := Some(FailureCode(e)));
      var o := Save();
      alive := o != Killed;
    }

    method Expire() returns (alive: bool)
      requires tick < service.lifetime && Running() && job.status != Complete
      modifies this`tick, this`disk, this`trace, this`job
      ensures Linked() && old(trace) <= trace
      ensures alive ==> Concluded()
      ensures disk == old(disk) || (disk == job && job.status == Expired)
      ensures (Now(), alive) == AfterExpire(service, old(Now()))
    {
      job := job.(status := Expired, error := Some("approval_window_expired"));
      var o := Save();
      alive := o != Killed;
    }

    /** One turn of the loop's `try`. */
    method Attempt() returns (turn: Turn, applying: bool)
      requires tick < service.lifetime && Running()
      modifies this`tick, this`disk, this`trace, this`job, this`reported
      ensures Linked() && old(trace) <= trace
      ensures turn != Gone && turn != Stop ==> old(tick) <= tick < service.lifetime
      ensures turn == Proceed || turn == Poll ==> Running() && old(tick) < tick
      ensures turn.Raise? ==> MayFail() && (!applying ==> Running())
      ensures turn == Stop ==> Concluded()
      ensures (Now(), turn, applying) == AfterAttempt(service, old(Now()))
    {
      hide Safe, Durable, RunOf, Paired, AfterReport, AfterDeliver, AfterAcknowledge, AfterApply;
      applying := false;
      var o := Report();
      if o != Ok { return AsTurn(o), false; }
      if job.status == Complete {
        if reported == Some(Complete) { return Stop, false; }
        var alive := Await();
        return if alive then Poll else Gone, false;
      }
      turn := Deliver();
      if turn != Proceed { return; }
      turn := Acknowledge();
      if turn != Proceed { return; }
      turn, applying := Apply();
    }

    /** Read the job file; `settled` says that there is nothing left to do. */
    method Begin() returns (settled: bool)
      requires Linked()
      modifies this`trace, this`job, this`reported
      ensures Linked() && trace == old(trace) + [Started] && job == disk && settled == Settled(job.status)
      ensures settled ==> Concluded() && reported == old(reported)
      ensures !settled ==> Running() && reported == job.reported
    {
      hide Safe, Durable, RunOf, Paired;
      Log(Started);
      job := disk;
      DurablePaired(first, trace);
      settled := Settled(job.status);
      if !settled { reported := job.reported; }
    }

    lemma CompleteIsConcluded()
      requires Running() && job.status == Complete
      ensures Concluded()
    {
    }

    /** One run of the worker, from the job file it finds to its end or its death. */
    method RunSlackJob(service: Service) returns (alive: bool)
      requires Linked()
      modifies this
      ensures Linked() && old(trace) <= trace
      ensures alive ==> Concluded()
      ensures (Now(), alive) == AfterRun(service, old(Now()))
    {
      hide Safe, Durable, RunOf, Paired, MayReplace, Fatal, SignedOut, FailureCode, Settled, Allowed, AfterRun, AfterLoop, AfterAttempt, AfterFail, AfterExpire, AfterReport, AfterSave;
      this.service, tick := service, 0;
      RunBegins(service, old(Now()));
      if service.lifetime == 0 { return false; }
      var settled := Begin();
      if settled { return true; }
      while service.now(tick)
        invariant this.service == service && tick < service.lifetime
        invariant Running() && Linked() && old(trace) <= trace
        invariant AfterLoop(service, Now()) == AfterRun(service, old(Now()))
        decreases service.lifetime - tick
      {
        LoopTurns(service, Now());
        var turn, applying := Attempt();
        if turn == Stop { return true; }
        if turn == Gone { return false; }
        if turn.Raise? {
          if Fatal(turn.error) || applying {
            alive := Fail(turn.error);
            return;
          }
          // Anything else may pass: wait and take another turn.
          alive := Await();
          if !alive { return; }
        }
      }
      LoopEnds(service, Now());
      if job.status == Complete {
        CompleteIsConcluded();
        return true;
      }
      alive := Expire();
    }
  }

  lemma RunBegins(s: Service, m: Machine)
    ensures AfterRun(s, m) ==
      (var started := Recorded(m.(tick := 0), Started).(job := m.disk);
       if s.lifetime == 0 then (m.(tick := 0), false)
       else if Settled(m.disk.status) then (started, true)
       else AfterLoop(s, started.(reported := m.disk.reported)))
  {
    hide AfterLoop;
  }

  lemma LoopTurns(s: Service, m: Machine)
    requires !Dead(s, m) && s.now(m.tick)
    ensures AfterLoop(s, m) ==
      (var turn := AfterAttempt(s, m);
       match turn.1
       case Stop => (turn.0, true)
       case Gone => (turn.0, false)
       case Raise(e) =>
         if Fatal(e) || turn.2 then AfterFail(s, turn.0, e)
         else if Dead(s, Awaited(turn.0)) then (Awaited(turn.0), false)
         else AfterLoop(s, Awaited(turn.0))
       case _ => AfterLoop(s, turn.0))
  {
    hide AfterAttempt, AfterFail, AfterExpire;
  }

  lemma LoopEnds(s: Service, m: Machine)
    requires !Dead(s, m) && !s.now(m.tick)
    ensures AfterLoop(s, m) == if m.job.status == Complete then (m, true) else AfterExpire(s, m)
  {
    hide AfterAttempt, AfterFail, AfterExpire;
  }

  /** A durable receipt is the one its token came with. */
  lemma {:induction false} DurablePaired(first: Job, t: seq<Event>)
    requires Safe(first, t)
    ensures
      var d := Durable(first, t);
      Given(d.token) && Given(d.deliveryId) ==> Paired(first, t, d.token, d.deliveryId)
  {
    if t != [] {
      DurablePaired(first, t[..|t| - 1]);
      var d := Durable(first, t);
      PairedKept(first, t[..|t| - 1], t, d.token, d.deliveryId);
    }
  }

  /** Nothing of the run changed but, possibly, a save that did not finish. */
  predicate SameRun(before: Run, after: Run) {
    && after.installs == before.installs && after.lock == before.lock
    && (after.savesFinished ==> before.savesFinished) && (before.held ==> after.held)
  }

  lemma PairedKept(first: Job, t: seq<Event>, longer: seq<Event>, token: Option<string>, id: Option<string>)
    requires t <= longer
    ensures Paired(first, t, token, id) ==> Paired(first, longer, token, id)
  {
  }

  // ---------------------------------------------------------------------------
  // What a reader of a safe history may conclude
  // ---------------------------------------------------------------------------

  lemma {:induction false} SafePrefix(first: Job, t: seq<Event>, i: nat)
    requires Safe(first, t) && i <= |t|
    ensures Safe(first, t[..i])
    ensures i < |t| ==> Allowed(first, t[..i], t[i])
    decreases |t|
  {
    if i == |t| {
      assert t[..i] == t;
    } else if i + 1 == |t| {
    } else {
      SafePrefix(first, t[..|t| - 1], i);
      assert t[..|t| - 1][..i] == t[..i];
    }
  }

  /** Every delivery was followed by a save that replaced the file, or by a new run. */
  predicate SavedSince(t: seq<Event>) {
    forall k | 0 <= k < |t| && t[k].Delivered? :: exists j | k < j < |t| :: t[j].Saved? || t[j] == Started
  }

  lemma {:induction false} HeldIsSaved(t: seq<Event>)
    ensures RunOf(t).held <==> SavedSince(t)
  {
    if t != [] {
      var n := |t| - 1;
      var prefix := t[..n];
      HeldIsSaved(prefix);
      if t[n].Saved? || t[n] == Started {
        forall k | 0 <= k < |t| && t[k].Delivered? ensures exists j | k < j < |t| :: t[j].Saved? || t[j] == Started {
          assert t[n].Saved? || t[n] == Started;
        }
      } else {
        SavedSinceStep(t);
      }
    }
  }

  lemma SavedSinceStep(t: seq<Event>)
    requires t != [] && !t[|t| - 1].Saved? && t[|t| - 1] != Started
    ensures SavedSince(t) <==> SavedSince(t[..|t| - 1]) && !t[|t| - 1].Delivered?
  {
    hide SavedSince;
    if SavedSince(t) { SavedBefore(t); }
    if SavedSince(t[..|t| - 1]) && !t[|t| - 1].Delivered? { SavedAfter(t); }
  }

  lemma SavedBefore(t: seq<Event>)
    requires t != [] && !t[|t| - 1].Saved? && t[|t| - 1] != Started && SavedSince(t)
    ensures SavedSince(t[..|t| - 1]) && !t[|t| - 1].Delivered?
  {
    var prefix := t[..|t| - 1];
    forall k | 0 <= k < |prefix| && prefix[k].Delivered?
      ensures exists j | k < j < |prefix| :: prefix[j].Saved? || prefix[j] == Started
    {
      assert t[k].Delivered?;
      var j :| k < j < |t| && (t[j].Saved? || t[j] == Started);
      assert prefix[j] == t[j];
    }
  }

  lemma SavedAfter(t: seq<Event>)
    requires t != [] && SavedSince(t[..|t| - 1]) && !t[|t| - 1].Delivered?
    ensures SavedSince(t)
  {
    var prefix := t[..|t| - 1];
    forall k | 0 <= k < |t| && t[k].Delivered? ensures exists j | k < j < |t| :: t[j].Saved? || t[j] == Started {
      assert prefix[k].Delivered?;
      var j :| k < j < |prefix| && (prefix[j].Saved? || prefix[j] == Started);
      assert t[j].Saved? || t[j] == Started;
    }
  }

  /**
   * The service is told a receipt arrived while the file holds it, with the token it came
   * with, exactly when every delivery so far was followed by a save that replaced the file
   * or by a new run; otherwise the file holds no token at all.
   */
  lemma ReceiptBeforeAcknowledgement(first: Job, t: seq<Event>, i: nat)
    requires Safe(first, t) && i < |t| && t[i].AckCall?
    ensures
      var d := Durable(first, t[..i]);
      && (SavedSince(t[..i]) <==> Given(d.token) && d.deliveryId == Some(t[i].deliveryId))
      && (SavedSince(t[..i]) <==> Given(d.token))
      && (SavedSince(t[..i]) ==>
            (d.token == first.token && d.deliveryId == first.deliveryId)
            || exists k | 0 <= k < i :: t[k] == Delivered(d.token.value, t[i].deliveryId))
  {
    SafePrefix(first, t, i);
    HeldIsSaved(t[..i]);
    var d := Durable(first, t[..i]);
    if SavedSince(t[..i]) && (d.token != first.token || d.deliveryId != first.deliveryId) {
      var k :| 0 <= k < |t[..i]| && t[..i][k] == Delivered(d.token.value, t[i].deliveryId);
      assert t[k] == Delivered(d.token.value, t[i].deliveryId);
    }
  }

  /** A durable token, its receipt and its acknowledgement are never dropped or replaced. */
  lemma {:induction false} TokenIsKept(first: Job, t: seq<Event>, i: nat, j: nat)
    requires Safe(first, t) && i <= j <= |t|
    ensures
      var d, later := Durable(first, t[..i]), Durable(first, t[..j]);
      && (Given(d.token) ==> later.token == d.token && later.deliveryId == d.deliveryId)
      && (d.acknowledged ==> later.acknowledged)
      && (Settled(d.status) ==> later == d)
      && (d.status == Complete ==> later.status == Complete || later.status == Failed)
    decreases j - i
  {
    if i < j {
      TokenIsKept(first, t, i, j - 1);
      SafePrefix(first, t, j - 1);
      assert t[..j][..j - 1] == t[..j - 1];
    }
  }

  lemma {:induction false} InstallsCounted(t: seq<Event>, i: nat, j: nat)
    requires i < j <= |t| && t[i] == InstallCall
    requires forall k | i < k < j :: t[k] != Started
    ensures RunOf(t[..j]).installs > 0
    decreases j - i
  {
    assert t[..j][..j - 1] == t[..j - 1];
    if i + 1 < j { InstallsCounted(t, i, j - 1); }
  }

  /** Two installs are always in different runs. */
  lemma InstallOncePerRun(first: Job, t: seq<Event>, i: nat, j: nat)
    requires Safe(first, t) && i < j < |t| && t[i] == InstallCall && t[j] == InstallCall
    ensures exists k | i < k < j :: t[k] == Started
  {
    SafePrefix(first, t, j);
    if forall k | i < k < j :: t[k] != Started { InstallsCounted(t, i, j); }
  }

  predicate EndsSection(e: Event) { e == LockTaken || e == LockLeft || e == Started }

  /** Where the lock was taken and the clearing answer came. */
  lemma {:induction false} ClearanceOf(t: seq<Event>) returns (l: nat, s: nat)
    requires RunOf(t).lock != Outside
    ensures l <= s <= |t| && l < |t| && t[l] == LockTaken
    ensures forall k | l < k < |t| :: !EndsSection(t[k])
    ensures RunOf(t).lock == Cleared ==> l < s < |t| && t[s] == StatusAnswer("installed")
    ensures RunOf(t).lock == Cleared ==> forall k | s < k < |t| :: !t[k].StatusAnswer?
  {
    var n := |t| - 1;
    var prefix := t[..n];
    if t[n] == LockTaken {
      l, s := n, n;
    } else {
      l, s := ClearanceOf(prefix);
      assert forall k | 0 <= k < n :: t[k] == prefix[k];
      if t[n] == StatusAnswer("installed") { s := n; } else if t[n].StatusAnswer? { s := l; }
    }
  }

  /** An install happens in a lock section whose last status answer was `installed`, on a prepared job. */
  lemma InstallIsCleared(first: Job, t: seq<Event>, i: nat) returns (l: nat, s: nat)
    requires Safe(first, t) && i < |t| && t[i] == InstallCall
    ensures l < s < i && t[l] == LockTaken && t[s] == StatusAnswer("installed")
    ensures forall k | l < k < i :: !EndsSection(t[k])
    ensures forall k | s < k < i :: !t[k].StatusAnswer?
    ensures Durable(first, t[..i]).status == Installing && Given(Durable(first, t[..i]).token)
  {
    SafePrefix(first, t, i);
    l, s := ClearanceOf(t[..i]);
    assert forall k | 0 <= k < i :: t[k] == t[..i][k];
  }

  // ---------------------------------------------------------------------------
  // Runs in which a promise is broken
  // ---------------------------------------------------------------------------

  const WAITING := Job(AwaitingApproval, None, None, false, None, None)

  /** The portal is offline, the token is there, every save is refused, and the process dies at its sixth await. */
  function RefusingService(): Service {
    Service(6, t => true, t => Returned(Delivery("installed", Some("xoxb-token"), Some("receipt"))),
            t => Rejected(Error(500, "")), t => Returned(()), t => Returned(()),
            t => SaveResult(false, Some(Error(0, "io"))), t => false)
  }

  /** The first turn: the token arrives, its save is refused, and the error is retried. */
  lemma FirstTurnRefused(m: Machine)
    requires m.tick == 0 && m.job == WAITING && m.reported == None
    ensures var r := AfterAttempt(RefusingService(), m);
            && r.1 == Raise(Error(0, "io")) && !r.2 && r.0.tick == 3 && r.0.disk == m.disk
            && r.0.trace == m.trace + [Delivered("xoxb-token", "receipt"), SaveRejected]
            && r.0.job == WAITING.(token := Some("xoxb-token"), deliveryId := Some("receipt"), status := Installing)
            && r.0.reported == None
  {
    assert StartsWith("xoxb-token", "xoxb-");
    var e := [Delivered("xoxb-token", "receipt")];
    assert m.trace + e + [SaveRejected] == m.trace + [Delivered("xoxb-token", "receipt"), SaveRejected];
  }

  /** The second turn: the token is in memory, so the receipt is acknowledged; then the process dies. */
  lemma SecondTurnAcknowledges(m: Machine)
    requires m.tick == 4 && m.reported == None && m.job.status == Installing
    requires m.job.token == Some("xoxb-token") && m.job.deliveryId == Some("receipt") && !m.job.acknowledged
    ensures var r := AfterAttempt(RefusingService(), m);
            r.1 == Gone && r.0.disk == m.disk && r.0.trace == m.trace + [AckCall("receipt")]
  {
  }

  lemma RefusedRun(m: Machine)
    requires m.disk == WAITING && m.trace == []
    ensures var r := AfterRun(RefusingService(), m);
            r.0.disk == WAITING
            && r.0.trace == [Started, Delivered("xoxb-token", "receipt"), SaveRejected, AckCall("receipt")]
  {
    hide AfterAttempt, AfterLoop, AfterRun;
    var s := RefusingService();
    RunBegins(s, m);
    var m1 := Recorded(m.(tick := 0), Started).(job := WAITING, reported := None);
    LoopTurns(s, m1);
    FirstTurnRefused(m1);
    var m2 := Awaited(AfterAttempt(s, m1).0);
    LoopTurns(s, m2);
    SecondTurnAcknowledges(m2);
  }

  /**
   * A save that is refused while the process lives on leaves the receipt in memory
   * only; the next turn acknowledges it, and the process's death then loses the token.
   */
  method RefusedSaveLosesReceipt() returns (w: Worker)
    ensures Safe(w.first, w.trace) && w.disk == Durable(w.first, w.trace) && !Given(w.disk.token)
    ensures w.trace == [Started, Delivered("xoxb-token", "receipt"), SaveRejected, AckCall("receipt")]
  {
    hide AfterRun, Safe, Durable, RunOf;
    w := new Worker(WAITING, RefusingService());
    RefusedRun(w.Now());
    var _ := w.RunSlackJob(RefusingService());
  }

  const FINISHED := Job(Complete, Some("xoxb-token"), Some("receipt"), true, Some(Installing), None)

  /** The portal no longer accepts the device; everything else works. */
  function SignedOutService(): Service {
    Service(9, t => true, t => Returned(Delivery("installed", None, None)), t => Rejected(Error(401, "")),
            t => Returned(()), t => Returned(()), t => SaveResult(true, None), t => false)
  }

  lemma SignedOutRun(m: Machine)
    requires m.disk == FINISHED && m.trace == []
    ensures var r := AfterRun(SignedOutService(), m);
            var failed := FINISHED.(status := Failed, error := Some("sign_in_required"));
            r.0.disk == failed && r.0.trace == [Started, Saved(failed)]
  {
    hide AfterLoop, AfterRun;
    var s := SignedOutService();
    RunBegins(s, m);
    var m1 := Recorded(m.(tick := 0), Started).(job := FINISHED, reported := Some(Installing));
    LoopTurns(s, m1);
    assert AfterAttempt(s, m1).1 == Raise(Error(401, ""));
    assert [Started] + [Saved(AfterFail(s, AfterAttempt(s, m1).0, Error(401, "")).0.job)]
        == [Started, Saved(AfterFail(s, AfterAttempt(s, m1).0, Error(401, "")).0.job)];
  }

  /** A complete job is found, its report is refused with a sign-out error, and the job becomes failed. */
  method FinishedJobFails() returns (w: Worker)
    ensures w.first == FINISHED && Safe(w.first, w.trace) && w.disk == Durable(w.first, w.trace)
    ensures w.disk == FINISHED.(status := Failed, error := Some("sign_in_required"))
    ensures w.trace == [Started, Saved(w.disk)]
  {
    hide AfterRun, Safe, Durable, RunOf;
    w := new Worker(FINISHED, SignedOutService());
    SignedOutRun(w.Now());
    var _ := w.RunSlackJob(SignedOutService());
  }

  const READY := Job(Installing, Some("xoxb-token"), Some("receipt"), true, Some(Installing), None)

  /** Everything works, but the save of the completion is rejected after it replaced the file. */
  function LateErrorService(): Service {
    Service(20, t => true, t => Returned(Delivery("installed", None, None)), t => Returned(()), t => Returned(()),
            t => Returned(()), t => SaveResult(true, if t == 6 then Some(Error(0, "io")) else None), t => false)
  }

  lemma LateErrorTurn(m: Machine)
    requires m.tick == 0 && m.job == READY && m.reported == Some(Installing)
    ensures var r, done := AfterAttempt(LateErrorService(), m), READY.(status := Complete);
      r.1 == Raise(Error(0, "io")) && r.2 && r.0.tick == 6 && r.0.job == done
      && r.0.trace == m.trace + [Saved(READY), LockTaken, StatusAnswer("installed"), InstallCall, Saved(done), SaveRejected, LockLeft]
  {
    var s, done := LateErrorService(), READY.(status := Complete);
    var ready := AfterPrepare(s, m).0;
    assert ready == Recorded(m.(tick := 1, disk := READY), Saved(READY));
    var taken := Recorded(Awaited(ready), LockTaken);
    assert AfterClear(s, taken) == (Recorded(taken, StatusAnswer("installed")).(tick := 4), Proceed);
    var cleared := AfterClear(s, taken).0;
    var installed := AfterInstall(s, cleared).0;
    assert installed == Recorded(Recorded(Recorded(cleared, InstallCall).(tick := 6, job := done, disk := done), Saved(done)), SaveRejected);
    hide AfterPrepare, AfterClear, AfterInstall;
    var e := [Saved(READY), LockTaken, StatusAnswer("installed"), InstallCall, Saved(done), SaveRejected, LockLeft];
    assert m.trace + e[..1] + e[1..2] + e[2..3] + e[3..4] + e[4..5] + e[5..6] + e[6..] == m.trace + e;
    assert Recorded(installed, LockLeft).trace == m.trace + e;
  }

  lemma LateErrorRun(m: Machine)
    requires m.disk == READY && m.trace == []
    ensures var r, done := AfterRun(LateErrorService(), m).0, READY.(status := Complete);
      var failed := done.(status := Failed, error := Some("io"));
      && r.disk == failed
      && r.trace == [Started, Saved(READY), LockTaken, StatusAnswer("installed"), InstallCall, Saved(done), SaveRejected, LockLeft,
                     Saved(failed)]
  {
    hide AfterLoop, AfterRun, AfterAttempt;
    var s := LateErrorService();
    RunBegins(s, m);
    var begun := Recorded(m.(tick := 0), Started).(job := READY, reported := Some(Installing));
    LoopTurns(s, begun);
    LateErrorTurn(begun);
    var turn := AfterAttempt(s, begun).0;
    var failed := READY.(status := Failed, error := Some("io"));
    assert AfterFail(s, turn, Error(0, "io")).0.trace == turn.trace + [Saved(failed)];
    assert [] + [Started] == [Started];
  }

  /** A job is completed in the file, the rename's own error follows, and the same run marks the job failed. */
  method CompletedJobFails() returns (w: Worker)
    ensures w.first == READY && Safe(w.first, w.trace) && w.disk == Durable(w.first, w.trace)
    ensures var done := READY.(status := Complete);
      w.trace == [Started, Saved(READY), LockTaken, StatusAnswer("installed"), InstallCall, Saved(done), SaveRejected, LockLeft,
                  Saved(done.(status := Failed, error := Some("io")))]
    ensures w.disk.status == Failed
  {
    hide AfterRun, Safe, Durable, RunOf;
    w := new Worker(READY, LateErrorService());
    LateErrorRun(w.Now());
    var _ := w.RunSlackJob(LateErrorService());
  }
}
