/**
 * The portal's Slack stage: a durable record under which at most one app
 * is created per intent, however often the process dies while creating.
 */
module SlackPortal {
  import opened Text

  datatype Progress = Creating | Received | Complete

  datatype App = App(appId: string, appToken: string, botToken: Option<string>)

  datatype Setup = Setup(setupId: string, workspaceId: string, name: string, status: Progress, app: Option<App>)

  /** What the browser decided. */
  datatype Choice = Choice(setupId: string, skipped: bool, workspaceId: string, name: string)

  /** How a save ends when the process survives it; the rename may precede a rejection. */
  datatype SaveResult = SaveResult(renamed: bool, failed: bool)

  /**
   * One run's world: every answer, and the await at which the process is
   * killed. `finishedJob` is the app of a background job that reads `complete`.
   */
  datatype World = World(
    lifetime: nat,
    works: nat -> bool,
    save: nat -> SaveResult,
    tornAt: nat -> bool,
    extraSave: nat -> bool,
    available: bool,
    finishedJob: Option<App>,
    wait: nat -> Choice,
    workspaceActive: bool,
    statusCheck: bool,
    installed: nat -> bool,
    provision: nat -> Option<App>)

  datatype Event =
    | Started
    | Saved(record: Option<Setup>)
    | CreateCall(setupId: string, workspaceId: string, name: string)
    | CreateReturned(app: App)

  // ---------------------------------------------------------------------------
  // What a history promises
  // ---------------------------------------------------------------------------

  predicate WellFormed(r: Option<Setup>) {
    r.Some? ==> (r.value.status == Creating <==> r.value.app.None?)
  }

  predicate IsCreating(r: Option<Setup>) { r.Some? && r.value.status == Creating }

  /** The journal's record after the events of `t`. */
  function Durable(first: Option<Setup>, t: seq<Event>): Option<Setup> {
    if t == [] then first
    else if t[|t| - 1].Saved? then t[|t| - 1].record
    else Durable(first, t[..|t| - 1])
  }

  /** What became of the latest create call, as far as the journal knows. */
  datatype Outstanding = Nothing | Unknown | Answered(app: App)

  function Records(r: Option<Setup>, app: App): bool {
    r.Some? && r.value.status == Received && r.value.app == Some(app)
  }

  function Book(first: Option<Setup>, t: seq<Event>): Outstanding {
    if t == [] then if IsCreating(first) then Unknown else Nothing
    else
      var b := Book(first, t[..|t| - 1]);
      match t[|t| - 1]
      case Started => if b.Answered? then Unknown else b
      case CreateCall(_, _, _) => Unknown
      case CreateReturned(app) => Answered(app)
      case Saved(r) => if b.Answered? && Records(r, b.app) then Nothing else b
  }

  /** While a create is outstanding its record stays, or becomes the record of its answer. */
  predicate MayReplace(b: Outstanding, before: Option<Setup>, after: Option<Setup>) {
    match b
    case Nothing => true
    case Unknown => after == before
    case Answered(app) => after == before || (before.Some? && after == Some(before.value.(status := Received, app := Some(app))))
  }

  predicate Allowed(first: Option<Setup>, t: seq<Event>, e: Event) {
    var d, b := Durable(first, t), Book(first, t);
    match e
    case Saved(r) => WellFormed(r) && MayReplace(b, d, r)
    case CreateCall(id, workspace, name) => b == Nothing && d == Some(Setup(id, workspace, name, Creating, None))
    case CreateReturned(_) => b == Unknown && IsCreating(d)
    case Started => true
  }

  predicate Safe(first: Option<Setup>, t: seq<Event>) {
    t == [] || (Safe(first, t[..|t| - 1]) && Allowed(first, t[..|t| - 1], t[|t| - 1]))
  }

  lemma Extend(first: Option<Setup>, t: seq<Event>, e: Event)
    requires Safe(first, t) && Allowed(first, t, e)
    ensures Safe(first, t + [e])
    ensures Durable(first, t + [e]) == if e.Saved? then e.record else Durable(first, t)
  {
    assert (t + [e])[..|t|] == t;
  }

  /** As long as a create is outstanding, the file says so. */
  lemma {:induction false} OutstandingIsDurable(first: Option<Setup>, t: seq<Event>)
    requires WellFormed(first) && Safe(first, t)
    ensures WellFormed(Durable(first, t))
    ensures Book(first, t) != Nothing ==> IsCreating(Durable(first, t))
  {
    if t != [] { OutstandingIsDurable(first, t[..|t| - 1]); }
  }

  /** The create calls of a history. */
  function Creates(t: seq<Event>): seq<Event> {
    if t == [] then [] else Creates(t[..|t| - 1]) + if t[|t| - 1].CreateCall? then [t[|t| - 1]] else []
  }

  lemma CreatesExtend(t: seq<Event>, e: Event)
    ensures Creates(t + [e]) == Creates(t) + if e.CreateCall? then [e] else []
  {
    assert (t + [e])[..|t|] == t;
  }

  // ---------------------------------------------------------------------------
  // Runs without trouble
  // ---------------------------------------------------------------------------

  /** The process lives on, every call and save works, and the answers stay the same while the run lasts. */
  ghost predicate Steady(w: World) {
    && w.lifetime > 40
    && (forall n :: w.works(n) && w.save(n) == SaveResult(true, false))
    && forall n :: w.wait(n) == w.wait(0) && w.installed(n) == w.installed(0) && w.provision(n) == w.provision(0)
  }

  /** The record once a finished background job for the same app is taken over. */
  function Adopted(w: World, r: Option<Setup>): Option<Setup> {
    match (w.finishedJob, r)
    case (Some(job), Some(Setup(id, workspace, name, _, Some(app)))) =>
      if job.appId == app.appId then Some(Setup(id, workspace, name, Complete, Some(job))) else r
    case _ => r
  }

  /** A finished setup of the chosen workspace and name, with both its tokens. */
  predicate Finished(r: Setup, choice: Choice) {
    && r.status == Complete && r.workspaceId == choice.workspaceId && r.name == choice.name
    && r.app.Some? && r.app.value.appToken != "" && r.app.value.botToken.Some? && r.app.value.botToken.value != ""
  }

  /** The record's app is the one for this choice. */
  predicate Serves(r: Setup, choice: Choice) {
    r.setupId == choice.setupId || (r.status == Received && r.workspaceId == choice.workspaceId && r.name == choice.name)
  }

  /** The record is of a create that may be under way, or already has the app for this choice. */
  predicate Taken(r: Option<Setup>, choice: Choice) { r.Some? && (r.value.status == Creating || Serves(r.value, choice)) }

  /**
   * How serving a choice ends without trouble, given the record `r`: which app it hands out, what it
   * leaves in the file, and what it creates.
   */
  ghost predicate Served(
    w: World, r: Option<Setup>, choice: Choice, o: Outcome, app: Option<App>, after: Option<Setup>, created: seq<Event>)
  {
    if !w.workspaceActive then o == Threw && app.None? && after == r && created == []
    else if r.Some? && Finished(r.value, choice) && !w.statusCheck then o == Threw && app.None? && after == r && created == []
    else if r.Some? && r.value.status == Creating then o == Threw && app.None? && after == r && created == []
    else if r.Some? && Finished(r.value, choice) && w.installed(0) then
      o == Ok && app == r.value.app && after == Some(r.value.(setupId := choice.setupId)) && created == []
    else if r.Some? && Serves(r.value, choice) then o == Ok && app == r.value.app && after == r && created == []
    else
      && created == [CreateCall(choice.setupId, choice.workspaceId, choice.name)]
      && match w.provision(0)
         case None =>
           o == Threw && app.None? && after == Some(Setup(choice.setupId, choice.workspaceId, choice.name, Creating, None))
         case Some(made) =>
           o == Ok && app == Some(made) && after == Some(Setup(choice.setupId, choice.workspaceId, choice.name, Received, Some(made)))
  }

  /** The stage itself refuses to go on: the workspace is gone, the finished setup cannot be verified, or a create is open. */
  predicate Refuses(w: World, r: Option<Setup>, choice: Choice) {
    || !w.workspaceActive
    || (r.Some? && Finished(r.value, choice) && !w.statusCheck)
    || (r.Some? && r.value.status == Creating)
  }

  /** How a run without trouble ends: skipped when the stage or the browser says so, or with its choice served. */
  ghost predicate Concludes(w: World, before: Option<Setup>, o: Outcome, app: Option<App>, after: Option<Setup>, created: seq<Event>) {
    if !w.available || w.wait(0).skipped then o == Skipped && app.None? && after == Adopted(w, before) && created == []
    else Served(w, Adopted(w, before), w.wait(0), o, app, after, created)
  }

  /** What a run may create: nothing, or one app for the choice, in an active workspace, with no other create open. */
  predicate MayCreate(w: World, r: Option<Setup>, choice: Choice, created: seq<Event>) {
    || created == []
    || (&& created == [CreateCall(choice.setupId, choice.workspaceId, choice.name)]
        && w.workspaceActive && !choice.skipped && !Taken(r, choice))
  }

  // ---------------------------------------------------------------------------
  // The portal stage
  // ---------------------------------------------------------------------------

  /** How a piece of the stage ends. */
  datatype Outcome = Ok | Skipped | Threw | Killed

  class Portal {
    const first: Option<Setup>
    /** The journal's record and everything observable that has happened, across runs. */
    var disk: Option<Setup>
    var trace: seq<Event>
    /** The current run. */
    var world: World
    var tick: nat
    var local: Option<Setup>
    /** How many calls and saves of the current run failed. */
    var faults: nat

    constructor (first: Option<Setup>, world: World)
      requires WellFormed(first)
      ensures Linked() && trace == [] && this.first == first
    {
      this.first, disk, trace := first, first, [];
      this.world, tick, local, faults := world, 0, first, 0;
    }

    ghost predicate Linked()
      reads this
    {
      WellFormed(first) && disk == Durable(first, trace) && Safe(first, trace)
    }

    /** The record in memory may be saved. */
    ghost predicate Running()
      reads this
    {
      Linked() && tick < world.lifetime && WellFormed(local) && MayReplace(Book(first, trace), disk, local)
    }

    method Log(e: Event)
      requires Linked() && !e.Saved? && Allowed(first, trace, e)
      modifies this`trace
      ensures Linked() && trace == old(trace) + [e]
      ensures Creates(trace) == old(Creates(trace)) + if e.CreateCall? then [e] else []
    {
      CreatesExtend(trace, e);
      Extend(first, trace, e);
      trace := trace + [e];
    }

    method Await() returns (alive: bool)
      requires tick < world.lifetime
      modifies this`tick
      ensures tick == old(tick) + 1
      ensures alive == (tick < world.lifetime)
    {
      tick := tick + 1;
      alive := tick < world.lifetime;
    }

    /** Any call whose answer the record does not depend on. */
    method Call() returns (o: Outcome)
      requires tick < world.lifetime
      modifies this`tick, this`faults
      ensures o != Skipped && tick == old(tick) + 1
      ensures o == Killed <==> tick >= world.lifetime
      ensures o == Threw <==> tick < world.lifetime && !world.works(tick)
      ensures faults == old(faults) + if o == Threw then 1 else 0
      ensures Steady(world) && tick < 40 ==> o == Ok
    {
      var alive := Await();
      if alive && !world.works(tick) { faults := faults + 1; }
      return if !alive then Killed else if world.works(tick) then Ok else Threw;
    }

    /** Write the journal. */
    method Save() returns (o: Outcome)
      requires Running()
      modifies this`tick, this`disk, this`trace, this`faults
      ensures Linked() && old(trace) <= trace && o != Skipped
      ensures o == Killed <==> tick >= world.lifetime
      ensures o == Threw <==> tick < world.lifetime && world.save(tick).failed
      ensures faults == old(faults) + if o == Threw then 1 else 0
      ensures o != Killed ==> Running()
      ensures o == Ok ==> disk == local
      ensures Book(first, trace) == old(Book(first, trace))
           || (old(Book(first, trace)).Answered? && Book(first, trace) == Nothing)
      ensures trace == old(trace) || trace == old(trace) + [Saved(local)]
      ensures o == Ok ==> trace == old(trace) + [Saved(local)]
      ensures disk == old(disk) || disk == local
      ensures tick == old(tick) + 1 && Creates(trace) == old(Creates(trace))
      ensures Steady(world) && tick < 40 ==> o == Ok
    {
      CreatesExtend(trace, Saved(local));
      var alive := Await();
      var result := if alive then world.save(tick) else SaveResult(world.tornAt(tick), true);
      if result.renamed || !result.failed {
        Extend(first, trace, Saved(local));
        OutstandingIsDurable(first, trace);
        disk := local;
        trace := trace + [Saved(local)];
      }
      if alive && result.failed { faults := faults + 1; }
      return if !alive then Killed else if result.failed then Threw else Ok;
    }

    /** A call after which the client may also write its journal. */
    method CallAndMaybeSave() returns (o: Outcome)
      requires Running()
      modifies this`tick, this`disk, this`trace, this`faults
      ensures Linked() && old(trace) <= trace && o != Skipped
      ensures o != Killed ==> Running()
      ensures faults == old(faults) + if o == Threw then 1 else 0
      ensures !old(Book(first, trace)).Answered? ==> Book(first, trace) == old(Book(first, trace))
      ensures disk == old(disk) || disk == local
      ensures tick <= old(tick) + 2 && Creates(trace) == old(Creates(trace))
      ensures Steady(world) && old(tick) + 2 < 40 ==> o == Ok
    {
      o := Call();
      if o == Ok && world.extraSave(tick) { o := Save(); }
    }

    /** Open the journal, register, adopt a finished background job, and start the flow. */
    method BeginPortal() returns (o: Outcome)
      requires Linked() && tick < world.lifetime && !Book(first, trace).Answered?
      modifies this`tick, this`disk, this`trace, this`local, this`faults
      ensures Linked() && old(trace) <= trace
      ensures o == Ok ==> Running() && !Book(first, trace).Answered?
      ensures o == Ok ==> world.available && disk == local && local == Adopted(world, old(disk))
      ensures faults == old(faults) + if o == Threw then 1 else 0
      ensures o == Skipped ==> !world.available
      ensures disk == old(disk) || disk == Adopted(world, old(disk))
      ensures tick <= old(tick) + 7 && Creates(trace) == old(Creates(trace))
      ensures Steady(world) && old(tick) + 7 < 40 ==>
        o == (if world.available then Ok else Skipped) && disk == Adopted(world, old(disk))
    {
      hide Safe, Durable, Creates;
      local := disk;
      OutstandingIsDurable(first, trace);
      o := Save();
      if o != Ok { return; }
      o := CallAndMaybeSave();
      if o != Ok { return; }
      o := AdoptFinishedJob();
      if o != Ok { return; }
      o := Call();
      if o != Ok { return; }
      if !world.available { return Skipped; }
      o := CallAndMaybeSave();
    }

    method AdoptFinishedJob() returns (o: Outcome)
      requires Running() && !Book(first, trace).Answered? && disk == local
      modifies this`tick, this`disk, this`trace, this`local, this`faults
      ensures Linked() && old(trace) <= trace && o != Skipped
      ensures o == Ok ==> Running() && !Book(first, trace).Answered?
      ensures o == Ok ==> disk == local == Adopted(world, old(disk))
      ensures faults == old(faults) + if o == Threw then 1 else 0
      ensures disk == old(disk) || disk == Adopted(world, old(disk))
      ensures tick <= old(tick) + 1 && Creates(trace) == old(Creates(trace))
      ensures Steady(world) && old(tick) + 1 < 40 ==> o == Ok
    {
      OutstandingIsDurable(first, trace);
      if world.finishedJob.Some? && local.Some? && local.value.app.Some?
         && world.finishedJob.value.appId == local.value.app.value.appId {
        local := Some(local.value.(status := Complete, app := world.finishedJob));
        o := Save();
        return;
      }
      return Ok;
    }

    /** The stage: at most one create, recorded before it is called and after it answers. */
    method RunSlackPortal(world: World) returns (o: Outcome, app: Option<App>)
      requires Linked()
      modifies this
      ensures Linked() && old(trace) <= trace
      ensures o == Ok ==> disk.Some? && disk.value.app == app && app.Some?
      ensures o == Ok ==> world.available && exists n :: !world.wait(n).skipped && Serves(disk.value, world.wait(n))
      ensures o == Ok ==> world.workspaceActive
      ensures o != Ok ==> app.None?
      ensures o == Ok || o == Skipped ==> faults == 0
      ensures o == Threw && faults == 0 ==> exists n :: Refuses(world, Adopted(world, old(disk)), world.wait(n))
      ensures o == Skipped ==> !world.available || exists n :: world.wait(n).skipped
      ensures old(Creates(trace)) <= Creates(trace)
      ensures exists n :: MayCreate(world, Adopted(world, old(disk)), world.wait(n), Creates(trace)[|old(Creates(trace))|..])
      ensures Steady(world) ==> Concludes(world, old(disk), o, app, disk, Creates(trace)[|old(Creates(trace))|..])
    {
      hide Safe, Durable, Creates, Served, Serves, Taken, Adopted;
      this.world, tick, app, faults := world, 0, None, 0;
      assert MayCreate(world, Adopted(world, disk), world.wait(0), []);
      if world.lifetime == 0 { return Killed, None; }
      Log(Started);
      o := BeginPortal();
      if o != Ok { return; }
      o := CallAndMaybeSave();
      if o != Ok { return; }
      var choice := world.wait(tick);
      assert MayCreate(world, Adopted(world, old(disk)), choice, []);
      o := CallAndMaybeSave();
      if o != Ok { return; }
      if choice.skipped { return Skipped, None; }
      o, app := Serve(choice);
    }

    /** Hand out the app for the browser's choice. */
    method Serve(choice: Choice) returns (o: Outcome, app: Option<App>)
      requires Running() && !Book(first, trace).Answered? && disk == local && !choice.skipped
      modifies this`tick, this`disk, this`trace, this`local, this`faults
      ensures Linked() && old(trace) <= trace && o != Skipped
      ensures o == Ok ==> disk.Some? && disk.value.app == app && app.Some? && Serves(disk.value, choice) && world.workspaceActive
      ensures o != Ok ==> app.None?
      ensures o == Ok ==> faults == old(faults)
      ensures o == Threw && faults == old(faults) ==> Refuses(world, old(disk), choice)
      ensures old(Creates(trace)) <= Creates(trace)
      ensures MayCreate(world, old(disk), choice, Creates(trace)[|old(Creates(trace))|..])
      ensures Steady(world) && old(tick) < 20 ==>
        Served(world, old(disk), choice, o, app, disk, Creates(trace)[|old(Creates(trace))|..])
    {
      hide Safe, Durable, Creates;
      app := None;
      o := Call();
      if o != Ok { return; }
      if !world.workspaceActive { return Threw, None; }
      o := ReuseCompleted(choice);
      if o != Ok { return; }
      OutstandingIsDurable(first, trace);
      if IsCreating(local) { return Threw, None; }
      if !Covers(local, choice) {
        o := Create(choice);
        if o != Ok {
          if o == Threw { var _ := Call(); }
          return;
        }
      }
      o, app := HandOut();
    }

    /** Without a bot token the installation goes on in the portal; either way the record is saved once more. */
    method HandOut() returns (o: Outcome, app: Option<App>)
      requires Running() && local.Some? && local.value.app.Some?
      modifies this`tick, this`disk, this`trace, this`faults
      ensures Linked() && old(trace) <= trace && o != Skipped
      ensures app == if o == Ok then local.value.app else None
      ensures o == Ok ==> disk == local
      ensures disk == old(disk) || disk == local
      ensures faults == old(faults) + if o == Threw then 1 else 0
      ensures tick <= old(tick) + 2 && Creates(trace) == old(Creates(trace))
      ensures Steady(world) && old(tick) + 2 < 40 ==> o == Ok
    {
      hide Safe, Durable, Creates;
      app := None;
      if !Given(local.value.app.value.botToken) {
        o := Call();
        if o != Ok { return; }
      }
      o := Save();
      if o == Ok { app := local.value.app; }
    }

    /** A completed setup whose app is still installed serves a new flow with the same answers. */
    method ReuseCompleted(choice: Choice) returns (o: Outcome)
      requires Running() && !Book(first, trace).Answered?
      modifies this`tick, this`local, this`faults
      ensures Linked() && (o == Ok ==> Running())
      ensures o != Skipped && tick <= old(tick) + 1
      ensures o == Ok ==> faults == old(faults)
      ensures o == Threw && faults == old(faults) ==> Refuses(world, old(local), choice)
      ensures local == old(local)
           || (old(local).Some? && Finished(old(local).value, choice)
               && local == Some(old(local).value.(setupId := choice.setupId)))
      ensures Steady(world) && old(tick) + 1 < 40 ==>
        if old(local).Some? && Finished(old(local).value, choice) then
          if !world.statusCheck then o == Threw
          else o == Ok && local == if world.installed(0) then Some(old(local).value.(setupId := choice.setupId)) else old(local)
        else o == Ok && local == old(local)
    {
      OutstandingIsDurable(first, trace);
      if local.Some? && local.value.status == Complete && local.value.workspaceId == choice.workspaceId
         && local.value.name == choice.name && local.value.app.Some?
         && Given(local.value.app.value.botToken) && local.value.app.value.appToken != "" {
        if !world.statusCheck { return Threw; }
        o := Call();
        if o == Ok && world.installed(tick) {
          local := Some(local.value.(setupId := choice.setupId));
        }
        return;
      }
      return Ok;
    }

    /** Persist the intent, create, persist the answer. */
    method Create(choice: Choice) returns (o: Outcome)
      requires Running() && Book(first, trace) == Nothing
      modifies this`tick, this`disk, this`trace, this`local, this`faults
      ensures Linked() && old(trace) <= trace && o != Skipped
      ensures o == Ok ==> Running() && disk == local && local.Some? && local.value.status == Received
      ensures o == Ok ==> local.value.app.Some? && CreateReturned(local.value.app.value) in trace
      ensures o == Ok ==> local.value.(status := Creating, app := None)
                          == Setup(choice.setupId, choice.workspaceId, choice.name, Creating, None)
      ensures o == Threw ==> tick < world.lifetime
      ensures faults == old(faults) + if o == Threw then 1 else 0
      ensures tick <= old(tick) + 3
      ensures Creates(trace) == old(Creates(trace))
           || Creates(trace) == old(Creates(trace)) + [CreateCall(choice.setupId, choice.workspaceId, choice.name)]
      ensures Steady(world) && old(tick) + 3 < 40 ==>
        && Creates(trace) == old(Creates(trace)) + [CreateCall(choice.setupId, choice.workspaceId, choice.name)]
        && o == (if world.provision(0).Some? then Ok else Threw)
        && (o == Threw ==> disk == Some(Setup(choice.setupId, choice.workspaceId, choice.name, Creating, None)))
        && (o == Ok ==> local.value.app == world.provision(0))
    {
      hide Safe, Durable, Creates;
      local := Some(Setup(choice.setupId, choice.workspaceId, choice.name, Creating, None));
      o := Save();
      if o != Ok { return; }
      Log(CreateCall(choice.setupId, choice.workspaceId, choice.name));
      var alive := Await();
      if !alive { return Killed; }
      var answer := world.provision(tick);
      if answer.None? {
        faults := faults + 1;
        return Threw;
      }
      Log(CreateReturned(answer.value));
      local := Some(local.value.(status := Received, app := answer));
      o := Save();
    }
  }

  predicate Given(o: Option<string>) { o.Some? && o.value != "" }

  /** The record already answers this flow, or holds an app received for the same choice. */
  predicate Covers(r: Option<Setup>, choice: Choice) {
    r.Some? && (r.value.setupId == choice.setupId
                || (r.value.status == Received && r.value.workspaceId == choice.workspaceId && r.value.name == choice.name))
  }

  // ---------------------------------------------------------------------------
  // What a reader of a safe history may conclude
  // ---------------------------------------------------------------------------

  lemma {:induction false} SafePrefix(first: Option<Setup>, t: seq<Event>, i: nat)
    requires Safe(first, t) && i <= |t|
    ensures Safe(first, t[..i])
    ensures i < |t| ==> Allowed(first, t[..i], t[i])
    decreases |t|
  {
    if i == |t| {
      assert t[..i] == t;
    } else if i + 1 < |t| {
      SafePrefix(first, t[..|t| - 1], i);
      assert t[..|t| - 1][..i] == t[..i];
    }
  }

  /** Each create call is made while the journal says `creating` for exactly that call. */
  lemma CreateIsRecordedFirst(first: Option<Setup>, t: seq<Event>, i: nat)
    requires Safe(first, t) && i < |t| && t[i].CreateCall?
    ensures Durable(first, t[..i]) == Some(Setup(t[i].setupId, t[i].workspaceId, t[i].name, Creating, None))
  {
    SafePrefix(first, t, i);
  }

  /** Where an outstanding create was answered and its answer recorded. */
  lemma {:induction false} RecordedBetween(first: Option<Setup>, t: seq<Event>, i: nat, j: nat) returns (a: nat, r: nat)
    requires i < j <= |t| && t[i].CreateCall?
    requires forall k | i < k < j :: !t[k].CreateCall?
    ensures a <= r
    ensures Book(first, t[..j]) == Nothing ==> i < a < r < j && t[a].CreateReturned? && t[r].Saved? && Records(t[r].record, t[a].app)
    ensures Book(first, t[..j]).Answered? ==> i < a < j && t[a] == CreateReturned(Book(first, t[..j]).app)
    decreases j - i
  {
    a, r := i, i;
    var e := t[j - 1];
    assert t[..j][..j - 1] == t[..j - 1];
    if i + 1 < j {
      a, r := RecordedBetween(first, t, i, j - 1);
      if e.CreateReturned? { a, r := j - 1, j - 1; }
      else if e.Saved? && Book(first, t[..j - 1]).Answered? && Records(e.record, Book(first, t[..j - 1]).app) { r := j - 1; }
    }
  }

  /** Two successive creates are separated by the first one's answer being recorded as received. */
  lemma NoCreateWhileAmbiguous(first: Option<Setup>, t: seq<Event>, i: nat, j: nat) returns (a: nat, r: nat)
    requires Safe(first, t) && i < j < |t| && t[i].CreateCall? && t[j].CreateCall?
    requires forall k | i < k < j :: !t[k].CreateCall?
    ensures i < a < r < j
    ensures t[a].CreateReturned? && t[r].Saved? && Records(t[r].record, t[a].app)
  {
    SafePrefix(first, t, j);
    a, r := RecordedBetween(first, t, i, j);
  }

  /** A create whose answer was never recorded blocks every later create, in every later run. */
  lemma AmbiguityBlocks(first: Option<Setup>, t: seq<Event>, i: nat, j: nat)
    requires Safe(first, t) && i < j <= |t| && t[i].CreateCall?
    requires forall k | i < k < j :: !t[k].CreateReturned?
    ensures Durable(first, t[..j]) == Durable(first, t[..i])
    ensures j < |t| ==> !t[j].CreateCall?
    decreases j - i
  {
    UnknownStays(first, t, i, j);
    SafePrefix(first, t, j);
  }

  lemma {:induction false} UnknownStays(first: Option<Setup>, t: seq<Event>, i: nat, j: nat)
    requires Safe(first, t) && i < j <= |t| && t[i].CreateCall?
    requires forall k | i < k < j :: !t[k].CreateReturned?
    ensures Book(first, t[..j]) == Unknown && Durable(first, t[..j]) == Durable(first, t[..i])
    decreases j - i
  {
    assert t[..j][..j - 1] == t[..j - 1];
    SafePrefix(first, t, j - 1);
    if i + 1 < j { UnknownStays(first, t, i, j - 1); }
  }
}
