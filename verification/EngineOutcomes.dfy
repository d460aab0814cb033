/** What every run of the engine keeps: one outcome per directive, bracketed events, the failure latch. */
module EngineOutcomes {
  import opened Text
  import opened Directives
  import opened Vars
  import opened Engine

  // ---------------------------------------------------------------------------
  // Work on a directive touches only the tree, the variables, the journal and the calls
  // ---------------------------------------------------------------------------

  ghost predicate CallsOf(i: nat, before: seq<Call>, after: seq<Call>) {
    before <= after && forall k | |before| <= k < |after| :: after[k].index == i
  }

  /** `after` is `before` plus work done for directive `i`. */
  ghost predicate Works(i: nat, before: State, after: State) {
    && after == before.(tree := after.tree, vars := after.vars, journal := after.journal, calls := after.calls,
                        tick := after.tick, faults := after.faults)
    && before.journal <= after.journal
    && CallsOf(i, before.calls, after.calls)
    && before.faults <= after.faults
  }

  lemma CallsCompose(i: nat, a: seq<Call>, b: seq<Call>, c: seq<Call>)
    requires CallsOf(i, a, b) && CallsOf(i, b, c)
    ensures CallsOf(i, a, c)
  {
  }

  lemma WorksCompose(i: nat, a: State, b: State, c: State)
    requires Works(i, a, b) && Works(i, b, c)
    ensures Works(i, a, c)
  {
    CallsCompose(i, a.calls, b.calls, c.calls);
  }

  lemma ExecWorks(w: World, i: nat, cmd: Command, s: State)
    ensures Works(i, s, Exec(w, i, cmd, s).s)
  {
  }

  lemma {:induction false} PairsWork(w: World, i: nat, validate: Option<string>, pairs: seq<string>, json: Json, s: State)
    ensures Works(i, s, CapturePairs(w, validate, pairs, json, s).s)
  {
    if pairs != [] {
      if IndexOf(pairs[0], '=') < 1 {
        PairsWork(w, i, validate, pairs[1..], json, s);
      } else {
        var r := Capture(w, validate, PairName(pairs[0]), w.pick(json, PairPath(pairs[0])), s);
        if r.error.None? {
          PairsWork(w, i, validate, pairs[1..], json, r.s);
          WorksCompose(i, s, r.s, CapturePairs(w, validate, pairs[1..], json, r.s).s);
        }
      }
    }
  }

  lemma CaptureWorks(w: World, i: nat, validate: Option<string>, name: string, value: string, s: State)
    ensures Works(i, s, Capture(w, validate, name, value, s).s)
  {
  }

  lemma BindWorks(w: World, i: nat, spec: string, stdout: string, validate: Option<string>, s: State)
    ensures Works(i, s, BindCapture(w, spec, stdout, validate, s).s)
  {
    hide Works, CapturePairs, Capture, SplitAt, IndexOf;
    FaultWorks(i, s);
    CaptureWorks(w, i, validate, spec, stdout, s);
    if w.parse(stdout).Some? { PairsWork(w, i, validate, SplitAt(spec, ','), w.parse(stdout).value, s); }
  }

  lemma {:induction false} FieldsWork(i: nat, pairs: seq<string>, fields: map<string, string>, s: State)
    ensures Works(i, s, CaptureFields(pairs, fields, s))
  {
    if pairs != [] {
      if IndexOf(pairs[0], '=') < 1 {
        FieldsWork(i, pairs[1..], fields, s);
      } else {
        var path := PairPath(pairs[0]);
        FieldsWork(i, pairs[1..], fields, Bind(s, PairName(pairs[0]), if path in fields then Trim(fields[path]) else ""));
      }
    }
  }

  lemma RunLineWorks(w: World, i: nat, op: LineOp, l: string, s: State)
    requires op.RunCommand?
    ensures Works(i, s, DoLine(w, i, op, l, s).s)
  {
    var cmd := Shell(Filled(l, s.vars));
    var ran := Exec(w, i, cmd, s);
    ExecWorks(w, i, cmd, s);
    if op.capture.Some? {
      var stdout := Trim(Answer(w, s, cmd).text);
      BindWorks(w, i, op.capture.value, stdout, op.validate, ran.s);
      WorksCompose(i, s, ran.s, BindCapture(w, op.capture.value, stdout, op.validate, ran.s).s);
    }
  }

  lemma WriteWorks(w: World, i: nat, path: string, file: File, s: State)
    ensures Works(i, s, Write(w, path, file, s).s)
  {
  }

  lemma JournalWorks(i: nat, s: State, s1: State, e: Entry)
    requires Works(i, s, s1)
    ensures Works(i, s, Journal(s1, e))
  {
  }

  lemma InsertLineWorks(w: World, i: nat, path: string, marker: string, l: string, s: State)
    ensures Works(i, s, DoLine(w, i, InsertAt(path, marker), l, s).s)
  {
    hide Works;
    var lines := ReadLines(w, s.tree, path);
    var at := MarkerAt(lines, "<<< " + marker);
    if at == |lines| {
      FaultWorks(i, s);
    } else {
      var file := Lines(lines[..at] + [Indent(lines[at]) + l] + lines[at..]);
      WriteWorks(w, i, path, file, s);
      JournalWorks(i, s, Write(w, path, file, s).s, Appended(path, l));
    }
  }

  lemma FaultWorks(i: nat, s: State)
    ensures Works(i, s, Fault(s)) && Works(i, s, s)
  {
  }

  lemma EnvLineWorks(w: World, i: nat, l: string, s: State)
    ensures Works(i, s, DoLine(w, i, SetEnv, l, s).s)
  {
    hide Works;
    FaultWorks(i, s);
    var text := SplitLines(EnvKey(l) + "=" + Filled(EnvTemplate(l), s.vars));
    var file := Lines(WithLines(ReadLines(w, s.tree, ".env"), text));
    WriteWorks(w, i, ".env", file, s);
    JournalWorks(i, s, Write(w, ".env", file, s).s, EnvSet(EnvKey(l)));
  }

  lemma LineWorks(w: World, i: nat, op: LineOp, l: string, s: State)
    ensures Works(i, s, DoLine(w, i, op, l, s).s)
  {
    hide Works;
    FaultWorks(i, s);
    match op
    case CopyLocal =>
      if w.source(SourceOf(l)).Some? { WriteWorks(w, i, DestOf(l), w.source(SourceOf(l)).value, s); }
    case CopyBranch(branch) => ExecWorks(w, i, GitShow(branch, SourceOf(l), DestOf(l)), s);
    case AppendTo(path) =>
      var file := Lines(WithLine(ReadLines(w, s.tree, path), l));
      WriteWorks(w, i, path, file, s);
      JournalWorks(i, s, Write(w, path, file, s).s, Appended(path, l));
    case InsertAt(path, marker) => InsertLineWorks(w, i, path, marker, l, s);
    case Check => ExecWorks(w, i, Shell(Filled(l, s.vars)), s);
    case RunCommand(_, _, _) => RunLineWorks(w, i, op, l, s);
    case SetEnv => EnvLineWorks(w, i, l, s);
  }

  lemma {:induction false} EachWorks(w: World, i: nat, op: LineOp, body: seq<string>, s: State)
    ensures Works(i, s, Each(w, i, op, body, s).s)
  {
    hide DoLine;
    if body != [] {
      var r := DoLine(w, i, op, body[0], s);
      LineWorks(w, i, op, body[0], s);
      if r.error.None? {
        EachWorks(w, i, op, body[1..], r.s);
        WorksCompose(i, s, r.s, Each(w, i, op, body[1..], r.s).s);
      }
    }
  }

  lemma CopyWorks(w: World, i: nat, d: Directive, s: State)
    ensures Works(i, s, ApplyCopy(w, i, d, s).s)
  {
    hide Each;
    var branch := OrEmpty(d, "from-branch");
    var fetched := if branch == "" then Done(s, None) else Exec(w, i, GitFetch(branch), s);
    if fetched.error.None? {
      EachWorks(w, i, if branch == "" then CopyLocal else CopyBranch(branch), d.body, fetched.s);
    }
  }

  lemma FinishStreamWorks(i: nat, d: Directive, script: string, out: Streamed, s: State)
    ensures Works(i, s, FinishStream(d, script, out, s).s)
  {
    hide CaptureFields;
    var pairs := SplitAt(OrEmpty(d, "capture"), ',');
    FieldsWork(i, pairs, out.fields, s);
  }

  lemma StreamWorks(w: World, i: nat, d: Directive, s: State)
    ensures Works(i, s, ApplyStream(w, i, d, s).s)
  {
    hide FinishStream, Substitute;
    var script := JoinLines(d.body);
    var out := w.stream(s.tick + 1, Filled(script, s.vars));
    var s1 := s.(tick := s.tick + 1, calls := s.calls + [Streaming(i, Filled(script, s.vars))]);
    FinishStreamWorks(i, d, script, out, s1);
    WorksCompose(i, s, s1, FinishStream(d, script, out, s1).s);
  }

  lemma DepWorks(w: World, i: nat, d: Directive, s: State)
    ensures Works(i, s, ApplyDep(w, i, d, s).s)
  {
  }

  lemma WriteJournalWorks(w: World, i: nat, path: string, file: File, e: Entry, s: State)
    ensures Works(i, s, Write(w, path, file, s).s) && Works(i, s, Journal(Write(w, path, file, s).s, e))
  {
  }

  lemma MergeWorks(w: World, i: nat, d: Directive, s: State)
    ensures Works(i, s, ApplyMerge(w, d, s).s)
  {
    hide Works, Write;
    FaultWorks(i, s);
    var into, key := Printed(d, "into"), Printed(d, "key");
    match (w.parse(JoinLines(d.body)), ReadArray(w, s.tree, into))
    case (Some(obj), Some(items)) =>
      var value := Field(obj, key);
      var at := FindElement(items, key, value);
      WriteJournalWorks(w, i, into, Entries(items + [obj]), Merged(into, key, value, None), s);
      if at < |items| {
        WriteJournalWorks(w, i, into, Entries(items[at := obj]), Merged(into, key, value, Some(items[at])), s);
      }
    case _ =>
  }

  lemma ApplyOneWorks(w: World, i: nat, d: Directive, s: State)
    ensures Works(i, s, ApplyOne(w, i, d, s).s)
  {
    hide Works, Each, ApplyCopy, ApplyStream, ApplyDep, ApplyMerge;
    if d.kind == "copy" { CopyWorks(w, i, d, s); }
    else if d.kind == "append" { EachWorks(w, i, AppendOp(d), d.body, s); }
    else if d.kind == "dep" { DepWorks(w, i, d, s); }
    else if d.kind == "run" {
      if Effect(d) == "check" { EachWorks(w, i, Check, d.body, s); }
      else if Effect(d) == "step" { StreamWorks(w, i, d, s); }
      else { EachWorks(w, i, RunOp(d), d.body, s); }
    }
    else if d.kind == "env-set" { EachWorks(w, i, SetEnv, d.body, s); }
    else if d.kind == "json-merge" { MergeWorks(w, i, d, s); }
    else { FaultWorks(i, s); }
  }

  // ---------------------------------------------------------------------------
  // Exactly one outcome per directive
  // ---------------------------------------------------------------------------

  function SkipIndices(xs: seq<Skip>): seq<nat> { seq(|xs|, k requires 0 <= k < |xs| => xs[k].index) }

  function DeferralIndices(xs: seq<Deferral>): seq<nat> { seq(|xs|, k requires 0 <= k < |xs| => xs[k].index) }

  function TaskIndices(xs: seq<Task>): seq<nat> { seq(|xs|, k requires 0 <= k < |xs| => xs[k].index) }

  /** The directives with an outcome, as often as they have one. */
  function Outcomes(s: State): multiset<nat> {
    multiset(s.applied) + multiset(SkipIndices(s.skipped)) + multiset(DeferralIndices(s.deferred))
    + multiset(TaskIndices(s.agentTasks)) + multiset(s.bound)
  }

  /** How the result lists grew: exactly one of them, by one entry for `i`. */
  datatype Growth = ByApplied | BySkip(reason: SkipReason) | ByDeferral(message: string) | ByTask(message: string) | ByBound

  ghost predicate Grew(i: nat, g: Growth, before: State, after: State) {
    && after.applied == before.applied + (if g.ByApplied? then [i] else [])
    && after.skipped == before.skipped + (if g.BySkip? then [Skip(i, g.reason)] else [])
    && after.deferred == before.deferred + (if g.ByDeferral? then [Deferral(i, g.message)] else [])
    && after.agentTasks == before.agentTasks + (if g.ByTask? then [Task(i, g.message)] else [])
    && after.bound == before.bound + (if g.ByBound? then [i] else [])
    && after.blocked == (before.blocked || g.ByTask?)
  }

  lemma MultisetAppend(xs: seq<nat>, i: nat)
    ensures multiset(xs + [i]) == multiset(xs) + multiset{i}
    ensures xs + [] == xs
  {
  }

  lemma SameIndices(before: State, after: State)
    ensures after.skipped == before.skipped + [] ==> SkipIndices(after.skipped) == SkipIndices(before.skipped)
    ensures after.deferred == before.deferred + [] ==> DeferralIndices(after.deferred) == DeferralIndices(before.deferred)
    ensures after.agentTasks == before.agentTasks + [] ==> TaskIndices(after.agentTasks) == TaskIndices(before.agentTasks)
  {
    assert before.skipped + [] == before.skipped;
    assert before.deferred + [] == before.deferred;
    assert before.agentTasks + [] == before.agentTasks;
  }

  lemma AppendedIndices(i: nat, g: Growth, before: State, after: State)
    requires Grew(i, g, before, after)
    ensures g.BySkip? ==> SkipIndices(after.skipped) == SkipIndices(before.skipped) + [i]
    ensures g.ByDeferral? ==> DeferralIndices(after.deferred) == DeferralIndices(before.deferred) + [i]
    ensures g.ByTask? ==> TaskIndices(after.agentTasks) == TaskIndices(before.agentTasks) + [i]
  {
  }

  lemma GrewOnce(i: nat, g: Growth, before: State, after: State)
    requires Grew(i, g, before, after)
    ensures Outcomes(after) == Outcomes(before) + multiset{i}
  {
    hide SkipIndices, DeferralIndices, TaskIndices;
    SameIndices(before, after);
    AppendedIndices(i, g, before, after);
    MultisetAppend(before.applied, i);
    MultisetAppend(before.bound, i);
    MultisetAppend(SkipIndices(before.skipped), i);
    MultisetAppend(DeferralIndices(before.deferred), i);
    MultisetAppend(TaskIndices(before.agentTasks), i);
  }

  // ---------------------------------------------------------------------------
  // Events
  // ---------------------------------------------------------------------------

  /** A start whose handler returned is closed at once by its own end; nothing else ends. */
  ghost predicate Bracketed(es: seq<Emission>) {
    if es == [] then true
    else
      match es[0].event
      case OperatorShown(_, _) => Bracketed(es[1..])
      case StepEnd(_, _, _) => false
      case StepStart(i, caption) =>
        if !es[0].accepted then Bracketed(es[1..])
        else |es| > 1 && es[1].event.StepEnd? && es[1].event.index == i && es[1].event.caption == caption && Bracketed(es[2..])
  }

  lemma {:induction false} BracketedAppend(a: seq<Emission>, b: seq<Emission>)
    requires Bracketed(a) && Bracketed(b)
    ensures Bracketed(a + b)
    decreases |a|
  {
    if a == [] {
      assert a + b == b;
    } else {
      var n := if a[0].event.StepStart? && a[0].accepted then 2 else 1;
      BracketedAppend(a[n..], b);
      assert (a + b)[n..] == a[n..] + b;
    }
  }

  /** The events of one directive. */
  ghost predicate EventsOf(w: World, i: nat, d: Directive, s: State, batch: seq<Emission>) {
    || batch == []
    || (|batch| == 1 && batch[0].event.OperatorShown? && batch[0].event.index == i && d.kind == "operator" && !s.blocked)
    || (|batch| == 1 && batch[0].event == StepStart(i, w.caption(d)) && !batch[0].accepted)
    || (|batch| == 2 && batch[0] == Emission(StepStart(i, w.caption(d)), true)
        && batch[1].event.StepEnd? && batch[1].event.index == i && batch[1].event.caption == w.caption(d))
  }

  lemma EventsBracketed(w: World, i: nat, d: Directive, s: State, batch: seq<Emission>)
    requires EventsOf(w, i, d, s, batch)
    ensures Bracketed(batch)
  {
    if batch != [] { assert batch[1..] == [] || batch[2..] == []; }
  }

  // ---------------------------------------------------------------------------
  // One directive
  // ---------------------------------------------------------------------------

  predicate Latched(d: Directive) { SideEffect(Effect(d)) || Validation(Effect(d)) }

  /** What one directive does to the result, the events and the calls. */
  ghost predicate StepShape(w: World, i: nat, d: Directive, s: State, s': State) {
    && (exists g :: Grew(i, g, s, s'))
    && s.events <= s'.events && EventsOf(w, i, d, s, s'.events[|s.events|..])
    && CallsOf(i, s.calls, s'.calls)
    && (s.blocked && Latched(d) ==> s'.calls == s.calls)
    && s.journal <= s'.journal && s.faults <= s'.faults
  }

  lemma ShapeOf(w: World, i: nat, d: Directive, s: State, s': State, g: Growth, batch: seq<Emission>)
    requires Grew(i, g, s, s')
    requires s'.events == s.events + batch && EventsOf(w, i, d, s, batch)
    requires CallsOf(i, s.calls, s'.calls)
    requires s.blocked && Latched(d) ==> s'.calls == s.calls
    requires s.journal <= s'.journal && s.faults <= s'.faults
    ensures StepShape(w, i, d, s, s')
  {
    assert s'.events[|s.events|..] == batch;
  }

  function Reason(e: Thrown): Growth {
    if e.reported then ByTask(e.message)
    else if Contains(e.message, UNRESOLVED) then ByDeferral(e.message)
    else ByTask("engine could not apply (" + e.message + ")")
  }

  lemma CatchGrows(w: World, i: nat, e: Thrown, before: State, s: State)
    requires s == before.(tree := s.tree, vars := s.vars, journal := s.journal, calls := s.calls, events := s.events,
                          messages := s.messages, tick := s.tick, faults := s.faults)
    ensures Grew(i, Reason(e), before, Catch(w, i, None, e, s))
    ensures Catch(w, i, None, e, s).events == s.events
  {
  }

  lemma BindPromptShape(w: World, i: nat, d: Directive, value: string, s: State, s0: State)
    requires s == s0.(tick := s.tick)
    ensures StepShape(w, i, d, s0, BindPrompt(w, i, d, value, s))
  {
    hide StepShape, Normalize, PromptKey, Attr, Contains;
    var s' := BindPrompt(w, i, d, value, s);
    var validate, flags := Attr(d, "validate"), Attr(d, "flags");
    var e := Thrown("invalid regular expression", false);
    CatchGrows(w, i, e, s0, s);
    var g := if validate.Some? && !w.validRegex(validate.value, flags) then Reason(e)
             else if validate.Some? && !w.matches(validate.value, flags, Normalize(w, Attr(d, "normalize"), value))
             then ByDeferral(PromptKey(d) + ": invalid value") else ByBound;
    ShapeOf(w, i, d, s0, s', g, []);
  }

  lemma PromptShape(w: World, i: nat, d: Directive, s: State)
    ensures StepShape(w, i, d, s, DoPrompt(w, i, d, s))
  {
    hide BindPrompt, StepShape;
    var key := PromptKey(d);
    if key in w.inputs {
      BindPromptShape(w, i, d, w.inputs[key], s, s);
    } else {
      var s1 := s.(tick := s.tick + 1);
      match w.resolve(s1.tick, key)
      case Resolved(value) => BindPromptShape(w, i, d, value, s1, s);
      case NoAnswer => ShapeOf(w, i, d, s, DoPrompt(w, i, d, s), ByDeferral(key), []);
      case ResolveThrew(message) =>
        var e := Thrown(message, false);
        CatchGrows(w, i, e, s, Fault(s1));
        ShapeOf(w, i, d, s, DoPrompt(w, i, d, s), Reason(e), []);
    }
  }

  lemma OperatorShape(w: World, i: nat, d: Directive, s: State)
    requires d.kind == "operator"
    ensures StepShape(w, i, d, s, DoOperator(w, i, d, s))
  {
    hide StepShape;
    var s' := DoOperator(w, i, d, s);
    if s.blocked {
      ShapeOf(w, i, d, s, s', BySkip(AfterFailure), []);
    } else {
      var body := JoinLines(d.body);
      var r := Resolve(body, s);
      if r.error.Some? {
        CatchGrows(w, i, r.error.value, s, s);
        ShapeOf(w, i, d, s, s', Reason(r.error.value), []);
      } else {
        var event := OperatorShown(i, Filled(body, s.vars));
        var shown := Emit(w, event, s.(messages := s.messages + [event.text]));
        var batch := if w.hasHandler then [Emission(event, shown.error.None?)] else [];
        if shown.error.Some? { CatchGrows(w, i, shown.error.value, s, shown.s); }
        ShapeOf(w, i, d, s, s', if shown.error.Some? then Reason(shown.error.value) else ByApplied, batch);
      }
    }
  }

  /** After the work: close the step and record its outcome. */
  function Finish(w: World, i: nat, d: Directive, r: Done): State {
    if r.error.Some? then Catch(w, i, Some(w.caption(d)), r.error.value, r.s)
    else
      var ended := Emit(w, StepEnd(i, w.caption(d), true), r.s);
      if ended.error.Some? then Catch(w, i, None, ended.error.value, ended.s) else Applied(ended.s, i)
  }

  /** The result lists after `Finish`. */
  function FinishGrowth(w: World, i: nat, d: Directive, r: Done): Growth {
    if r.error.Some? then Reason(r.error.value)
    else
      var ended := Emit(w, StepEnd(i, w.caption(d), true), r.s);
      if ended.error.Some? then Reason(ended.error.value) else ByApplied
  }

  lemma FinishGrows(w: World, i: nat, d: Directive, s: State, r: Done)
    requires s == r.s.(tree := s.tree, vars := s.vars, journal := s.journal, calls := s.calls, events := s.events,
                       tick := s.tick, faults := s.faults)
    ensures Grew(i, FinishGrowth(w, i, d, r), s, Finish(w, i, d, r))
  {
    var ended := Emit(w, StepEnd(i, w.caption(d), r.error.None?), r.s);
    if r.error.Some? { CatchGrows(w, i, r.error.value, s, ended.s); }
    else if ended.error.Some? { CatchGrows(w, i, ended.error.value, s, ended.s); }
  }

  /** What closing a step leaves alone, and the one event it adds. */
  ghost predicate Closes(w: World, e: Event, s: State, s': State) {
    && s'.events == s.events + (if w.hasHandler then [Emission(e, Emit(w, e, s).error.None?)] else [])
    && s'.calls == s.calls && s'.journal == s.journal && s.faults <= s'.faults
  }

  lemma EmitCloses(w: World, e: Event, s: State)
    ensures Closes(w, e, s, Emit(w, e, s).s)
  {
  }

  lemma CatchKeeps(w: World, i: nat, inFlight: Option<Option<string>>, e: Thrown, s: State)
    ensures
      var s' := Catch(w, i, inFlight, e, s);
      var closed := match inFlight case None => s case Some(caption) => Emit(w, StepEnd(i, caption, false), s).s;
      s'.events == closed.events && s'.calls == closed.calls && s'.journal == closed.journal && s'.faults == closed.faults
  {
  }

  lemma FinishEvents(w: World, i: nat, d: Directive, r: Done)
    ensures Closes(w, StepEnd(i, w.caption(d), r.error.None?), r.s, Finish(w, i, d, r))
  {
    hide Catch, Emit;
    var event := StepEnd(i, w.caption(d), r.error.None?);
    EmitCloses(w, event, r.s);
    if r.error.Some? {
      CatchKeeps(w, i, Some(w.caption(d)), r.error.value, r.s);
    } else {
      var ended := Emit(w, event, r.s);
      if ended.error.Some? { CatchKeeps(w, i, None, ended.error.value, ended.s); }
    }
  }

  lemma FinishShape(w: World, i: nat, d: Directive, s: State, started: State, r: Done)
    requires started.events == s.events + if w.hasHandler then [Emission(StepStart(i, w.caption(d)), true)] else []
    requires started == s.(tick := started.tick, events := started.events)
    requires Works(i, started, r.s)
    requires !(s.blocked && Latched(d))
    ensures StepShape(w, i, d, s, Finish(w, i, d, r))
  {
    hide StepShape, Finish, FinishGrowth;
    FinishGrows(w, i, d, s, r);
    FinishEvents(w, i, d, r);
    var event := StepEnd(i, w.caption(d), r.error.None?);
    var batch := if w.hasHandler
      then [Emission(StepStart(i, w.caption(d)), true), Emission(event, Emit(w, event, r.s).error.None?)] else [];
    ShapeOf(w, i, d, s, Finish(w, i, d, r), FinishGrowth(w, i, d, r), batch);
  }

  lemma DoStepShape(w: World, i: nat, d: Directive, s: State)
    requires !(s.blocked && Latched(d))
    ensures StepShape(w, i, d, s, DoStep(w, i, d, s))
  {
    hide StepShape, ApplyOne, Works;
    var event := StepStart(i, w.caption(d));
    var started := Emit(w, event, s);
    if started.error.Some? {
      CatchGrows(w, i, started.error.value, s, started.s);
      ShapeOf(w, i, d, s, DoStep(w, i, d, s), Reason(started.error.value), [Emission(event, false)]);
    } else {
      ApplyOneWorks(w, i, d, started.s);
      FinishShape(w, i, d, s, started.s, ApplyOne(w, i, d, started.s));
    }
  }

  lemma SkippedShape(w: World, i: nat, d: Directive, s: State, reason: SkipReason)
    ensures StepShape(w, i, d, s, Skipped(s, i, reason))
  {
    hide StepShape;
    assert Skipped(s, i, reason).events == s.events + [];
    ShapeOf(w, i, d, s, Skipped(s, i, reason), BySkip(reason), []);
  }

  lemma BouncedShape(w: World, i: nat, d: Directive, s: State, message: string)
    ensures StepShape(w, i, d, s, Bounce(s, i, message))
  {
    hide StepShape;
    assert Bounce(s, i, message).events == s.events + [];
    ShapeOf(w, i, d, s, Bounce(s, i, message), ByTask(message), []);
  }

  lemma UnreadableShape(w: World, i: nat, d: Directive, s: State)
    ensures StepShape(w, i, d, s, Catch(w, i, None, Thrown(w.reason(s.tick, "."), false), s))
  {
    var e := Thrown(w.reason(s.tick, "."), false);
    CatchGrows(w, i, e, s, s);
    ShapeOf(w, i, d, s, Catch(w, i, None, e, s), Reason(e), []);
  }

  lemma MutationShape(w: World, i: nat, d: Directive, s: State)
    ensures StepShape(w, i, d, s, DoMutation(w, i, d, s))
  {
    hide StepShape, DoStep, SelfStatus, Latched, SideEffect, Validation, Catch, Skipped, Bounce, Effect;
    SkippedShape(w, i, d, s, CallerOwned);
    SkippedShape(w, i, d, s, AlreadyPresent);
    BouncedShape(w, i, d, s, "skipped: an earlier step did not complete");
    BouncedShape(w, i, d, s, "no deterministic handler");
    UnreadableShape(w, i, d, s);
    LatchedMeans(d);
    if !(s.blocked && Latched(d)) { DoStepShape(w, i, d, s); }
  }

  lemma LatchedMeans(d: Directive)
    ensures Latched(d) <==> SideEffect(Effect(d)) || Validation(Effect(d))
  {
  }

  lemma StepKeepsShape(w: World, i: nat, d: Directive, s: State)
    ensures StepShape(w, i, d, s, Step(w, i, d, s))
  {
    hide StepShape, DoPrompt, DoOperator, DoMutation, Latched;
    if w.mode == Refresh && OutsideRefresh(d) {
      ShapeOf(w, i, d, s, Step(w, i, d, s), BySkip(NotInRefresh), []);
    } else if !GuardMet(d, s.vars) {
      ShapeOf(w, i, d, s, Step(w, i, d, s), BySkip(GuardUnmet), []);
    } else {
      PromptShape(w, i, d, s);
      if d.kind == "operator" { OperatorShape(w, i, d, s); }
      MutationShape(w, i, d, s);
    }
  }

  // ---------------------------------------------------------------------------
  // Every run
  // ---------------------------------------------------------------------------

  function FirstNats(n: nat): (r: seq<nat>)
    ensures |r| == n && forall k | 0 <= k < n :: r[k] == k
  {
    seq(n, k requires 0 <= k < n => k)
  }

  lemma FirstNatsGrow(n: nat)
    ensures multiset(FirstNats(n + 1)) == multiset(FirstNats(n)) + multiset{n}
  {
    assert FirstNats(n + 1) == FirstNats(n) + [n];
  }

  lemma StepOutcome(w: World, i: nat, d: Directive, s: State)
    ensures Outcomes(Step(w, i, d, s)) == Outcomes(s) + multiset{i}
    ensures (s.blocked <==> s.agentTasks != []) ==> (Step(w, i, d, s).blocked <==> Step(w, i, d, s).agentTasks != [])
  {
    hide Outcomes, Step;
    StepKeepsShape(w, i, d, s);
    var g :| Grew(i, g, s, Step(w, i, d, s));
    GrewOnce(i, g, s, Step(w, i, d, s));
  }

  lemma RunUnfolds(w: World, ds: seq<Directive>, tree: Tree, n: nat)
    requires 0 < n <= |ds|
    ensures Run(w, ds, tree, n) == Step(w, n - 1, ds[n - 1], Run(w, ds, tree, n - 1))
  {
  }

  /** Everything the run did so far respected the latch as it stood at that directive. */
  ghost predicate LatchRespected(w: World, ds: seq<Directive>, tree: Tree, n: nat)
    requires n <= |ds|
  {
    var s := Run(w, ds, tree, n);
    && (forall k | 0 <= k < |s.calls| ::
          s.calls[k].index < n
          && (Latched(ds[s.calls[k].index]) ==> Run(w, ds, tree, s.calls[k].index).agentTasks == []))
    && (forall k | 0 <= k < |s.events| ::
          s.events[k].event.index < n
          && (s.events[k].event.OperatorShown? ==> Run(w, ds, tree, s.events[k].event.index).agentTasks == []))
  }

  lemma AtStart(w: World, ds: seq<Directive>, tree: Tree)
    ensures Outcomes(Run(w, ds, tree, 0)) == multiset(FirstNats(0))
    ensures Bracketed(Run(w, ds, tree, 0).events)
    ensures Run(w, ds, tree, 0).blocked <==> Run(w, ds, tree, 0).agentTasks != []
    ensures LatchRespected(w, ds, tree, 0)
  {
    assert FirstNats(0) == [];
  }

  /** The `n` directives handled so far have exactly one outcome each, and nothing else has one. */
  lemma {:induction false} OneOutcomeEach(w: World, ds: seq<Directive>, tree: Tree, n: nat)
    requires n <= |ds|
    ensures Outcomes(Run(w, ds, tree, n)) == multiset(FirstNats(n))
  {
    hide *;
    if n == 0 {
      AtStart(w, ds, tree);
    } else {
      OneOutcomeEach(w, ds, tree, n - 1);
      RunUnfolds(w, ds, tree, n);
      StepOutcome(w, n - 1, ds[n - 1], Run(w, ds, tree, n - 1));
      FirstNatsGrow(n - 1);
    }
  }

  lemma StepEvents(w: World, i: nat, d: Directive, s: State)
    requires Bracketed(s.events)
    ensures Bracketed(Step(w, i, d, s).events)
  {
    hide Step, Bracketed;
    StepKeepsShape(w, i, d, s);
    var batch := Step(w, i, d, s).events[|s.events|..];
    EventsBracketed(w, i, d, s, batch);
    BracketedAppend(s.events, batch);
    assert Step(w, i, d, s).events == s.events + batch;
  }

  /** The event stream is operator events and immediately closed steps, whatever throws. */
  lemma {:induction false} EventsAreBracketed(w: World, ds: seq<Directive>, tree: Tree, n: nat)
    requires n <= |ds|
    ensures Bracketed(Run(w, ds, tree, n).events)
  {
    hide *;
    if n == 0 {
      AtStart(w, ds, tree);
    } else {
      EventsAreBracketed(w, ds, tree, n - 1);
      RunUnfolds(w, ds, tree, n);
      StepEvents(w, n - 1, ds[n - 1], Run(w, ds, tree, n - 1));
    }
  }

  /** The latch is set exactly when something bounced to an agent. */
  lemma {:induction false} BlockedMeansTask(w: World, ds: seq<Directive>, tree: Tree, n: nat)
    requires n <= |ds|
    ensures Run(w, ds, tree, n).blocked <==> Run(w, ds, tree, n).agentTasks != []
  {
    hide *;
    if n == 0 {
      AtStart(w, ds, tree);
    } else {
      BlockedMeansTask(w, ds, tree, n - 1);
      RunUnfolds(w, ds, tree, n);
      StepOutcome(w, n - 1, ds[n - 1], Run(w, ds, tree, n - 1));
    }
  }

  /**
   * Once a task is recorded, no restart, step, wire, build or test reaches `exec`
   * or `execStream`, and no operator block is shown.
   */
  lemma {:induction false} FailureLatch(w: World, ds: seq<Directive>, tree: Tree, n: nat)
    requires n <= |ds|
    ensures LatchRespected(w, ds, tree, n)
  {
    hide *;
    if n == 0 {
      AtStart(w, ds, tree);
    } else {
      FailureLatch(w, ds, tree, n - 1);
      BlockedMeansTask(w, ds, tree, n - 1);
      RunUnfolds(w, ds, tree, n);
      var before, after := Run(w, ds, tree, n - 1), Run(w, ds, tree, n);
      StepKeepsShape(w, n - 1, ds[n - 1], before);
      LatchStep(w, ds, tree, n, before, after);
    }
  }

  lemma LatchStep(w: World, ds: seq<Directive>, tree: Tree, n: nat, before: State, after: State)
    requires 0 < n <= |ds| && before == Run(w, ds, tree, n - 1) && after == Run(w, ds, tree, n)
    requires LatchRespected(w, ds, tree, n - 1)
    requires before.blocked <==> before.agentTasks != []
    requires StepShape(w, n - 1, ds[n - 1], before, after)
    ensures LatchRespected(w, ds, tree, n)
  {
    hide Run, Step, Latched;
    forall k | 0 <= k < |after.calls|
      ensures after.calls[k].index < n
      ensures Latched(ds[after.calls[k].index]) ==> Run(w, ds, tree, after.calls[k].index).agentTasks == []
    {
      if k < |before.calls| { assert after.calls[k] == before.calls[k]; }
    }
    var batch := after.events[|before.events|..];
    forall k | 0 <= k < |after.events|
      ensures after.events[k].event.index < n
      ensures after.events[k].event.OperatorShown? ==> Run(w, ds, tree, after.events[k].event.index).agentTasks == []
    {
      if k < |before.events| { assert after.events[k] == before.events[k]; }
      else { assert after.events[k] == batch[k - |before.events|]; }
    }
  }

  /** An input that is missing, invalid or unresolved never sets the latch. */
  lemma DeferralNeverLatches(w: World, i: nat, d: Directive, s: State)
    requires |Step(w, i, d, s).deferred| > |s.deferred|
    ensures Step(w, i, d, s).blocked == s.blocked && Step(w, i, d, s).agentTasks == s.agentTasks
  {
    hide Step;
    StepKeepsShape(w, i, d, s);
  }

  // ---------------------------------------------------------------------------
  // Which failed commands set the latch
  // ---------------------------------------------------------------------------

  /** The directive gets to its work: no guard, mode, owner, latch or self-check stops it first. */
  predicate Reached(w: World, d: Directive, s: State) {
    && !(w.mode == Refresh && OutsideRefresh(d)) && GuardMet(d, s.vars)
    && !(d.kind == "run" && "effect" in d.attrs && d.attrs["effect"] in w.skipEffects)
    && !(s.blocked && Latched(d)) && SelfStatus(w, d, s) == ToApply
  }

  predicate Fails(w: World, s: State, cmd: Command, t: string) { Answer(w, s, cmd).failed && Answer(w, s, cmd).text == t }

  /** The command of a body line runs and fails with text `t`. */
  predicate LineFails(w: World, op: LineOp, l: string, s: State, t: string) {
    match op
    case CopyBranch(branch) => Fails(w, s, GitShow(branch, SourceOf(l), DestOf(l)), t)
    case Check => Resolve(l, s).error.None? && Fails(w, s, Shell(Filled(l, s.vars)), t)
    case RunCommand(_, _, _) => Resolve(l, s).error.None? && Fails(w, s, Shell(Filled(l, s.vars)), t)
    case _ => false
  }

  /** The lines before it succeed, and then a command fails with text `t`. */
  predicate EachFails(w: World, i: nat, op: LineOp, body: seq<string>, s: State, t: string) {
    body != []
    && (LineFails(w, op, body[0], s, t)
        || (DoLine(w, i, op, body[0], s).error.None? && EachFails(w, i, op, body[1..], DoLine(w, i, op, body[0], s).s, t)))
  }

  /** Work on a run, check, step, dependency or branch copy ends in a command failing with text `t`. */
  predicate CommandFails(w: World, i: nat, d: Directive, s: State, t: string) {
    if d.kind == "copy" then
      var branch := OrEmpty(d, "from-branch");
      branch != ""
      && (Fails(w, s, GitFetch(branch), t)
          || (!Answer(w, s, GitFetch(branch)).failed
              && EachFails(w, i, CopyBranch(branch), d.body, Exec(w, i, GitFetch(branch), s).s, t)))
    else if d.kind == "dep" then Fails(w, s, DepCommand(d), t)
    else if d.kind != "run" then false
    else if Effect(d) == "step" then
      var script := JoinLines(d.body);
      var out := w.stream(s.tick + 1, Filled(script, s.vars));
      w.hasStream && Resolve(script, s).error.None? && out.threw && out.message == t
    else EachFails(w, i, if Effect(d) == "check" then Check else RunOp(d), d.body, s, t)
  }

  lemma FailedLine(w: World, i: nat, op: LineOp, l: string, s: State, t: string)
    requires LineFails(w, op, l, s, t)
    ensures DoLine(w, i, op, l, s).error == Some(Thrown(t, false))
  {
    hide BindCapture, Substitute, SourceOf, DestOf;
  }

  lemma {:induction false} FailedEach(w: World, i: nat, op: LineOp, body: seq<string>, s: State, t: string)
    requires EachFails(w, i, op, body, s, t)
    ensures Each(w, i, op, body, s).error == Some(Thrown(t, false))
  {
    hide DoLine, LineFails;
    if LineFails(w, op, body[0], s, t) {
      FailedLine(w, i, op, body[0], s, t);
    } else {
      FailedEach(w, i, op, body[1..], DoLine(w, i, op, body[0], s).s, t);
    }
  }

  lemma FailedWork(w: World, i: nat, d: Directive, s: State, t: string)
    requires CommandFails(w, i, d, s, t)
    ensures ApplyOne(w, i, d, s).error == Some(Thrown(t, false))
  {
    hide Each, EachFails, ApplyMerge, Effect, Substitute, JoinLines;
    if d.kind == "copy" {
      var branch := OrEmpty(d, "from-branch");
      var fetched := Exec(w, i, GitFetch(branch), s);
      if fetched.error.None? { FailedEach(w, i, CopyBranch(branch), d.body, fetched.s, t); }
    } else if d.kind == "run" && Effect(d) != "step" {
      FailedEach(w, i, if Effect(d) == "check" then Check else RunOp(d), d.body, s, t);
    }
  }

  /** The exception a step ends in: thrown by the handler of its start, by its work, or by the handler of its end. */
  function StepError(w: World, i: nat, d: Directive, s: State): Option<Thrown> {
    var started := Emit(w, StepStart(i, w.caption(d)), s);
    if started.error.Some? then started.error
    else
      var r := ApplyOne(w, i, d, started.s);
      if r.error.Some? then r.error else Emit(w, StepEnd(i, w.caption(d), true), r.s).error
  }

  /** An exception that reads like a missing answer, and is no step's own report. */
  predicate Defers(e: Thrown) { !e.reported && Contains(e.message, UNRESOLVED) }

  predicate Unlatched(s: State, s': State, more: seq<Deferral>) {
    s'.blocked == s.blocked && s'.agentTasks == s.agentTasks && s'.deferred == s.deferred + more
  }

  predicate LatchedBy(i: nat, s: State, s': State, reason: string) {
    s'.blocked && s'.agentTasks == s.agentTasks + [Task(i, reason)] && s'.deferred == s.deferred
  }

  function BounceReason(e: Thrown): string { if e.reported then e.message else "engine could not apply (" + e.message + ")" }

  lemma CatchRecords(w: World, i: nat, inFlight: Option<Option<string>>, e: Thrown, before: State, s: State)
    requires s.blocked == before.blocked && s.agentTasks == before.agentTasks && s.deferred == before.deferred
    ensures var s' := Catch(w, i, inFlight, e, s);
            if Defers(e) then Unlatched(before, s', [Deferral(i, e.message)]) else LatchedBy(i, before, s', BounceReason(e))
  {
    hide Contains;
  }

  lemma ReachedStep(w: World, i: nat, d: Directive, s: State)
    requires Reached(w, d, s) && d.kind != "prompt" && d.kind != "operator"
    ensures Step(w, i, d, s) == DoStep(w, i, d, s)
  {
    hide DoStep, SelfStatus, GuardMet, SideEffect, Validation, Effect;
  }

  lemma ReachedKind(w: World, d: Directive, s: State)
    requires Reached(w, d, s)
    ensures d.kind != "prompt" && d.kind != "operator"
  {
    hide GuardMet, SideEffect, Validation, Effect;
  }

  /**
   * A directive that gets to its work sets the latch exactly when it ends in an exception
   * that is a step's own report or lacks the engine's marker for a missing answer, whoever
   * threw it: a command, a step, a write, or a handler of its events.
   */
  lemma FailureLatchesIff(w: World, i: nat, d: Directive, s: State)
    requires Reached(w, d, s)
    ensures var s' := Step(w, i, d, s);
      match StepError(w, i, d, s)
      case None => Unlatched(s, s', []) && s'.applied == s.applied + [i]
      case Some(e) =>
        if Defers(e) then Unlatched(s, s', [Deferral(i, e.message)]) else LatchedBy(i, s, s', BounceReason(e))
  {
    hide ApplyOne, Catch, Emit, Works, Reached, Step, Defers, Contains, Unlatched, LatchedBy, BounceReason;
    ReachedKind(w, d, s);
    ReachedStep(w, i, d, s);
    var caption := w.caption(d);
    var started := Emit(w, StepStart(i, caption), s);
    EmitKeepsTasks(w, StepStart(i, caption), s);
    if started.error.Some? {
      CatchRecords(w, i, None, started.error.value, s, started.s);
    } else {
      ApplyOneWorks(w, i, d, started.s);
      var r := ApplyOne(w, i, d, started.s);
      WorksKeepsTasks(i, started.s, r.s);
      if r.error.Some? {
        CatchRecords(w, i, Some(caption), r.error.value, s, r.s);
      } else {
        var ended := Emit(w, StepEnd(i, caption, true), r.s);
        EmitKeepsTasks(w, StepEnd(i, caption, true), r.s);
        if ended.error.Some? { CatchRecords(w, i, None, ended.error.value, s, ended.s); } else { NothingRecorded(i, s, ended.s); }
      }
    }
  }

  lemma NothingRecorded(i: nat, s: State, s': State)
    requires s'.blocked == s.blocked && s'.agentTasks == s.agentTasks && s'.deferred == s.deferred && s'.applied == s.applied
    ensures Unlatched(s, Applied(s', i), []) && Applied(s', i).applied == s.applied + [i]
  {
  }

  /**
   * A command that fails sets the latch exactly when its text lacks the marker: with the
   * marker the failure is recorded as an unanswered input, and later side effects still run.
   */
  lemma FailedCommandLatchesIff(w: World, i: nat, d: Directive, s: State, t: string)
    requires Reached(w, d, s) && Emit(w, StepStart(i, w.caption(d)), s).error.None?
    requires CommandFails(w, i, d, Emit(w, StepStart(i, w.caption(d)), s).s, t)
    ensures var s' := Step(w, i, d, s);
            if Contains(t, UNRESOLVED) then
              s'.blocked == s.blocked && s'.agentTasks == s.agentTasks && s'.deferred == s.deferred + [Deferral(i, t)]
            else
              s'.blocked && s'.agentTasks == s.agentTasks + [Task(i, "engine could not apply (" + t + ")")]
              && s'.deferred == s.deferred
  {
    hide ApplyOne, CommandFails, Emit, Reached, Step, Contains;
    FailedWork(w, i, d, Emit(w, StepStart(i, w.caption(d)), s).s, t);
    FailureLatchesIff(w, i, d, s);
  }

  lemma StreamReports(w: World, i: nat, d: Directive, s: State)
    requires w.hasStream && Substitute(JoinLines(d.body), s.vars).Text?
    requires var out := w.stream(s.tick + 1, Filled(JoinLines(d.body), s.vars));
             out.ok == out.threw == false && "ERROR" in out.fields && Trim(out.fields["ERROR"]) != ""
    ensures var out := w.stream(s.tick + 1, Filled(JoinLines(d.body), s.vars));
            ApplyStream(w, i, d, s).error == Some(Thrown(Trim(out.fields["ERROR"]), true))
  {
    hide Substitute, Trim, JoinLines;
  }

  lemma ApplyStepIsStream(w: World, i: nat, d: Directive, s: State)
    requires d.kind == "run" && Effect(d) == "step"
    ensures ApplyOne(w, i, d, s) == ApplyStream(w, i, d, s)
  {
    hide ApplyStream, Effect;
  }

  /** A report is bounced, whatever its text. */
  lemma CatchReports(w: World, i: nat, inFlight: Option<Option<string>>, e: Thrown, s: State)
    requires e.reported
    ensures Catch(w, i, inFlight, e, s).blocked
    ensures Catch(w, i, inFlight, e, s).agentTasks == s.agentTasks + [Task(i, e.message)]
  {
  }

  /** A streamed step that names its own cause is bounced with that text verbatim, whatever it reads like. */
  lemma ReportedErrorLatches(w: World, i: nat, d: Directive, s: State)
    requires d.kind == "run" && Effect(d) == "step" && w.hasStream
    requires Emit(w, StepStart(i, w.caption(d)), s).error.None?
    requires Substitute(JoinLines(d.body), s.vars).Text?
    requires StreamOut(w, i, d, s).ok == StreamOut(w, i, d, s).threw == false
    requires "ERROR" in StreamOut(w, i, d, s).fields && Trim(StreamOut(w, i, d, s).fields["ERROR"]) != ""
    ensures DoStep(w, i, d, s).blocked
    ensures DoStep(w, i, d, s).agentTasks == s.agentTasks + [Task(i, Trim(StreamOut(w, i, d, s).fields["ERROR"]))]
  {
    hide Substitute, ApplyStream, ApplyOne, Catch, Emit, Trim, JoinLines, Effect, Works;
    var caption := w.caption(d);
    var started := Emit(w, StepStart(i, caption), s).s;
    EmitKeepsTasks(w, StepStart(i, caption), s);
    StreamReports(w, i, d, started);
    ApplyStepIsStream(w, i, d, started);
    ApplyOneWorks(w, i, d, started);
    var r := ApplyOne(w, i, d, started);
    WorksKeepsTasks(i, started, r.s);
    CatchReports(w, i, Some(caption), r.error.value, r.s);
  }

  lemma EmitKeepsTasks(w: World, e: Event, s: State)
    ensures var s' := Emit(w, e, s).s;
            && s'.agentTasks == s.agentTasks && s'.vars == s.vars && s'.blocked == s.blocked && s'.deferred == s.deferred
            && s'.applied == s.applied
  {
  }

  lemma WorksKeepsTasks(i: nat, s: State, s': State)
    requires Works(i, s, s')
    ensures s'.agentTasks == s.agentTasks && s'.blocked == s.blocked && s'.deferred == s.deferred && s'.applied == s.applied
  {
  }

  /** What the streaming step answers when directive `i` reaches it from `s`. */
  function StreamOut(w: World, i: nat, d: Directive, s: State): Streamed {
    var started := Emit(w, StepStart(i, w.caption(d)), s);
    w.stream(started.s.tick + 1, Filled(JoinLines(d.body), s.vars))
  }
}
