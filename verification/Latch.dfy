/** Which directives the failure latch stops, and that it changes nothing for the others. */
module Latch {
  import opened Text
  import opened Directives
  import opened Vars
  import opened Engine
  import opened EngineOutcomes

  /** A run with an effect that must not happen, or need not be checked, once something failed. */
  predicate Gated(d: Directive) {
    d.kind == "run" && "effect" in d.attrs && d.attrs["effect"] in {"restart", "step", "wire", "build", "test"}
  }

  lemma GatedIsLatched(d: Directive)
    requires Gated(d)
    ensures Latched(d)
  {
  }

  /**
   * In every run, a command or streamed step of a restart, step, wire, build or test was
   * started only while no agent task had been recorded.
   */
  lemma GatedCallsPrecedeTasks(w: World, ds: seq<Directive>, tree: Tree, n: nat, k: nat)
    requires n <= |ds| && k < |Run(w, ds, tree, n).calls|
    ensures var call := Run(w, ds, tree, n).calls[k];
            call.index < n && (Gated(ds[call.index]) ==> Run(w, ds, tree, call.index).agentTasks == [])
  {
    hide Run, Latched, Gated;
    FailureLatch(w, ds, tree, n);
    var d := ds[Run(w, ds, tree, n).calls[k].index];
    if Gated(d) { GatedIsLatched(d); }
  }

  /** A gated run met after a task becomes a task of its own and nothing else happens. */
  lemma GatedBounces(w: World, i: nat, d: Directive, s: State)
    requires s.blocked && Gated(d) && w.mode == Install && GuardMet(d, s.vars) && d.attrs["effect"] !in w.skipEffects
    ensures Step(w, i, d, s) == s.(agentTasks := s.agentTasks + [Task(i, "skipped: an earlier step did not complete")])
  {
    hide GuardMet, DoStep, SelfStatus;
  }

  // ---------------------------------------------------------------------------
  // Everything else is blind to the latch
  // ---------------------------------------------------------------------------

  function Open(s: State): State { s.(blocked := false) }

  function OpenDone(r: Done): Done { Done(Open(r.s), r.error) }

  lemma WriteBlind(w: World, path: string, file: File, s: State)
    ensures Write(w, path, file, Open(s)) == OpenDone(Write(w, path, file, s))
  {
  }

  lemma ExecBlind(w: World, i: nat, cmd: Command, s: State)
    ensures Exec(w, i, cmd, Open(s)) == OpenDone(Exec(w, i, cmd, s))
  {
  }

  lemma JournalBlind(s: State, e: Entry)
    ensures Journal(Open(s), e) == Open(Journal(s, e))
    ensures Open(s).tree == s.tree && Open(s).vars == s.vars && Open(s).tick == s.tick
    ensures Fault(Open(s)) == Open(Fault(s))
  {
  }

  lemma ResolveBlind(text: string, s: State)
    ensures Resolve(text, Open(s)) == OpenDone(Resolve(text, s))
  {
    hide Substitute;
  }

  lemma RunLineBlind(w: World, i: nat, op: LineOp, l: string, s: State)
    requires op.RunCommand?
    ensures DoLine(w, i, op, l, Open(s)) == OpenDone(DoLine(w, i, op, l, s))
  {
    hide BindCapture, Exec, Resolve, Journal, Filled, Fault;
    var cmd := Shell(Filled(l, s.vars));
    JournalBlind(s, CommandRan(l, op.undo));
    ResolveBlind(l, s);
    ExecBlind(w, i, cmd, s);
    var ran := Exec(w, i, cmd, s);
    JournalBlind(ran.s, CommandRan(l, op.undo));
    if op.capture.Some? {
      var stdout := Trim(Answer(w, s, cmd).text);
      BindBlind(w, op.capture.value, stdout, op.validate, ran.s);
      JournalBlind(BindCapture(w, op.capture.value, stdout, op.validate, ran.s).s, CommandRan(l, op.undo));
    }
  }

  lemma TextLineBlind(w: World, i: nat, op: LineOp, l: string, s: State)
    requires op.AppendTo? || op.InsertAt? || op.SetEnv?
    ensures DoLine(w, i, op, l, Open(s)) == OpenDone(DoLine(w, i, op, l, s))
  {
    hide Write, Resolve, Journal, ReadLines, EnvKeySet, SplitLines, WithLine, WithLines, MarkerAt, Indent, EnvKey, EnvTemplate, Filled, Fault;
    JournalBlind(s, EnvSet(EnvKey(l)));
    match op
    case AppendTo(path) =>
      var file := Lines(WithLine(ReadLines(w, s.tree, path), l));
      WriteBlind(w, path, file, s);
      JournalBlind(Write(w, path, file, s).s, Appended(path, l));
    case InsertAt(path, marker) =>
      var lines := ReadLines(w, s.tree, path);
      var at := MarkerAt(lines, "<<< " + marker);
      if at < |lines| {
        var file := Lines(lines[..at] + [Indent(lines[at]) + l] + lines[at..]);
        WriteBlind(w, path, file, s);
        JournalBlind(Write(w, path, file, s).s, Appended(path, l));
      }
    case SetEnv =>
      ResolveBlind(EnvTemplate(l), s);
      var file := Lines(WithLines(ReadLines(w, s.tree, ".env"), SplitLines(EnvKey(l) + "=" + Filled(EnvTemplate(l), s.vars))));
      WriteBlind(w, ".env", file, s);
      JournalBlind(Write(w, ".env", file, s).s, EnvSet(EnvKey(l)));
  }

  lemma LineBlind(w: World, i: nat, op: LineOp, l: string, s: State)
    ensures DoLine(w, i, op, l, Open(s)) == OpenDone(DoLine(w, i, op, l, s))
  {
    hide Write, Exec, Resolve, SourceOf, DestOf, Filled, Fault;
    JournalBlind(s, EnvSet(l));
    match op
    case CopyLocal => if w.source(SourceOf(l)).Some? { WriteBlind(w, DestOf(l), w.source(SourceOf(l)).value, s); }
    case CopyBranch(branch) => ExecBlind(w, i, GitShow(branch, SourceOf(l), DestOf(l)), s);
    case Check =>
      ResolveBlind(l, s);
      ExecBlind(w, i, Shell(Filled(l, s.vars)), s);
    case RunCommand(_, _, _) => RunLineBlind(w, i, op, l, s);
    case _ => TextLineBlind(w, i, op, l, s);
  }

  lemma CaptureBlind(w: World, validate: Option<string>, name: string, value: string, s: State)
    ensures Capture(w, validate, name, value, Open(s)) == OpenDone(Capture(w, validate, name, value, s))
  {
  }

  lemma {:induction false} PairsBlind(w: World, validate: Option<string>, pairs: seq<string>, json: Json, s: State)
    ensures CapturePairs(w, validate, pairs, json, Open(s)) == OpenDone(CapturePairs(w, validate, pairs, json, s))
  {
    hide IndexOf, PairName, PairPath, Capture;
    if pairs != [] {
      if IndexOf(pairs[0], '=') < 1 {
        PairsBlind(w, validate, pairs[1..], json, s);
      } else {
        var r := Capture(w, validate, PairName(pairs[0]), w.pick(json, PairPath(pairs[0])), s);
        CaptureBlind(w, validate, PairName(pairs[0]), w.pick(json, PairPath(pairs[0])), s);
        PairsBlind(w, validate, pairs[1..], json, r.s);
      }
    }
  }

  lemma BindBlind(w: World, spec: string, stdout: string, validate: Option<string>, s: State)
    ensures BindCapture(w, spec, stdout, validate, Open(s)) == OpenDone(BindCapture(w, spec, stdout, validate, s))
  {
    hide CapturePairs, SplitAt, IndexOf, Capture;
    CaptureBlind(w, validate, spec, stdout, s);
    if w.parse(stdout).Some? { PairsBlind(w, validate, SplitAt(spec, ','), w.parse(stdout).value, s); }
  }

  lemma {:induction false} EachBlind(w: World, i: nat, op: LineOp, body: seq<string>, s: State)
    ensures Each(w, i, op, body, Open(s)) == OpenDone(Each(w, i, op, body, s))
  {
    hide DoLine;
    if body != [] {
      LineBlind(w, i, op, body[0], s);
      EachBlind(w, i, op, body[1..], DoLine(w, i, op, body[0], s).s);
    }
  }

  lemma {:induction false} FieldsBlind(pairs: seq<string>, fields: map<string, string>, s: State)
    ensures CaptureFields(pairs, fields, Open(s)) == Open(CaptureFields(pairs, fields, s))
  {
    hide IndexOf, PairName, PairPath;
    if pairs != [] {
      if IndexOf(pairs[0], '=') < 1 {
        FieldsBlind(pairs[1..], fields, s);
      } else {
        var path := PairPath(pairs[0]);
        FieldsBlind(pairs[1..], fields, Bind(s, PairName(pairs[0]), if path in fields then Trim(fields[path]) else ""));
      }
    }
  }

  lemma CopyBlind(w: World, i: nat, d: Directive, s: State)
    ensures ApplyCopy(w, i, d, Open(s)) == OpenDone(ApplyCopy(w, i, d, s))
  {
    hide Each;
    var branch := OrEmpty(d, "from-branch");
    var fetched := if branch == "" then Done(s, None) else Exec(w, i, GitFetch(branch), s);
    EachBlind(w, i, if branch == "" then CopyLocal else CopyBranch(branch), d.body, fetched.s);
  }

  lemma StreamBlind(w: World, i: nat, d: Directive, s: State)
    ensures ApplyStream(w, i, d, Open(s)) == OpenDone(ApplyStream(w, i, d, s))
  {
    hide CaptureFields, Substitute, SplitAt, Trim, JoinLines;
    var script := JoinLines(d.body);
    var out := w.stream(s.tick + 1, Filled(script, s.vars));
    var s1 := s.(tick := s.tick + 1, calls := s.calls + [Streaming(i, Filled(script, s.vars))]);
    FieldsBlind(SplitAt(OrEmpty(d, "capture"), ','), out.fields, s1);
  }

  lemma MergeBlind(w: World, d: Directive, s: State)
    ensures ApplyMerge(w, d, Open(s)) == OpenDone(ApplyMerge(w, d, s))
  {
    hide ReadArray, JoinLines, FindElement, Write, Fault, Journal, Printed, Field;
    JournalBlind(s, EnvSet(""));
    var into, key := Printed(d, "into"), Printed(d, "key");
    match (w.parse(JoinLines(d.body)), ReadArray(w, s.tree, into))
    case (Some(obj), Some(items)) =>
      var value := Field(obj, key);
      var at := FindElement(items, key, value);
      WriteBlind(w, into, Entries(items + [obj]), s);
      JournalBlind(Write(w, into, Entries(items + [obj]), s).s, Merged(into, key, value, None));
      if at < |items| {
        WriteBlind(w, into, Entries(items[at := obj]), s);
        JournalBlind(Write(w, into, Entries(items[at := obj]), s).s, Merged(into, key, value, Some(items[at])));
      }
    case _ =>
  }

  lemma DepBlind(w: World, i: nat, d: Directive, s: State)
    ensures ApplyDep(w, i, d, Open(s)) == OpenDone(ApplyDep(w, i, d, s))
  {
    hide InstallText, UninstallText;
  }

  lemma WorkBlind(w: World, i: nat, d: Directive, s: State)
    ensures ApplyOne(w, i, d, Open(s)) == OpenDone(ApplyOne(w, i, d, s))
  {
    hide Each, ApplyCopy, ApplyStream, ApplyMerge, ApplyDep, AppendOp, RunOp, Effect;
    CopyBlind(w, i, d, s);
    DepBlind(w, i, d, s);
    EachBlind(w, i, AppendOp(d), d.body, s);
    EachBlind(w, i, Check, d.body, s);
    EachBlind(w, i, RunOp(d), d.body, s);
    EachBlind(w, i, SetEnv, d.body, s);
    StreamBlind(w, i, d, s);
    MergeBlind(w, d, s);
  }

  lemma EmitBlind(w: World, e: Event, s: State)
    ensures Emit(w, e, Open(s)) == OpenDone(Emit(w, e, s))
  {
  }

  lemma CatchBlind(w: World, i: nat, inFlight: Option<Option<string>>, e: Thrown, s: State)
    ensures Catch(w, i, inFlight, e, Open(s)).(blocked := s.blocked) == Catch(w, i, inFlight, e, s).(blocked := s.blocked)
    ensures s.blocked ==> Catch(w, i, inFlight, e, s).blocked
  {
    hide Contains, Emit;
    if inFlight.Some? {
      EmitBlind(w, StepEnd(i, inFlight.value, false), s);
      EmitKeepsTasks(w, StepEnd(i, inFlight.value, false), s);
    }
  }

  lemma StepBlind(w: World, i: nat, d: Directive, s: State)
    requires s.blocked
    ensures DoStep(w, i, d, s) == DoStep(w, i, d, Open(s)).(blocked := true)
  {
    hide ApplyOne, Catch, Emit, Works;
    var caption := w.caption(d);
    var started := Emit(w, StepStart(i, caption), s);
    EmitBlind(w, StepStart(i, caption), s);
    EmitKeepsTasks(w, StepStart(i, caption), s);
    if started.error.Some? {
      CatchBlind(w, i, None, started.error.value, started.s);
    } else {
      WorkBlind(w, i, d, started.s);
      ApplyOneWorks(w, i, d, started.s);
      var r := ApplyOne(w, i, d, started.s);
      WorksKeepsTasks(i, started.s, r.s);
      if r.error.Some? {
        CatchBlind(w, i, Some(caption), r.error.value, r.s);
      } else {
        var ended := Emit(w, StepEnd(i, caption, true), r.s);
        EmitBlind(w, StepEnd(i, caption, true), r.s);
        EmitKeepsTasks(w, StepEnd(i, caption, true), r.s);
        if ended.error.Some? { CatchBlind(w, i, None, ended.error.value, ended.s); }
      }
    }
  }

  lemma BindPromptBlind(w: World, i: nat, d: Directive, value: string, s: State)
    requires s.blocked
    ensures BindPrompt(w, i, d, value, s) == BindPrompt(w, i, d, value, Open(s)).(blocked := true)
  {
    hide Normalize, Attr, PromptKey, Catch;
    CatchBlind(w, i, None, Thrown("invalid regular expression", false), s);
  }

  lemma PromptBlind(w: World, i: nat, d: Directive, s: State)
    requires s.blocked
    ensures DoPrompt(w, i, d, s) == DoPrompt(w, i, d, Open(s)).(blocked := true)
  {
    hide BindPrompt, Catch, PromptKey;
    var key := PromptKey(d);
    var s1 := s.(tick := s.tick + 1);
    if key in w.inputs {
      BindPromptBlind(w, i, d, w.inputs[key], s);
    } else {
      match w.resolve(s1.tick, key)
      case Resolved(value) => BindPromptBlind(w, i, d, value, s1);
      case NoAnswer =>
      case ResolveThrew(message) => CatchBlind(w, i, None, Thrown(message, false), Fault(s1));
    }
  }

  lemma StatusBlind(w: World, d: Directive, s: State)
    ensures SelfStatus(w, d, Open(s)) == SelfStatus(w, d, s)
  {
    hide ReadLines, ReadArray, JoinLines, EnvKeySet, FileHasLine, ArrayHas, DestOf, EnvName, DepMissing;
  }

  /**
   * Any other directive but an operator block does, after a task was recorded, exactly what
   * it would do had none been: same tree, variables, calls, events and outcome.
   */
  lemma OthersIgnoreTheLatch(w: World, i: nat, d: Directive, s: State)
    requires s.blocked && d.kind != "operator" && !Gated(d)
    ensures Step(w, i, d, s) == Step(w, i, d, Open(s)).(blocked := true)
  {
    hide DoPrompt, DoStep, SelfStatus, GuardMet, OutsideRefresh, Catch;
    PromptBlind(w, i, d, s);
    StepBlind(w, i, d, s);
    StatusBlind(w, d, s);
    CatchBlind(w, i, None, Thrown(w.reason(s.tick, "."), false), s);
  }
}
