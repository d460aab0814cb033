/** Two runs with the same inputs decide every guard the same way, and what the second one leaves unwritten. */
module SameInputs {
  import opened Text
  import opened Directives
  import opened Vars
  import opened Engine
  import opened EngineOutcomes
  import opened Effects
  import opened LintSoundness
  import opened SecondRun

  // ---------------------------------------------------------------------------
  // A name only its own prompt or capture binds
  // ---------------------------------------------------------------------------

  function Value(vars: Bindings, name: string): Option<Var> {
    if name in vars then Some(vars[name]) else None
  }

  lemma CaptureKeepsName(w: World, validate: Option<string>, name: string, value: string, s: State, g: string)
    requires g != name
    ensures Value(Capture(w, validate, name, value, s).s.vars, g) == Value(s.vars, g)
  {
  }

  lemma {:induction false} PairsKeepName(w: World, validate: Option<string>, pairs: seq<string>, json: Json, s: State, g: string)
    requires g !in BoundNames(pairs)
    ensures Value(CapturePairs(w, validate, pairs, json, s).s.vars, g) == Value(s.vars, g)
  {
    hide IndexOf, PairName, PairPath, Capture, Value;
    if pairs != [] {
      if IndexOf(pairs[0], '=') < 1 {
        PairsKeepName(w, validate, pairs[1..], json, s, g);
      } else {
        var name, value := PairName(pairs[0]), w.pick(json, PairPath(pairs[0]));
        var r := Capture(w, validate, name, value, s);
        CaptureKeepsName(w, validate, name, value, s, g);
        if r.error.None? { PairsKeepName(w, validate, pairs[1..], json, r.s, g); }
      }
    }
  }

  lemma StdoutKeepsName(w: World, spec: string, stdout: string, validate: Option<string>, s: State, g: string)
    requires g !in StdoutNames(spec)
    ensures Value(BindCapture(w, spec, stdout, validate, s).s.vars, g) == Value(s.vars, g)
  {
    hide Capture, CapturePairs, IndexOf, SplitAt, BoundNames;
    if IndexOf(spec, '=') < 0 {
      CaptureKeepsName(w, validate, spec, stdout, s, g);
    } else if w.parse(stdout).Some? {
      PairsKeepName(w, validate, SplitAt(spec, ','), w.parse(stdout).value, s, g);
    }
  }

  lemma {:induction false} FieldsKeepName(pairs: seq<string>, fields: map<string, string>, s: State, g: string)
    requires g !in BoundNames(pairs)
    ensures Value(CaptureFields(pairs, fields, s).vars, g) == Value(s.vars, g)
  {
    hide IndexOf, PairName, PairPath, Trim;
    if pairs != [] {
      if IndexOf(pairs[0], '=') < 1 {
        FieldsKeepName(pairs[1..], fields, s, g);
      } else {
        var path := PairPath(pairs[0]);
        FieldsKeepName(pairs[1..], fields, Bind(s, PairName(pairs[0]), if path in fields then Trim(fields[path]) else ""), g);
      }
    }
  }

  lemma RunLineKeepsName(w: World, i: nat, op: LineOp, l: string, s: State, g: string)
    requires op.RunCommand? && g !in OpNames(op)
    ensures Value(DoLine(w, i, op, l, s).s.vars, g) == Value(s.vars, g)
  {
    hide StdoutNames, BindCapture, Substitute, Trim, Value;
    if op.capture.Some? {
      var cmd := Shell(Filled(l, s.vars));
      StdoutKeepsName(w, op.capture.value, Trim(Answer(w, s, cmd).text), op.validate, Exec(w, i, cmd, s).s, g);
    }
  }

  lemma LineKeepsName(w: World, i: nat, op: LineOp, l: string, s: State, g: string)
    requires g !in OpNames(op)
    ensures Value(DoLine(w, i, op, l, s).s.vars, g) == Value(s.vars, g)
  {
    hide DoLine, OpNames, Value;
    if op.RunCommand? { RunLineKeepsName(w, i, op, l, s, g); } else { PlainLineKeepsVars(w, i, op, l, s); }
  }

  lemma {:induction false} EachKeepsName(w: World, i: nat, op: LineOp, body: seq<string>, s: State, g: string)
    requires body == [] || g !in OpNames(op)
    ensures Value(Each(w, i, op, body, s).s.vars, g) == Value(s.vars, g)
  {
    hide DoLine, OpNames;
    if body != [] {
      var r := DoLine(w, i, op, body[0], s);
      LineKeepsName(w, i, op, body[0], s, g);
      if r.error.None? { EachKeepsName(w, i, op, body[1..], r.s, g); }
    }
  }

  lemma CopyKeepsName(w: World, i: nat, d: Directive, s: State, g: string)
    ensures Value(ApplyCopy(w, i, d, s).s.vars, g) == Value(s.vars, g)
  {
    hide Each, WroteAll;
    var branch := OrEmpty(d, "from-branch");
    var fetched := if branch == "" then Done(s, None) else Exec(w, i, GitFetch(branch), s);
    EachKeepsName(w, i, if branch == "" then CopyLocal else CopyBranch(branch), d.body, fetched.s, g);
  }

  lemma StreamKeepsName(w: World, i: nat, d: Directive, s: State, g: string)
    requires d.kind == "run" && Effect(d) == "step" && g !in WorkNames(d)
    ensures Value(ApplyStream(w, i, d, s).s.vars, g) == Value(s.vars, g)
  {
    hide CaptureFields, Substitute, SplitAt, Trim, JoinLines, BoundNames;
    var pairs := SplitAt(OrEmpty(d, "capture"), ',');
    var out := w.stream(s.tick + 1, Filled(JoinLines(d.body), s.vars));
    if OrEmpty(d, "capture") != "" {
      FieldsKeepName(pairs, out.fields, s.(tick := s.tick + 1, calls := s.calls + [Streaming(i, Filled(JoinLines(d.body), s.vars))]), g);
    }
  }

  lemma MergeKeepsVars(w: World, d: Directive, s: State)
    ensures ApplyMerge(w, d, s).s.vars == s.vars
  {
    hide JoinLines, ReadArray, FindElement, Write, Field;
    var into, key := Printed(d, "into"), Printed(d, "key");
    match (w.parse(JoinLines(d.body)), ReadArray(w, s.tree, into))
    case (Some(obj), Some(items)) =>
      var at := FindElement(items, key, Field(obj, key));
      WriteKeepsVars(w, into, Entries(items + [obj]), s);
      if at < |items| { WriteKeepsVars(w, into, Entries(items[at := obj]), s); }
    case _ =>
  }

  lemma DepKeepsVars(w: World, i: nat, d: Directive, s: State)
    ensures ApplyDep(w, i, d, s).s.vars == s.vars
  {
  }

  lemma ApplyKeepsName(w: World, i: nat, d: Directive, s: State, g: string)
    requires g !in WorkNames(d)
    ensures Value(ApplyOne(w, i, d, s).s.vars, g) == Value(s.vars, g)
  {
    hide Each, ApplyCopy, ApplyStream, ApplyDep, ApplyMerge, SplitAt, BoundNames, Value, RunOp;
    CopyKeepsName(w, i, d, s, g);
    MergeKeepsVars(w, d, s);
    DepKeepsVars(w, i, d, s);
    PlainOpFits(w);
    AppendOpFits(w, d);
    if d.kind == "append" { EachKeepsName(w, i, AppendOp(d), d.body, s, g); }
    else if d.kind == "env-set" { EachKeepsName(w, i, SetEnv, d.body, s, g); }
    else if d.kind == "run" {
      if Effect(d) == "check" { EachKeepsName(w, i, Check, d.body, s, g); }
      else if Effect(d) == "step" { StreamKeepsName(w, i, d, s, g); }
      else { EachKeepsName(w, i, RunOp(d), d.body, s, g); }
    }
  }

  lemma CatchKeepsVars(w: World, i: nat, inFlight: Option<Option<string>>, e: Thrown, s: State)
    ensures Catch(w, i, inFlight, e, s).vars == s.vars
  {
    hide Contains, Emit;
    if inFlight.Some? { EmitKeeps(w, StepEnd(i, inFlight.value, false), s); }
  }

  lemma DoStepKeepsName(w: World, i: nat, d: Directive, s: State, g: string)
    requires g !in WorkNames(d)
    ensures Value(DoStep(w, i, d, s).vars, g) == Value(s.vars, g)
  {
    hide ApplyOne, Catch, Emit, WorkNames, Value;
    var caption := w.caption(d);
    var started := Emit(w, StepStart(i, caption), s);
    EmitKeeps(w, StepStart(i, caption), s);
    if started.error.Some? {
      CatchKeepsVars(w, i, None, started.error.value, started.s);
    } else {
      var r := ApplyOne(w, i, d, started.s);
      ApplyKeepsName(w, i, d, started.s, g);
      if r.error.Some? {
        CatchKeepsVars(w, i, Some(caption), r.error.value, r.s);
      } else {
        var ended := Emit(w, StepEnd(i, caption, true), r.s);
        EmitKeeps(w, StepEnd(i, caption, true), r.s);
        if ended.error.Some? { CatchKeepsVars(w, i, None, ended.error.value, ended.s); }
      }
    }
  }

  lemma OperatorKeepsVars(w: World, i: nat, d: Directive, s: State)
    ensures DoOperator(w, i, d, s).vars == s.vars
  {
    hide Substitute, Contains, JoinLines;
  }

  lemma OtherKeepsName(w: World, i: nat, d: Directive, s: State, g: string)
    requires d.kind != "prompt" && g !in WorkNames(d)
    ensures Value(Step(w, i, d, s).vars, g) == Value(s.vars, g)
  {
    hide DoStep, DoOperator, SelfStatus, Catch, WorkNames, Value, GuardMet, DoPrompt, SideEffect, Validation, Effect;
    DoStepKeepsName(w, i, d, s, g);
    OperatorKeepsVars(w, i, d, s);
    CatchKeepsVars(w, i, None, Thrown(w.reason(s.tick, "."), false), s);
  }

  // ---------------------------------------------------------------------------
  // Prompts
  // ---------------------------------------------------------------------------

  /** The same inputs, and the same pure rules for accepting them. */
  ghost predicate SameAnswers(a: World, b: World) {
    && a.mode == b.mode && a.inputs == b.inputs
    && (forall s :: a.lower(s) == b.lower(s))
    && (forall re, flags :: a.validRegex(re, flags) == b.validRegex(re, flags))
    && (forall re, flags, s :: a.matches(re, flags, s) == b.matches(re, flags, s))
  }

  /** What binding `value` leaves for the prompt's own name. */
  lemma BindPromptValue(w: World, i: nat, d: Directive, value: string, s: State, g: string)
    ensures Value(BindPrompt(w, i, d, value, s).vars, g) ==
            (var bound := Normalize(w, Attr(d, "normalize"), value);
             var validate, flags := Attr(d, "validate"), Attr(d, "flags");
             if PromptVar(d) == Some(g) && (validate.Some? ==> w.validRegex(validate.value, flags) && w.matches(validate.value, flags, bound))
             then Some(Var(bound, "secret" in d.args)) else Value(s.vars, g))
  {
    hide Normalize, PromptKey, Catch;
    CatchKeepsVars(w, i, None, Thrown("invalid regular expression", false), s);
  }

  lemma NormalizeAgrees(a: World, b: World, how: Option<string>, value: string)
    requires SameAnswers(a, b)
    ensures Normalize(a, how, value) == Normalize(b, how, value)
  {
    hide Trim, StripSlashes;
  }

  lemma PromptKeepsOther(w: World, i: nat, d: Directive, s: State, g: string)
    requires PromptVar(d) != Some(g)
    ensures Value(DoPrompt(w, i, d, s).vars, g) == Value(s.vars, g)
  {
    hide BindPrompt, Catch, Normalize;
    var key := PromptKey(d);
    var s1 := s.(tick := s.tick + 1);
    if key in w.inputs { BindPromptValue(w, i, d, w.inputs[key], s, g); }
    match w.resolve(s1.tick, key)
    case Resolved(value) => BindPromptValue(w, i, d, value, s1, g);
    case NoAnswer =>
    case ResolveThrew(message) => CatchKeepsVars(w, i, None, Thrown(message, false), Fault(s1));
  }

  lemma PromptAgrees(a: World, b: World, i: nat, d: Directive, s: State, t: State, g: string)
    requires SameAnswers(a, b) && Value(s.vars, g) == Value(t.vars, g)
    requires PromptVar(d) == Some(g) ==> g in a.inputs
    ensures Value(DoPrompt(a, i, d, s).vars, g) == Value(DoPrompt(b, i, d, t).vars, g)
  {
    hide BindPrompt, Catch, Normalize, Value;
    if PromptVar(d) == Some(g) {
      NormalizeAgrees(a, b, Attr(d, "normalize"), a.inputs[g]);
      BindPromptValue(a, i, d, a.inputs[g], s, g);
      BindPromptValue(b, i, d, b.inputs[g], t, g);
    } else {
      PromptKeepsOther(a, i, d, s, g);
      PromptKeepsOther(b, i, d, t, g);
    }
  }

  // ---------------------------------------------------------------------------
  // Guards
  // ---------------------------------------------------------------------------

  predicate IsGuardName(ds: seq<Directive>, g: string) {
    exists i | 0 <= i < |ds| :: GuardOf(ds[i]).Some? && GuardOf(ds[i]).value.name == g
  }

  /** Every guard variable is bound only by prompts that the inputs answer. */
  ghost predicate GuardsFromInputs(w: World, ds: seq<Directive>) {
    forall g, j | IsGuardName(ds, g) && 0 <= j < |ds| ::
      && (ds[j].kind == "prompt" && PromptVar(ds[j]) == Some(g) ==> g in w.inputs)
      && (ds[j].kind != "prompt" ==> g !in WorkNames(ds[j]))
  }

  ghost predicate GuardsAgree(ds: seq<Directive>, s: State, t: State) {
    forall g :: IsGuardName(ds, g) ==> Value(s.vars, g) == Value(t.vars, g)
  }

  lemma AgreedGuard(ds: seq<Directive>, i: nat, s: State, t: State)
    requires i < |ds| && GuardsAgree(ds, s, t)
    ensures GuardMet(ds[i], s.vars) == GuardMet(ds[i], t.vars)
  {
    hide Attr;
    if GuardOf(ds[i]).Some? {
      var g := GuardOf(ds[i]).value.name;
      assert IsGuardName(ds, g);
      assert Value(s.vars, g) == Value(t.vars, g);
    }
  }

  lemma StepPrompt(w: World, i: nat, d: Directive, s: State)
    requires d.kind == "prompt"
    ensures Step(w, i, d, s).vars == if w.mode == Refresh || !GuardMet(d, s.vars) then s.vars else DoPrompt(w, i, d, s).vars
  {
    hide DoPrompt, GuardMet;
  }

  lemma StepAgrees(a: World, b: World, ds: seq<Directive>, i: nat, s: State, t: State)
    requires i < |ds| && SameAnswers(a, b) && GuardsFromInputs(a, ds) && GuardsAgree(ds, s, t)
    ensures GuardsAgree(ds, Step(a, i, ds[i], s), Step(b, i, ds[i], t))
  {
    hide Step, DoPrompt, GuardMet, WorkNames, IsGuardName, Value, PromptVar;
    var d := ds[i];
    AgreedGuard(ds, i, s, t);
    forall g | IsGuardName(ds, g) ensures Value(Step(a, i, d, s).vars, g) == Value(Step(b, i, d, t).vars, g) {
      if d.kind == "prompt" {
        StepPrompt(a, i, d, s);
        StepPrompt(b, i, d, t);
        PromptAgrees(a, b, i, d, s, t, g);
      } else {
        OtherKeepsName(a, i, d, s, g);
        OtherKeepsName(b, i, d, t, g);
      }
    }
  }

  lemma InitialAgrees(ds: seq<Directive>, t: Tree, u: Tree)
    ensures GuardsAgree(ds, Initial(t), Initial(u))
  {
    hide IsGuardName;
  }

  /** Whatever the two trees and the two sets of command answers, the guard variables stay equal. */
  lemma {:induction false} RunsAgree(a: World, b: World, ds: seq<Directive>, t: Tree, u: Tree, n: nat)
    requires n <= |ds| && SameAnswers(a, b) && GuardsFromInputs(a, ds)
    ensures GuardsAgree(ds, Run(a, ds, t, n), Run(b, ds, u, n))
  {
    hide *;
    if n == 0 {
      RunStarts(a, ds, t);
      RunStarts(b, ds, u);
      InitialAgrees(ds, t, u);
    } else {
      RunsAgree(a, b, ds, t, u, n - 1);
      RunUnfolds(a, ds, t, n);
      RunUnfolds(b, ds, u, n);
      StepAgrees(a, b, ds, n - 1, Run(a, ds, t, n - 1), Run(b, ds, u, n - 1));
    }
  }

  // ---------------------------------------------------------------------------
  // The second run as a whole
  // ---------------------------------------------------------------------------

  /** What the second run needs of the first run and of the directive list. */
  ghost predicate Rerun(first: World, second: World, ds: seq<Directive>, t0: Tree) {
    && Premises(first, ds) && Premises(second, ds)
    && SameJson(first, second) && SameAnswers(first, second) && GuardsFromInputs(first, ds)
    && FullyApplied(Run(first, ds, t0, |ds|))
    && forall i | 0 <= i < |ds| ::
         Local(ds[i]) && GuardMet(ds[i], Run(first, ds, t0, i).vars) ==> Repeatable(first, ds[i], Run(first, ds, t0, i).vars)
  }

  lemma RerunSkips(first: World, second: World, ds: seq<Directive>, t0: Tree, i: nat)
    requires i < |ds| && Rerun(first, second, ds, t0) && Local(ds[i])
    ensures var left := Run(first, ds, t0, |ds|).tree;
            var s := Run(second, ds, left, i);
            Run(second, ds, left, i + 1) == Skipped(s, i, if GuardMet(ds[i], s.vars) then AlreadyPresent else GuardUnmet)
  {
    hide Run, Premises, SameJson, SameAnswers, GuardsFromInputs, Local, Repeatable, GuardMet, GuardsAgree, Skipped, FullyApplied;
    var left := Run(first, ds, t0, |ds|).tree;
    RunsAgree(first, second, ds, t0, left, i);
    AgreedGuard(ds, i, Run(first, ds, t0, i), Run(second, ds, left, i));
    SecondRunSkips(first, second, ds, t0, i);
  }

  /** A path no other directive names. */
  predicate LocalPath(ds: seq<Directive>, p: string) {
    forall i | 0 <= i < |ds| :: Touches(ds[i], p) ==> Local(ds[i])
  }

  /**
   * Second run does nothing: every path the local directives own is left as it was,
   * and no journal entry is about one.
   */
  lemma {:induction false} SecondRunWritesNothing(first: World, second: World, ds: seq<Directive>, t0: Tree, p: string, n: nat)
    requires n <= |ds| && Rerun(first, second, ds, t0) && Quiet(second, p) && LocalPath(ds, p)
    ensures var left := Run(first, ds, t0, |ds|).tree; Kept(p, Initial(left), Run(second, ds, left, n))
  {
    hide *;
    var left := Run(first, ds, t0, |ds|).tree;
    if n == 0 {
      RunStarts(second, ds, left);
      InitialKept(left, p);
    } else {
      SecondRunWritesNothing(first, second, ds, t0, p, n - 1);
      var s := Run(second, ds, left, n - 1);
      if Local(ds[n - 1]) {
        RerunSkips(first, second, ds, t0, n - 1);
        SkippedKept(p, s, n - 1, if GuardMet(ds[n - 1], s.vars) then AlreadyPresent else GuardUnmet);
      } else {
        NotLocalPath(ds, p, n - 1);
        RunUnfolds(second, ds, left, n);
        StepKeepsElsewhere(second, n - 1, ds[n - 1], s, p);
      }
      KeptCompose(p, Initial(left), s, Run(second, ds, left, n));
    }
  }

  lemma SkippedKept(p: string, s: State, i: nat, reason: SkipReason)
    ensures Kept(p, s, Skipped(s, i, reason))
  {
  }

  lemma NotLocalPath(ds: seq<Directive>, p: string, i: nat)
    requires i < |ds| && LocalPath(ds, p) && !Local(ds[i])
    ensures !Touches(ds[i], p)
  {
    hide Touches, Local;
  }
}
