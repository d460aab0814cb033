/** What one directive may do to one path of the tree and to the journal. */
module Effects {
  import opened Text
  import opened Directives
  import opened Vars
  import opened Engine
  import opened EngineOutcomes

  // ---------------------------------------------------------------------------
  // A path in a tree, and who names it
  // ---------------------------------------------------------------------------

  function At(tree: Tree, p: string): Option<File> { if p in tree then Some(tree[p]) else None }

  predicate CopiesTo(d: Directive, p: string) {
    d.kind == "copy" && exists k | 0 <= k < |d.body| :: DestOf(d.body[k]) == p
  }

  predicate EditsText(d: Directive, p: string) {
    (d.kind == "append" && Printed(d, "to") == p) || (d.kind == "env-set" && p == ".env")
  }

  predicate EditsArray(d: Directive, p: string) { d.kind == "json-merge" && Printed(d, "into") == p }

  predicate Touches(d: Directive, p: string) { CopiesTo(d, p) || EditsText(d, p) || EditsArray(d, p) }

  /** Commands leave `p` alone, but `git show` may write the destination it was given. */
  ghost predicate Quiet(w: World, p: string) {
    forall n: nat, cmd :: p !in w.exec(n, cmd).removes && (p in w.exec(n, cmd).writes ==> cmd.GitShow? && cmd.dest == p)
  }

  // ---------------------------------------------------------------------------
  // Leaving a path alone
  // ---------------------------------------------------------------------------

  /** The tree at `p` and the journal as far as it is about `p` are the same. */
  ghost predicate Kept(p: string, s: State, s': State) {
    && At(s'.tree, p) == At(s.tree, p)
    && s.journal <= s'.journal
    && forall k | |s.journal| <= k < |s'.journal| :: Target(s'.journal[k]) != Some(p)
  }

  lemma KeptCompose(p: string, a: State, b: State, c: State)
    requires Kept(p, a, b) && Kept(p, b, c)
    ensures Kept(p, a, c)
  {
    hide At, Target;
    forall k | |a.journal| <= k < |c.journal| ensures Target(c.journal[k]) != Some(p) {
      if k < |b.journal| { assert c.journal[k] == b.journal[k]; }
    }
  }

  lemma KeptIfSame(p: string, s: State, s': State)
    requires s'.tree == s.tree && s'.journal == s.journal
    ensures Kept(p, s, s')
  {
  }

  lemma WriteKeeps(w: World, path: string, file: File, s: State, p: string)
    requires path != p
    ensures Kept(p, s, Write(w, path, file, s).s)
  {
  }

  lemma JournalKeeps(s: State, e: Entry, p: string)
    requires Target(e) != Some(p)
    ensures Kept(p, s, Journal(s, e))
  {
  }

  lemma ExecKeeps(w: World, i: nat, cmd: Command, s: State, p: string)
    requires Quiet(w, p) && (cmd.GitShow? ==> cmd.dest != p)
    ensures Kept(p, s, Exec(w, i, cmd, s).s)
  {
    var a := Answer(w, s, cmd);
    assert p !in w.exec(s.tick + 1, cmd).removes;
  }

  lemma {:induction false} PairsKeep(w: World, validate: Option<string>, pairs: seq<string>, json: Json, s: State)
    ensures var r := CapturePairs(w, validate, pairs, json, s).s; r.tree == s.tree && r.journal == s.journal
  {
    hide IndexOf, PairName, PairPath;
    if pairs != [] {
      if IndexOf(pairs[0], '=') < 1 {
        PairsKeep(w, validate, pairs[1..], json, s);
      } else {
        var r := Capture(w, validate, PairName(pairs[0]), w.pick(json, PairPath(pairs[0])), s);
        if r.error.None? { PairsKeep(w, validate, pairs[1..], json, r.s); }
      }
    }
  }

  lemma CaptureKeeps(w: World, validate: Option<string>, name: string, value: string, s: State)
    ensures var r := Capture(w, validate, name, value, s).s; r.tree == s.tree && r.journal == s.journal
  {
  }

  lemma BindKeeps(w: World, spec: string, stdout: string, validate: Option<string>, s: State)
    ensures var r := BindCapture(w, spec, stdout, validate, s).s; r.tree == s.tree && r.journal == s.journal
  {
    hide Capture, CapturePairs, SplitAt, IndexOf;
    CaptureKeeps(w, validate, spec, stdout, s);
    if w.parse(stdout).Some? { PairsKeep(w, validate, SplitAt(spec, ','), w.parse(stdout).value, s); }
  }

  lemma {:induction false} FieldsKeep(pairs: seq<string>, fields: map<string, string>, s: State)
    ensures var r := CaptureFields(pairs, fields, s); r.tree == s.tree && r.journal == s.journal
  {
    hide IndexOf, PairName, PairPath;
    if pairs != [] {
      if IndexOf(pairs[0], '=') < 1 {
        FieldsKeep(pairs[1..], fields, s);
      } else {
        var path := PairPath(pairs[0]);
        FieldsKeep(pairs[1..], fields, Bind(s, PairName(pairs[0]), if path in fields then Trim(fields[path]) else ""));
      }
    }
  }

  /** The path a body line edits directly. */
  function Edits(op: LineOp, l: string): Option<string> {
    match op
    case CopyLocal => Some(DestOf(l))
    case CopyBranch(_) => Some(DestOf(l))
    case AppendTo(path) => Some(path)
    case InsertAt(path, _) => Some(path)
    case Check => None
    case RunCommand(_, _, _) => None
    case SetEnv => Some(".env")
  }

  lemma RunLineKeeps(w: World, i: nat, op: LineOp, l: string, s: State, p: string)
    requires Quiet(w, p) && op.RunCommand?
    ensures Kept(p, s, DoLine(w, i, op, l, s).s)
  {
    hide Quiet, Kept, BindCapture, Exec, Substitute, Quiet;
    KeptIfSame(p, s, s);
    var cmd := Shell(Filled(l, s.vars));
    var ran := Exec(w, i, cmd, s);
    ExecKeeps(w, i, cmd, s, p);
    if ran.error.None? && Resolve(l, s).error.None? {
      var bound := ran.s;
      if op.capture.Some? {
        var stdout := Trim(Answer(w, s, cmd).text);
        BindKeeps(w, op.capture.value, stdout, op.validate, ran.s);
        bound := BindCapture(w, op.capture.value, stdout, op.validate, ran.s).s;
      }
      KeptIfSame(p, ran.s, bound);
      KeptCompose(p, s, ran.s, bound);
      JournalKeeps(bound, CommandRan(l, op.undo), p);
      KeptCompose(p, s, bound, Journal(bound, CommandRan(l, op.undo)));
    }
  }

  lemma WriteJournalKeeps(w: World, path: string, file: File, e: Entry, s: State, p: string)
    requires path != p && Target(e) != Some(p)
    ensures Kept(p, s, Write(w, path, file, s).s) && Kept(p, s, Journal(Write(w, path, file, s).s, e))
  {
    hide Kept, Write;
    WriteKeeps(w, path, file, s, p);
    JournalKeeps(Write(w, path, file, s).s, e, p);
    KeptCompose(p, s, Write(w, path, file, s).s, Journal(Write(w, path, file, s).s, e));
  }

  /** A body line about another path. */
  lemma LineKeeps(w: World, i: nat, op: LineOp, l: string, s: State, p: string)
    requires Quiet(w, p) && Edits(op, l) != Some(p)
    ensures Kept(p, s, DoLine(w, i, op, l, s).s)
  {
    hide Quiet, Kept, Exec, Write, Substitute, EnvKeySet, SplitLines;
    KeptIfSame(p, s, s);
    KeptIfSame(p, s, Fault(s));
    match op
    case CopyLocal =>
      if w.source(SourceOf(l)).Some? { WriteKeeps(w, DestOf(l), w.source(SourceOf(l)).value, s, p); }
    case CopyBranch(branch) => ExecKeeps(w, i, GitShow(branch, SourceOf(l), DestOf(l)), s, p);
    case AppendTo(path) =>
      WriteJournalKeeps(w, path, Lines(WithLine(ReadLines(w, s.tree, path), l)), Appended(path, l), s, p);
    case InsertAt(path, marker) =>
      var lines := ReadLines(w, s.tree, path);
      var at := MarkerAt(lines, "<<< " + marker);
      if at < |lines| {
        WriteJournalKeeps(w, path, Lines(lines[..at] + [Indent(lines[at]) + l] + lines[at..]), Appended(path, l), s, p);
      }
    case Check => ExecKeeps(w, i, Shell(Filled(l, s.vars)), s, p);
    case RunCommand(_, _, _) => RunLineKeeps(w, i, op, l, s, p);
    case SetEnv =>
      var text := SplitLines(EnvKey(l) + "=" + Filled(EnvTemplate(l), s.vars));
      WriteJournalKeeps(w, ".env", Lines(WithLines(ReadLines(w, s.tree, ".env"), text)), EnvSet(EnvKey(l)), s, p);
  }

  lemma WriteKeepsVars(w: World, path: string, file: File, s: State)
    ensures Write(w, path, file, s).s.vars == s.vars
  {
  }

  lemma PlainLineKeepsVars(w: World, i: nat, op: LineOp, l: string, s: State)
    requires !op.RunCommand?
    ensures DoLine(w, i, op, l, s).s.vars == s.vars
  {
    hide Substitute, EnvKeySet, ReadLines, SplitLines, WithLine, WithLines, MarkerAt, Indent, Write, EnvKey, EnvTemplate, SourceOf, DestOf;
    match op
    case CopyLocal =>
      if w.source(SourceOf(l)).Some? { WriteKeepsVars(w, DestOf(l), w.source(SourceOf(l)).value, s); }
    case AppendTo(path) => WriteKeepsVars(w, path, Lines(WithLine(ReadLines(w, s.tree, path), l)), s);
    case InsertAt(path, marker) =>
      var lines := ReadLines(w, s.tree, path);
      var at := MarkerAt(lines, "<<< " + marker);
      if at < |lines| { WriteKeepsVars(w, path, Lines(lines[..at] + [Indent(lines[at]) + l] + lines[at..]), s); }
    case SetEnv =>
      var text := SplitLines(EnvKey(l) + "=" + Filled(EnvTemplate(l), s.vars));
      WriteKeepsVars(w, ".env", Lines(WithLines(ReadLines(w, s.tree, ".env"), text)), s);
    case _ =>
  }

  lemma {:induction false} EachKeeps(w: World, i: nat, op: LineOp, body: seq<string>, s: State, p: string)
    requires Quiet(w, p) && forall k | 0 <= k < |body| :: Edits(op, body[k]) != Some(p)
    ensures Kept(p, s, Each(w, i, op, body, s).s)
  {
    hide DoLine, Quiet, Kept, Edits;
    KeptIfSame(p, s, s);
    if body != [] {
      var r := DoLine(w, i, op, body[0], s);
      LineKeeps(w, i, op, body[0], s, p);
      if r.error.None? {
        EachKeeps(w, i, op, body[1..], r.s, p);
        KeptCompose(p, s, r.s, Each(w, i, op, body[1..], r.s).s);
      }
    }
  }

  lemma {:induction false} WroteEntries(body: seq<string>)
    ensures |WroteAll(body)| == |body|
    ensures forall k | 0 <= k < |body| :: WroteAll(body)[k] == Wrote(DestOf(body[k]))
  {
    if body != [] { WroteEntries(body[1..]); }
  }

  lemma CopyKeeps(w: World, i: nat, d: Directive, s: State, p: string)
    requires Quiet(w, p) && d.kind == "copy" && !CopiesTo(d, p)
    ensures Kept(p, s, ApplyCopy(w, i, d, s).s)
  {
    hide Quiet, Kept, Each, Exec, DestOf;
    KeptIfSame(p, s, s);
    var branch := OrEmpty(d, "from-branch");
    ExecKeeps(w, i, GitFetch(branch), s, p);
    var fetched := if branch == "" then Done(s, None) else Exec(w, i, GitFetch(branch), s);
    if fetched.error.None? {
      var op := if branch == "" then CopyLocal else CopyBranch(branch);
      EachKeeps(w, i, op, d.body, fetched.s, p);
      var r := Each(w, i, op, d.body, fetched.s);
      KeptCompose(p, s, fetched.s, r.s);
      WroteKeeps(d, r.s, p);
      KeptCompose(p, s, r.s, r.s.(journal := r.s.journal + WroteAll(d.body)));
    }
  }

  lemma WroteKeeps(d: Directive, s: State, p: string)
    requires d.kind == "copy" && !CopiesTo(d, p)
    ensures Kept(p, s, s.(journal := s.journal + WroteAll(d.body)))
  {
    hide WroteAll, DestOf;
    WroteEntries(d.body);
  }

  lemma StreamKeeps(w: World, i: nat, d: Directive, s: State, p: string)
    ensures Kept(p, s, ApplyStream(w, i, d, s).s)
  {
    hide CaptureFields, Substitute, SplitAt, Trim, JoinLines;
    var script := JoinLines(d.body);
    var out := w.stream(s.tick + 1, Filled(script, s.vars));
    var s1 := s.(tick := s.tick + 1, calls := s.calls + [Streaming(i, Filled(script, s.vars))]);
    FieldsKeep(SplitAt(OrEmpty(d, "capture"), ','), out.fields, s1);
  }

  lemma DepKeeps(w: World, i: nat, d: Directive, s: State, p: string)
    requires Quiet(w, p)
    ensures Kept(p, s, ApplyDep(w, i, d, s).s)
  {
    hide Quiet, Kept, Exec;
    ExecKeeps(w, i, DepCommand(d), s, p);
    var r := Exec(w, i, DepCommand(d), s).s;
    var e := CommandRan(InstallText(d), Some(UninstallText(d)));
    JournalKeeps(r, e, p);
    KeptCompose(p, s, r, Journal(r, e));
  }

  lemma MergeKeeps(w: World, d: Directive, s: State, p: string)
    requires d.kind == "json-merge" && !EditsArray(d, p)
    ensures Kept(p, s, ApplyMerge(w, d, s).s)
  {
    hide Kept, Write;
    KeptIfSame(p, s, s);
    KeptIfSame(p, s, Fault(s));
    var into, key := Printed(d, "into"), Printed(d, "key");
    match (w.parse(JoinLines(d.body)), ReadArray(w, s.tree, into))
    case (Some(obj), Some(items)) =>
      var value := Field(obj, key);
      var at := FindElement(items, key, value);
      WriteJournalKeeps(w, into, Entries(items + [obj]), Merged(into, key, value, None), s, p);
      if at < |items| {
        WriteJournalKeeps(w, into, Entries(items[at := obj]), Merged(into, key, value, Some(items[at])), s, p);
      }
    case _ =>
  }

  lemma RunOpIsRun(d: Directive)
    ensures RunOp(d).RunCommand?
  {
  }

  /** A directive that does not name `p` leaves it alone. */
  lemma ApplyOneKeeps(w: World, i: nat, d: Directive, s: State, p: string)
    requires Quiet(w, p) && !Touches(d, p)
    ensures Kept(p, s, ApplyOne(w, i, d, s).s)
  {
    hide Quiet, Kept, Each, ApplyCopy, ApplyStream, ApplyDep, ApplyMerge, CopiesTo, RunOp, Printed;
    if d.kind == "copy" { CopyKeeps(w, i, d, s, p); }
    else if d.kind == "append" { EachKeeps(w, i, AppendOp(d), d.body, s, p); }
    else if d.kind == "dep" { DepKeeps(w, i, d, s, p); }
    else if d.kind == "run" {
      if Effect(d) == "check" { EachKeeps(w, i, Check, d.body, s, p); }
      else if Effect(d) == "step" { StreamKeeps(w, i, d, s, p); }
      else { RunOpIsRun(d); EachKeeps(w, i, RunOp(d), d.body, s, p); }
    }
    else if d.kind == "env-set" { EachKeeps(w, i, SetEnv, d.body, s, p); }
    else if d.kind == "json-merge" { MergeKeeps(w, d, s, p); }
    else { KeptIfSame(p, s, s); }
  }

  // ---------------------------------------------------------------------------
  // A step is its work on the tree, or nothing
  // ---------------------------------------------------------------------------

  predicate SameWork(a: State, b: State) { a.tree == b.tree && a.journal == b.journal }

  lemma EmitKeeps(w: World, e: Event, s: State)
    ensures SameWork(Emit(w, e, s).s, s) && Emit(w, e, s).s.vars == s.vars
  {
  }

  lemma CatchKeepsWork(w: World, i: nat, inFlight: Option<Option<string>>, e: Thrown, s: State)
    ensures SameWork(Catch(w, i, inFlight, e, s), s)
  {
    hide Emit, Contains;
    if inFlight.Some? { EmitKeeps(w, StepEnd(i, inFlight.value, false), s); }
  }

  lemma CatchIsNotFull(w: World, i: nat, inFlight: Option<Option<string>>, e: Thrown, s: State)
    ensures !FullyApplied(Catch(w, i, inFlight, e, s)) && s.faults <= Catch(w, i, inFlight, e, s).faults
  {
    hide Contains;
  }

  lemma BindPromptKeeps(w: World, i: nat, d: Directive, value: string, s: State)
    ensures SameWork(BindPrompt(w, i, d, value, s), s)
  {
    hide Catch, Normalize, PromptKey;
    CatchKeepsWork(w, i, None, Thrown("invalid regular expression", false), s);
  }

  lemma PromptKeeps(w: World, i: nat, d: Directive, s: State)
    ensures SameWork(DoPrompt(w, i, d, s), s)
  {
    hide BindPrompt, Catch;
    var key := PromptKey(d);
    var s1 := s.(tick := s.tick + 1);
    if key in w.inputs { BindPromptKeeps(w, i, d, w.inputs[key], s); }
    match w.resolve(s1.tick, key)
    case Resolved(value) => BindPromptKeeps(w, i, d, value, s1);
    case NoAnswer =>
    case ResolveThrew(message) => CatchKeepsWork(w, i, None, Thrown(message, false), Fault(s1));
  }

  lemma OperatorKeeps(w: World, i: nat, d: Directive, s: State)
    ensures SameWork(DoOperator(w, i, d, s), s)
  {
    hide Catch, Emit, Substitute;
    var body := JoinLines(d.body);
    var r := Resolve(body, s);
    if r.error.Some? {
      CatchKeepsWork(w, i, None, r.error.value, s);
    } else {
      var text := Filled(body, s.vars);
      var shown := Emit(w, OperatorShown(i, text), s.(messages := s.messages + [text]));
      EmitKeeps(w, OperatorShown(i, text), s.(messages := s.messages + [text]));
      if shown.error.Some? { CatchKeepsWork(w, i, None, shown.error.value, shown.s); }
    }
  }

  function Started(w: World, i: nat, d: Directive, s: State): State { Emit(w, StepStart(i, w.caption(d)), s).s }

  lemma DoStepIsApply(w: World, i: nat, d: Directive, s: State)
    ensures SameWork(DoStep(w, i, d, s), s) || SameWork(DoStep(w, i, d, s), ApplyOne(w, i, d, Started(w, i, d, s)).s)
  {
    hide Catch, Emit, ApplyOne;
    var caption := w.caption(d);
    var started := Emit(w, StepStart(i, caption), s);
    EmitKeeps(w, StepStart(i, caption), s);
    if started.error.Some? {
      CatchKeepsWork(w, i, None, started.error.value, started.s);
    } else {
      var r := ApplyOne(w, i, d, started.s);
      if r.error.Some? {
        CatchKeepsWork(w, i, Some(caption), r.error.value, r.s);
      } else {
        var ended := Emit(w, StepEnd(i, caption, true), r.s);
        EmitKeeps(w, StepEnd(i, caption, true), r.s);
        if ended.error.Some? { CatchKeepsWork(w, i, None, ended.error.value, ended.s); }
      }
    }
  }

  lemma MutationIsApply(w: World, i: nat, d: Directive, s: State)
    ensures SameWork(DoMutation(w, i, d, s), s) || SameWork(DoMutation(w, i, d, s), ApplyOne(w, i, d, Started(w, i, d, s)).s)
  {
    hide DoStep, ApplyOne, SelfStatus, Catch, Started, SideEffect, Validation, Effect;
    DoStepIsApply(w, i, d, s);
    CatchKeepsWork(w, i, None, Thrown(w.reason(s.tick, "."), false), s);
  }

  /** Whatever happens around it, a directive's effect on tree and journal is nothing or its `applyOne`. */
  lemma StepIsApply(w: World, i: nat, d: Directive, s: State)
    ensures SameWork(Step(w, i, d, s), s) || SameWork(Step(w, i, d, s), ApplyOne(w, i, d, Started(w, i, d, s)).s)
    ensures SameWork(Started(w, i, d, s), s) && Started(w, i, d, s).vars == s.vars
  {
    hide DoPrompt, DoOperator, DoMutation, ApplyOne, Emit, GuardMet, OutsideRefresh;
    EmitKeeps(w, StepStart(i, w.caption(d)), s);
    PromptKeeps(w, i, d, s);
    OperatorKeeps(w, i, d, s);
    MutationIsApply(w, i, d, s);
  }

  lemma SameWorkKept(p: string, s: State, s': State)
    requires SameWork(s', s)
    ensures Kept(p, s, s')
  {
  }

  lemma RunStarts(w: World, ds: seq<Directive>, t0: Tree)
    ensures Run(w, ds, t0, 0) == Initial(t0)
  {
  }

  lemma {:induction false} RunKeeps(w: World, ds: seq<Directive>, t0: Tree, p: string, n: nat)
    requires n <= |ds| && Quiet(w, p) && forall i | 0 <= i < |ds| :: !Touches(ds[i], p)
    ensures Kept(p, Initial(t0), Run(w, ds, t0, n))
  {
    hide *;
    if n == 0 {
      RunStarts(w, ds, t0);
      InitialKept(t0, p);
    } else {
      RunKeeps(w, ds, t0, p, n - 1);
      RunUnfolds(w, ds, t0, n);
      var d, s := ds[n - 1], Run(w, ds, t0, n - 1);
      StepKeepsElsewhere(w, n - 1, d, s, p);
      KeptCompose(p, Initial(t0), s, Run(w, ds, t0, n));
    }
  }

  lemma InitialKept(t0: Tree, p: string)
    ensures Kept(p, Initial(t0), Initial(t0))
  {
  }

  lemma StepKeepsElsewhere(w: World, i: nat, d: Directive, s: State, p: string)
    requires Quiet(w, p) && !Touches(d, p)
    ensures Kept(p, s, Step(w, i, d, s))
  {
    hide Step, Quiet, Touches, Started, ApplyOne, Kept;
    var s', s1 := Step(w, i, d, s), Started(w, i, d, s);
    StepIsApply(w, i, d, s);
    if SameWork(s', s) {
      SameWorkKept(p, s, s');
    } else {
      SameWorkKept(p, s, s1);
      ApplyOneKeeps(w, i, d, s1, p);
      var r := ApplyOne(w, i, d, s1).s;
      SameWorkKept(p, r, s');
      KeptCompose(p, s, s1, r);
      KeptCompose(p, s, r, s');
    }
  }

  lemma SameAtReads(w: World, a: Tree, b: Tree, p: string)
    requires At(a, p) == At(b, p)
    ensures ReadLines(w, a, p) == ReadLines(w, b, p) && ReadArray(w, a, p) == ReadArray(w, b, p)
  {
  }
}
