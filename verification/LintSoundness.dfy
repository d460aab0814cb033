/** A directive list without lint problems is applied in full when nothing outside the engine fails. */
module LintSoundness {
  import opened Text
  import opened Directives
  import opened Vars
  import opened Engine
  import opened EngineOutcomes
  import opened Effects
  import opened Lint

  // ---------------------------------------------------------------------------
  // Premises
  // ---------------------------------------------------------------------------

  predicate Clean(w: World, ds: seq<Directive>, chat: string) { Problems(w, ds, chat, |ds|) == [] }

  /** A capture the engine binds as the linter reads it. */
  predicate CaptureFits(w: World, d: Directive) {
    d.kind == "run" && "capture" in d.attrs ==>
      && Effect(d) != "check" && ("effect" in d.attrs ==> d.attrs["effect"] !in w.skipEffects)
      && (Effect(d) != "step" ==> d.body != [])
      && (Effect(d) == "step" || IndexOf(d.attrs["capture"], '=') >= 0 ==> AllPairs(SplitAt(d.attrs["capture"], ',')))
  }

  predicate AllPairs(pairs: seq<string>) { forall k | 0 <= k < |pairs| :: IndexOf(pairs[k], '=') >= 0 }

  predicate Ready(w: World, d: Directive) {
    && "when" !in d.attrs && CaptureFits(w, d)
    && (d.kind == "run" && Effect(d) == "step" ==> w.hasStream)
  }

  /** The engine substitutes this directive's body as one joined text. */
  predicate Joined(w: World, d: Directive) {
    d.kind == "operator" || (d.kind == "run" && Effect(d) == "step" && "step" !in w.skipEffects)
  }

  /** Every reference of the joined text is to a name defined before it. */
  predicate BlockDefined(w: World, ds: seq<Directive>, i: nat)
    requires i < |ds|
  {
    Joined(w, ds[i]) ==> forall n | n in Refs(JoinLines(ds[i].body)) :: n in Defined(ds, i)
  }

  // ---------------------------------------------------------------------------
  // What the linter established
  // ---------------------------------------------------------------------------

  lemma {:induction false} CleanPrefix(w: World, ds: seq<Directive>, chat: string, i: nat, n: nat)
    requires i < n <= |ds| && Problems(w, ds, chat, n) == []
    ensures Issues(w, ds[i], Defined(ds, i), chat) == []
    decreases n
  {
    hide Issues, Defined;
    var located := Located(ds[n - 1], Issues(w, ds[n - 1], Defined(ds, n - 1), chat));
    assert |located| == 0;
    if i < n - 1 { CleanPrefix(w, ds, chat, i, n - 1); }
  }

  lemma NoIssues(w: World, d: Directive, defined: set<string>, chat: string)
    requires Issues(w, d, defined, chat) == []
    ensures Known(d.kind) && KindIssues(w, d, chat) == [] && RefIssues(LineRefs(d.body), defined) == []
    ensures d.kind == "run" && "validate" in d.attrs ==> w.validRegex(d.attrs["validate"], None)
  {
    hide KindIssues, RefIssues, LineRefs, GuardIssues, Known, Refuse;
  }

  lemma {:induction false} RefsDefined(refs: seq<string>, defined: set<string>)
    requires RefIssues(refs, defined) == []
    ensures forall n | n in refs :: n in defined
  {
    if refs != [] {
      RefsDefined(refs[1..], defined);
      assert refs == [refs[0]] + refs[1..];
    }
  }

  /** The linter's names and the engine's variables, but for the empty name. */
  ghost predicate SameNames(defined: set<string>, vars: Bindings) {
    forall n :: n != "" ==> (n in defined <==> n in vars.Keys)
  }

  lemma {:induction false} RefsAreNames(s: string)
    ensures forall n | n in Refs(s) :: n != ""
    decreases |s|
  {
    hide SkipSpaces, SkipIdent;
    if s != "" {
      match RefAt(s)
      case None => RefsAreNames(s[1..]);
      case Some(r) =>
        RefNamed(s);
        RefsAreNames(s[r.length..]);
    }
  }

  lemma RefNamed(s: string)
    requires RefAt(s).Some?
    ensures RefAt(s).value.name != ""
  {
    var from := SkipSpaces(s, 2);
    assert SkipIdent(s, from) > from;
  }

  lemma {:induction false} LineRefsAreNames(body: seq<string>)
    ensures forall n | n in LineRefs(body) :: n != ""
  {
    hide Refs;
    if body != [] {
      RefsAreNames(body[0]);
      LineRefsAreNames(body[1..]);
    }
  }

  predicate RefsBound(body: seq<string>, names: set<string>) { forall n | n in LineRefs(body) :: n in names }

  lemma RefsBoundParts(body: seq<string>, names: set<string>)
    requires RefsBound(body, names) && body != []
    ensures RefsBound(body[1..], names) && forall n | n in Refs(body[0]) :: n in names
  {
    hide Refs;
  }

  /** The linter's reference check, in terms of the engine's variables. */
  lemma LintedRefs(d: Directive, defined: set<string>, vars: Bindings)
    requires RefIssues(LineRefs(d.body), defined) == [] && SameNames(defined, vars)
    ensures RefsBound(d.body, vars.Keys)
  {
    hide LineRefs, RefIssues;
    RefsDefined(LineRefs(d.body), defined);
    LineRefsAreNames(d.body);
  }

  // ---------------------------------------------------------------------------
  // Captures bind the names the linter expects
  // ---------------------------------------------------------------------------

  function BoundNames(pairs: seq<string>): set<string> {
    if pairs == [] then {}
    else (if IndexOf(pairs[0], '=') < 1 then {} else {PairName(pairs[0])}) + BoundNames(pairs[1..])
  }

  function StdoutNames(spec: string): set<string> {
    if IndexOf(spec, '=') < 0 then {spec} else BoundNames(SplitAt(spec, ','))
  }

  lemma {:induction false} NamesAgree(pairs: seq<string>)
    requires AllPairs(pairs)
    ensures forall n :: n != "" ==> (n in LintNames(pairs) <==> n in BoundNames(pairs))
  {
    hide Trim;
    if pairs != [] {
      assert IndexOf(pairs[0], '=') >= 0;
      if IndexOf(pairs[0], '=') == 0 { assert Trim("") == "" by { BlankTrims(); } }
      NamesAgree(pairs[1..]);
    }
  }

  lemma BlankTrims()
    ensures Trim("") == ""
  {
  }

  /** Without a `=` anywhere there is no pair; the whole spec is not one either. */
  lemma PairsNeedEquals(spec: string)
    requires AllPairs(SplitAt(spec, ','))
    ensures IndexOf(spec, '=') >= 0
  {
    hide SplitAt;
    FirstPart(spec);
    var k := IndexOf(spec, ',');
    var first := SplitAt(spec, ',')[0];
    assert IndexOf(first, '=') >= 0;
    assert spec[IndexOf(first, '=')] == '=';
  }

  lemma FirstPart(spec: string)
    ensures |SplitAt(spec, ',')| > 0 && SplitAt(spec, ',')[0] <= spec
  {
  }

  /** An error is a failure outside; without one exactly `names` are bound. */
  ghost predicate Binds(s: State, r: Done, names: set<string>) {
    && s.faults <= r.s.faults
    && (r.error.Some? ==> s.faults < r.s.faults)
    && (r.error.None? ==> r.s.vars.Keys == s.vars.Keys + names)
  }

  lemma CaptureBinds(w: World, validate: Option<string>, name: string, value: string, s: State)
    ensures Binds(s, Capture(w, validate, name, value, s), {name})
  {
  }

  lemma {:induction false} PairsBind(w: World, validate: Option<string>, pairs: seq<string>, json: Json, s: State)
    ensures Binds(s, CapturePairs(w, validate, pairs, json, s), BoundNames(pairs))
  {
    hide Capture, IndexOf, PairName, PairPath;
    if pairs != [] {
      if IndexOf(pairs[0], '=') < 1 {
        PairsBind(w, validate, pairs[1..], json, s);
      } else {
        var name, value := PairName(pairs[0]), w.pick(json, PairPath(pairs[0]));
        CaptureBinds(w, validate, name, value, s);
        PairsBind(w, validate, pairs[1..], json, Capture(w, validate, name, value, s).s);
      }
    }
  }

  predicate ValidateFits(w: World, validate: Option<string>) {
    validate.Some? && validate.value != "" ==> w.validRegex(validate.value, None)
  }

  lemma StdoutBinds(w: World, spec: string, stdout: string, validate: Option<string>, s: State)
    requires ValidateFits(w, validate)
    ensures Binds(s, BindCapture(w, spec, stdout, validate, s), StdoutNames(spec))
  {
    hide Capture, CapturePairs, IndexOf, SplitAt, BoundNames;
    CaptureBinds(w, validate, spec, stdout, s);
    if w.parse(stdout).Some? { PairsBind(w, validate, SplitAt(spec, ','), w.parse(stdout).value, s); }
  }

  lemma {:induction false} FieldsBind(pairs: seq<string>, fields: map<string, string>, s: State)
    ensures CaptureFields(pairs, fields, s).vars.Keys == s.vars.Keys + BoundNames(pairs)
    ensures CaptureFields(pairs, fields, s).faults == s.faults
  {
    hide IndexOf, PairName, PairPath, Trim;
    if pairs != [] {
      if IndexOf(pairs[0], '=') < 1 {
        FieldsBind(pairs[1..], fields, s);
      } else {
        var path := PairPath(pairs[0]);
        FieldsBind(pairs[1..], fields, Bind(s, PairName(pairs[0]), if path in fields then Trim(fields[path]) else ""));
      }
    }
  }

  // ---------------------------------------------------------------------------
  // Body lines
  // ---------------------------------------------------------------------------

  function OpNames(op: LineOp): set<string> {
    match op
    case RunCommand(Some(spec), _, _) => StdoutNames(spec)
    case _ => {}
  }

  predicate OpFits(w: World, op: LineOp) { op.RunCommand? ==> ValidateFits(w, op.validate) }

  predicate Substitutes(op: LineOp) { op.Check? || op.RunCommand? || op.SetEnv? }

  lemma ResolvesIfBound(text: string, s: State)
    requires forall n | n in Refs(text) :: n in s.vars.Keys
    ensures Resolve(text, s).error.None?
  {
    hide Substitute, Refs;
    SubstituteResolves(text, s.vars);
  }

  lemma TemplateRefs(l: string, names: set<string>)
    requires forall n | n in Refs(l) :: n in names
    ensures forall n | n in Refs(EnvTemplate(l)) :: n in names
  {
    hide Refs, Trim;
    var from := if IndexOf(l, '=') >= 0 then IndexOf(l, '=') + 1 else 0;
    assert l[0..] == l;
    forall n | n in Refs(EnvTemplate(l)) ensures n in names { RefsOfTrimmedTail(l, from, n); }
  }

  lemma RunLineBinds(w: World, i: nat, op: LineOp, l: string, s: State)
    requires op.RunCommand? && OpFits(w, op) && Resolve(l, s).error.None?
    ensures Binds(s, DoLine(w, i, op, l, s), OpNames(op))
  {
    hide BindCapture, StdoutNames, Resolve, Filled, Trim;
    var cmd := Shell(Filled(l, s.vars));
    var ran := Exec(w, i, cmd, s);
    if ran.error.None? && op.capture.Some? {
      StdoutBinds(w, op.capture.value, Trim(Answer(w, s, cmd).text), op.validate, ran.s);
    }
  }

  lemma EnvLineBinds(w: World, i: nat, l: string, s: State)
    requires Resolve(EnvTemplate(l), s).error.None?
    ensures Binds(s, DoLine(w, i, SetEnv, l, s), {})
  {
    hide Resolve, Filled, EnvKeySet, EnvTemplate, EnvKey, SplitLines, ReadLines, WithLines;
  }

  lemma WriteBinds(w: World, path: string, file: File, e: Entry, s: State)
    ensures Binds(s, Write(w, path, file, s), {})
    ensures Binds(s, Done(Journal(Write(w, path, file, s).s, e), Write(w, path, file, s).error), {})
  {
  }

  lemma PlainLineBinds(w: World, i: nat, op: LineOp, l: string, s: State)
    requires !Substitutes(op)
    ensures Binds(s, DoLine(w, i, op, l, s), {})
  {
    hide ReadLines, MarkerAt, SourceOf, DestOf, WithLine, Indent, Write;
    match op
    case CopyLocal =>
      if w.source(SourceOf(l)).Some? { WriteBinds(w, DestOf(l), w.source(SourceOf(l)).value, Wrote(l), s); }
    case CopyBranch(_) =>
    case AppendTo(path) =>
      WriteBinds(w, path, Lines(WithLine(ReadLines(w, s.tree, path), l)), Appended(path, l), s);
    case InsertAt(path, marker) =>
      var lines := ReadLines(w, s.tree, path);
      var at := MarkerAt(lines, "<<< " + marker);
      if at < |lines| {
        WriteBinds(w, path, Lines(lines[..at] + [Indent(lines[at]) + l] + lines[at..]), Appended(path, l), s);
      }
  }

  lemma LineBinds(w: World, i: nat, op: LineOp, l: string, s: State)
    requires OpFits(w, op) && (Substitutes(op) ==> forall n | n in Refs(l) :: n in s.vars.Keys)
    ensures Binds(s, DoLine(w, i, op, l, s), OpNames(op))
  {
    hide Refs, Resolve, StdoutNames, OpFits, DoLine, EnvTemplate;
    if !Substitutes(op) {
      PlainLineBinds(w, i, op, l, s);
    } else {
      ResolvesIfBound(l, s);
      TemplateRefs(l, s.vars.Keys);
      ResolvesIfBound(EnvTemplate(l), s);
      match op
      case RunCommand(_, _, _) => RunLineBinds(w, i, op, l, s);
      case Check => CheckLineBinds(w, i, l, s);
      case SetEnv => EnvLineBinds(w, i, l, s);
    }
  }

  lemma CheckLineBinds(w: World, i: nat, l: string, s: State)
    requires Resolve(l, s).error.None?
    ensures Binds(s, DoLine(w, i, Check, l, s), {})
  {
    hide Resolve, Filled;
  }

  lemma {:induction false} EachBinds(w: World, i: nat, op: LineOp, body: seq<string>, s: State)
    requires OpFits(w, op) && (Substitutes(op) ==> RefsBound(body, s.vars.Keys))
    ensures Binds(s, Each(w, i, op, body, s), if body == [] then {} else OpNames(op))
  {
    hide DoLine, OpFits, OpNames, RefsBound;
    if body != [] {
      var r := DoLine(w, i, op, body[0], s);
      if Substitutes(op) { RefsBoundParts(body, s.vars.Keys); }
      LineBinds(w, i, op, body[0], s);
      if r.error.None? {
        if Substitutes(op) { RefsBoundMore(body[1..], s.vars.Keys, r.s.vars.Keys); }
        EachBinds(w, i, op, body[1..], r.s);
      }
    }
  }

  lemma RefsBoundMore(body: seq<string>, names: set<string>, more: set<string>)
    requires RefsBound(body, names) && names <= more
    ensures RefsBound(body, more)
  {
  }

  // ---------------------------------------------------------------------------
  // One directive
  // ---------------------------------------------------------------------------

  /** The names a directive's work binds. */
  function WorkNames(d: Directive): set<string> {
    if d.kind != "run" || Effect(d) == "check" then {}
    else if Effect(d) == "step" then
      if OrEmpty(d, "capture") == "" then {} else BoundNames(SplitAt(OrEmpty(d, "capture"), ','))
    else if d.body == [] then {}
    else OpNames(RunOp(d))
  }

  lemma CopyBinds(w: World, i: nat, d: Directive, s: State)
    ensures Binds(s, ApplyCopy(w, i, d, s), {})
  {
    hide Each;
    var branch := OrEmpty(d, "from-branch");
    var fetched := if branch == "" then Done(s, None) else Exec(w, i, GitFetch(branch), s);
    EachBinds(w, i, if branch == "" then CopyLocal else CopyBranch(branch), d.body, fetched.s);
  }

  lemma StreamBinds(w: World, i: nat, d: Directive, s: State)
    requires w.hasStream && d.kind == "run" && Effect(d) == "step"
    requires forall n | n in Refs(JoinLines(d.body)) :: n in s.vars.Keys
    ensures Binds(s, ApplyStream(w, i, d, s), WorkNames(d))
  {
    hide CaptureFields, Substitute, SplitAt, Trim, JoinLines, Refs, BoundNames;
    var script := JoinLines(d.body);
    ResolvesIfBound(script, s);
    var out := w.stream(s.tick + 1, Filled(script, s.vars));
    var s1 := s.(tick := s.tick + 1, calls := s.calls + [Streaming(i, Filled(script, s.vars))]);
    FieldsBind(SplitAt(OrEmpty(d, "capture"), ','), out.fields, s1);
  }

  lemma DepBinds(w: World, i: nat, d: Directive, s: State)
    ensures Binds(s, ApplyDep(w, i, d, s), {})
  {
  }

  lemma MergeBinds(w: World, d: Directive, s: State)
    requires w.parse(JoinLines(d.body)).Some?
    ensures Binds(s, ApplyMerge(w, d, s), {})
  {
    hide JoinLines, FindElement, ReadArray, Field, Write;
    var into, key := Printed(d, "into"), Printed(d, "key");
    var obj := w.parse(JoinLines(d.body)).value;
    if ReadArray(w, s.tree, into).Some? {
      var items := ReadArray(w, s.tree, into).value;
      var value := Field(obj, key);
      var at := FindElement(items, key, value);
      WriteBinds(w, into, Entries(items + [obj]), Merged(into, key, value, None), s);
      if at < |items| { WriteBinds(w, into, Entries(items[at := obj]), Merged(into, key, value, Some(items[at])), s); }
    }
  }

  lemma RunOpFits(w: World, d: Directive)
    requires "validate" in d.attrs ==> w.validRegex(d.attrs["validate"], None)
    ensures RunOp(d).RunCommand? && OpFits(w, RunOp(d))
  {
  }

  lemma MergeLinted(w: World, d: Directive, chat: string)
    requires d.kind == "json-merge" && KindIssues(w, d, chat) == []
    ensures w.parse(JoinLines(d.body)).Some? && w.parse(JoinLines(d.body)).value.Obj?
  {
    hide JoinLines, Require;
  }

  lemma ApplyBinds(w: World, i: nat, d: Directive, defined: set<string>, chat: string, s: State)
    requires Issues(w, d, defined, chat) == [] && Ready(w, d) && SameNames(defined, s.vars)
    requires d.kind != "prompt" && d.kind != "operator"
    requires d.kind == "run" && Effect(d) == "step" ==> forall n | n in Refs(JoinLines(d.body)) :: n in s.vars.Keys
    ensures Binds(s, ApplyOne(w, i, d, s), WorkNames(d))
  {
    hide Issues, CaptureFits, SameNames, RefsBound, Each, ApplyCopy, ApplyStream, ApplyDep, ApplyMerge, KindIssues,
         LineRefs, RefIssues, Refs, JoinLines, OpNames, OpFits, BoundNames, RunOp;
    NoIssues(w, d, defined, chat);
    LintedRefs(d, defined, s.vars);
    KnownKinds(d.kind);
    if d.kind == "copy" { CopyBinds(w, i, d, s); }
    else if d.kind == "append" { AppendOpFits(w, d); EachBinds(w, i, AppendOp(d), d.body, s); }
    else if d.kind == "dep" { DepBinds(w, i, d, s); }
    else if d.kind == "run" {
      RunOpFits(w, d);
      PlainOpFits(w);
      if Effect(d) == "check" { EachBinds(w, i, Check, d.body, s); }
      else if Effect(d) == "step" { StreamBinds(w, i, d, s); }
      else { EachBinds(w, i, RunOp(d), d.body, s); }
    }
    else if d.kind == "env-set" { PlainOpFits(w); EachBinds(w, i, SetEnv, d.body, s); }
    else { MergeLinted(w, d, chat); MergeBinds(w, d, s); }
  }

  lemma KnownKinds(kind: string)
    requires Known(kind)
    ensures kind == "copy" || kind == "append" || kind == "dep" || kind == "run" || kind == "prompt" || kind == "operator"
            || kind == "env-set" || kind == "json-merge"
  {
  }

  lemma AppendOpFits(w: World, d: Directive)
    ensures OpFits(w, AppendOp(d)) && !Substitutes(AppendOp(d)) && OpNames(AppendOp(d)) == {}
  {
  }

  lemma PlainOpFits(w: World)
    ensures OpFits(w, Check) && OpFits(w, SetEnv) && OpNames(Check) == {} && OpNames(SetEnv) == {}
  {
  }

  /** The names a directive's work binds are those the linter takes it to define. */
  lemma WorkDefines(w: World, d: Directive)
    requires d.kind != "prompt" && CaptureFits(w, d)
    ensures forall n :: n != "" ==> (n in Defines(d) <==> n in WorkNames(d))
  {
    hide SplitAt, IndexOf, LintNames, BoundNames, AllPairs;
    if d.kind == "run" && "capture" in d.attrs {
      var spec := d.attrs["capture"];
      var pairs := SplitAt(spec, ',');
      if Effect(d) == "step" || IndexOf(spec, '=') >= 0 {
        NamesAgree(pairs);
        PairsNeedEquals(spec);
        if spec == "" { NoEquals(); }
      }
    }
  }

  lemma NoEquals()
    ensures IndexOf("", '=') < 0
  {
  }

  // ---------------------------------------------------------------------------
  // One step of the loop
  // ---------------------------------------------------------------------------

  lemma EmitCounts(w: World, e: Event, s: State)
    ensures var r := Emit(w, e, s);
            r.s.faults == s.faults + (if r.error.Some? then 1 else 0) && r.s.vars == s.vars
            && r.s.deferred == s.deferred && r.s.agentTasks == s.agentTasks
  {
  }

  /** What holds before a directive while everything was applied. */
  ghost predicate Sound(ds: seq<Directive>, n: nat, s: State)
    requires n <= |ds|
  {
    FullyApplied(s) && !s.blocked && SameNames(Defined(ds, n), s.vars)
  }

  lemma SoundGrows(ds: seq<Directive>, i: nat, s: State, s': State, names: set<string>)
    requires i < |ds| && Sound(ds, i, s) && FullyApplied(s') && !s'.blocked
    requires s'.vars.Keys == s.vars.Keys + names
    requires forall n :: n != "" ==> (n in Defines(ds[i]) <==> n in names)
    ensures Sound(ds, i + 1, s')
  {
    hide Defines;
  }

  lemma PromptLinted(w: World, d: Directive, chat: string)
    requires d.kind == "prompt" && KindIssues(w, d, chat) == []
    ensures PromptVar(d).Some? && Defines(d) == {PromptVar(d).value}
    ensures "validate" in d.attrs ==> w.validRegex(d.attrs["validate"], Attr(d, "flags"))
  {
    hide Refuse, IsIdent;
  }

  lemma BindPromptSound(w: World, i: nat, d: Directive, value: string, s: State)
    requires PromptVar(d).Some? && ("validate" in d.attrs ==> w.validRegex(d.attrs["validate"], Attr(d, "flags")))
    ensures var s' := BindPrompt(w, i, d, value, s);
            || s'.faults > s.faults
            || (s'.vars.Keys == s.vars.Keys + {PromptVar(d).value} && s'.faults == s.faults && s'.blocked == s.blocked
                && s'.deferred == s.deferred && s'.agentTasks == s.agentTasks)
  {
    hide Normalize, PromptKey, Catch;
  }

  lemma PromptSound(w: World, ds: seq<Directive>, i: nat, chat: string, s: State)
    requires i < |ds| && ds[i].kind == "prompt" && KindIssues(w, ds[i], chat) == [] && Sound(ds, i, s)
    requires DoPrompt(w, i, ds[i], s).faults == s.faults
    ensures Sound(ds, i + 1, DoPrompt(w, i, ds[i], s))
  {
    hide KindIssues, BindPrompt, Defines, SameNames, Defined, Contains;
    var d := ds[i];
    PromptLinted(w, d, chat);
    var key := PromptKey(d);
    var s1 := s.(tick := s.tick + 1);
    var s' := DoPrompt(w, i, d, s);
    if key in w.inputs {
      BindPromptSound(w, i, d, w.inputs[key], s);
    } else {
      match w.resolve(s1.tick, key)
      case Resolved(value) => BindPromptSound(w, i, d, value, s1);
      case NoAnswer =>
      case ResolveThrew(message) => CatchIsNotFull(w, i, None, Thrown(message, false), Fault(s1));
    }
    SoundGrows(ds, i, s, s', {PromptVar(d).value});
  }

  lemma JoinedRefs(w: World, ds: seq<Directive>, i: nat, s: State)
    requires i < |ds| && Joined(w, ds[i]) && Sound(ds, i, s)
    ensures BlockDefined(w, ds, i) <==> Resolve(JoinLines(ds[i].body), s).error.None?
    ensures BlockDefined(w, ds, i) ==> forall n | n in Refs(JoinLines(ds[i].body)) :: n in s.vars.Keys
  {
    hide Substitute, Refs, JoinLines, Joined;
    var text := JoinLines(ds[i].body);
    RefsAreNames(text);
    SubstituteResolves(text, s.vars);
  }

  lemma OperatorSound(w: World, ds: seq<Directive>, i: nat, s: State)
    requires i < |ds| && ds[i].kind == "operator" && Sound(ds, i, s)
    requires DoOperator(w, i, ds[i], s).faults == s.faults
    ensures FullyApplied(DoOperator(w, i, ds[i], s)) <==> BlockDefined(w, ds, i)
    ensures BlockDefined(w, ds, i) ==> Sound(ds, i + 1, DoOperator(w, i, ds[i], s))
  {
    hide Catch, Emit, Resolve, Filled, JoinLines, SameNames, Defined, BlockDefined;
    var d := ds[i];
    JoinedRefs(w, ds, i, s);
    var body := JoinLines(d.body);
    var r := Resolve(body, s);
    if r.error.Some? {
      CatchIsNotFull(w, i, None, r.error.value, s);
    } else {
      var text := Filled(body, s.vars);
      var s1 := s.(messages := s.messages + [text]);
      var shown := Emit(w, OperatorShown(i, text), s1);
      EmitCounts(w, OperatorShown(i, text), s1);
      if shown.error.Some? { CatchIsNotFull(w, i, None, shown.error.value, shown.s); }
      var s' := DoOperator(w, i, d, s);
      EmitKeepsBlocked(w, OperatorShown(i, text), s1);
      SoundGrows(ds, i, s, s', {});
    }
  }

  lemma EmitKeepsBlocked(w: World, e: Event, s: State)
    ensures Emit(w, e, s).s.blocked == s.blocked
  {
  }

  lemma UnresolvedStepThrows(w: World, i: nat, d: Directive, s: State)
    requires d.kind == "run" && Effect(d) == "step" && w.hasStream
    requires Resolve(JoinLines(d.body), s).error.Some?
    ensures ApplyOne(w, i, d, s).error.Some?
  {
    hide FinishStream, Resolve, Filled, JoinLines;
  }

  lemma ResolveDependsOnVars(text: string, a: State, b: State)
    requires a.vars == b.vars
    ensures Resolve(text, a).error == Resolve(text, b).error
  {
    hide Substitute;
  }

  lemma DoStepSound(w: World, ds: seq<Directive>, i: nat, chat: string, s: State)
    requires i < |ds| && Issues(w, ds[i], Defined(ds, i), chat) == [] && Ready(w, ds[i]) && Sound(ds, i, s)
    requires ds[i].kind != "prompt" && ds[i].kind != "operator"
    requires ds[i].kind == "run" && Effect(ds[i]) == "step" ==> Joined(w, ds[i])
    requires DoStep(w, i, ds[i], s).faults == s.faults
    ensures FullyApplied(DoStep(w, i, ds[i], s)) <==> BlockDefined(w, ds, i)
    ensures BlockDefined(w, ds, i) ==> Sound(ds, i + 1, DoStep(w, i, ds[i], s))
  {
    hide Issues, CaptureFits, Catch, Emit, ApplyOne, Resolve, BlockDefined, SameNames, Defined, WorkNames, Defines, JoinLines, Refs, Works;
    var d := ds[i];
    var caption := w.caption(d);
    var started := Emit(w, StepStart(i, caption), s);
    EmitCounts(w, StepStart(i, caption), s);
    EmitKeepsBlocked(w, StepStart(i, caption), s);
    if started.error.Some? {
      CatchIsNotFull(w, i, None, started.error.value, started.s);
    } else {
      var step := d.kind == "run" && Effect(d) == "step";
      if step {
        JoinedRefs(w, ds, i, s);
        ResolveDependsOnVars(JoinLines(d.body), s, started.s);
      } else {
        NotJoined(w, ds, i);
      }
      if step && !BlockDefined(w, ds, i) {
        UnresolvedStepThrows(w, i, d, started.s);
        CatchIsNotFull(w, i, Some(caption), ApplyOne(w, i, d, started.s).error.value, ApplyOne(w, i, d, started.s).s);
      } else {
        ApplyBinds(w, i, d, Defined(ds, i), chat, started.s);
        FinishSound(w, ds, i, s, started.s);
      }
    }
  }

  lemma NotJoined(w: World, ds: seq<Directive>, i: nat)
    requires i < |ds| && ds[i].kind != "operator" && (ds[i].kind != "run" || Effect(ds[i]) != "step")
    ensures BlockDefined(w, ds, i)
  {
  }

  lemma FinishSound(w: World, ds: seq<Directive>, i: nat, s: State, s1: State)
    requires i < |ds| && Ready(w, ds[i]) && ds[i].kind != "prompt" && Sound(ds, i, s)
    requires Emit(w, StepStart(i, w.caption(ds[i])), s) == Done(s1, None)
    requires Binds(s1, ApplyOne(w, i, ds[i], s1), WorkNames(ds[i]))
    requires DoStep(w, i, ds[i], s).faults == s.faults
    ensures Sound(ds, i + 1, DoStep(w, i, ds[i], s))
  {
    hide CaptureFits, Catch, Emit, ApplyOne, SameNames, Defined, WorkNames, Defines, CallsOf;
    var d := ds[i];
    var caption := w.caption(d);
    EmitCounts(w, StepStart(i, caption), s);
    EmitKeepsBlocked(w, StepStart(i, caption), s);
    var r := ApplyOne(w, i, d, s1);
    ApplyOneWorks(w, i, d, s1);
    var ended := Emit(w, StepEnd(i, caption, true), r.s);
    EmitCounts(w, StepEnd(i, caption, true), r.s);
    EmitKeepsBlocked(w, StepEnd(i, caption, true), r.s);
    if r.error.Some? {
      CatchIsNotFull(w, i, Some(caption), r.error.value, r.s);
    } else if ended.error.Some? {
      CatchIsNotFull(w, i, None, ended.error.value, ended.s);
    } else {
      WorkDefines(w, d);
      SoundGrows(ds, i, s, DoStep(w, i, d, s), WorkNames(d));
    }
  }

  lemma SkippedSound(w: World, ds: seq<Directive>, i: nat, s: State, reason: SkipReason)
    requires i < |ds| && Sound(ds, i, s) && forall n :: n != "" ==> n !in Defines(ds[i])
    ensures Sound(ds, i + 1, Skipped(s, i, reason))
  {
    hide Defines;
    SoundGrows(ds, i, s, Skipped(s, i, reason), {});
  }

  lemma StatusLinted(w: World, d: Directive, defined: set<string>, chat: string, s: State)
    requires Issues(w, d, defined, chat) == [] && d.kind != "prompt" && d.kind != "operator"
    ensures SelfStatus(w, d, s) == ToSkip || SelfStatus(w, d, s) == ToApply
    ensures SelfStatus(w, d, s) == ToSkip ==> d.kind != "run"
  {
    hide Issues, JoinLines, Has, DestOf, FileHasLine, EnvKeySet, ArrayHas, DepMissing;
    NoIssues(w, d, defined, chat);
    KnownKinds(d.kind);
    if d.kind == "json-merge" { MergeLinted(w, d, chat); }
  }

  lemma DefinesNothing(w: World, d: Directive)
    requires d.kind != "prompt" && (d.kind != "run" || "capture" !in d.attrs)
    ensures Defines(d) == {}
  {
  }

  lemma MutationSound(w: World, ds: seq<Directive>, i: nat, chat: string, s: State)
    requires i < |ds| && Issues(w, ds[i], Defined(ds, i), chat) == [] && Ready(w, ds[i]) && Sound(ds, i, s)
    requires ds[i].kind != "prompt" && ds[i].kind != "operator"
    requires DoMutation(w, i, ds[i], s).faults == s.faults
    ensures FullyApplied(DoMutation(w, i, ds[i], s)) <==> BlockDefined(w, ds, i)
    ensures BlockDefined(w, ds, i) ==> Sound(ds, i + 1, DoMutation(w, i, ds[i], s))
  {
    hide Issues, DoStep, SelfStatus, Catch, BlockDefined, SameNames, Defined, Defines, SideEffect, Validation;
    var d := ds[i];
    if d.kind == "run" && "effect" in d.attrs && d.attrs["effect"] in w.skipEffects {
      DefinesNothing(w, d);
      OwnedIsNotJoined(w, ds, i);
      SkippedSound(w, ds, i, s, CallerOwned);
    } else {
      StatusLinted(w, d, Defined(ds, i), chat, s);
      if SelfStatus(w, d, s) == ToSkip {
        DefinesNothing(w, d);
        NotJoined(w, ds, i);
        SkippedSound(w, ds, i, s, AlreadyPresent);
      } else {
        DoStepSound(w, ds, i, chat, s);
      }
    }
  }

  lemma OwnedIsNotJoined(w: World, ds: seq<Directive>, i: nat)
    requires i < |ds| && ds[i].kind == "run" && "effect" in ds[i].attrs && ds[i].attrs["effect"] in w.skipEffects
    ensures BlockDefined(w, ds, i)
  {
  }

  lemma StepSound(w: World, ds: seq<Directive>, i: nat, chat: string, s: State)
    requires i < |ds| && w.mode == Install
    requires Issues(w, ds[i], Defined(ds, i), chat) == [] && Ready(w, ds[i]) && Sound(ds, i, s)
    requires Step(w, i, ds[i], s).faults == s.faults
    ensures FullyApplied(Step(w, i, ds[i], s)) <==> BlockDefined(w, ds, i)
    ensures BlockDefined(w, ds, i) ==> Sound(ds, i + 1, Step(w, i, ds[i], s))
  {
    hide Issues, DoPrompt, DoOperator, DoMutation, Sound, Defined, CaptureFits, FullyApplied, BlockDefined;
    var d := ds[i];
    Unguarded(d, s.vars);
    if d.kind == "prompt" {
      NoIssues(w, d, Defined(ds, i), chat);
      PromptSound(w, ds, i, chat, s);
      NotJoined(w, ds, i);
      SoundIsFull(ds, i + 1, Step(w, i, d, s));
    } else if d.kind == "operator" {
      OperatorSound(w, ds, i, s);
    } else {
      MutationSound(w, ds, i, chat, s);
    }
  }

  lemma SoundIsFull(ds: seq<Directive>, n: nat, s: State)
    requires n <= |ds| && Sound(ds, n, s)
    ensures FullyApplied(s)
  {
  }

  lemma Unguarded(d: Directive, vars: Bindings)
    requires "when" !in d.attrs
    ensures GuardMet(d, vars)
  {
  }

  // ---------------------------------------------------------------------------
  // The whole run
  // ---------------------------------------------------------------------------

  lemma StepIsMonotone(w: World, i: nat, d: Directive, s: State)
    ensures s.faults <= Step(w, i, d, s).faults
    ensures !FullyApplied(s) ==> !FullyApplied(Step(w, i, d, s))
  {
    hide Step, EventsOf, CallsOf;
    StepKeepsShape(w, i, d, s);
  }

  lemma SoundAtStart(ds: seq<Directive>, t0: Tree)
    ensures Sound(ds, 0, Initial(t0))
  {
  }

  lemma {:induction false} RunSound(w: World, ds: seq<Directive>, t0: Tree, chat: string, n: nat)
    requires n <= |ds| && w.mode == Install && Clean(w, ds, chat)
    requires forall i | 0 <= i < |ds| :: Ready(w, ds[i])
    requires Run(w, ds, t0, n).faults == 0
    ensures FullyApplied(Run(w, ds, t0, n)) <==> forall i | 0 <= i < n :: BlockDefined(w, ds, i)
    ensures FullyApplied(Run(w, ds, t0, n)) ==> Sound(ds, n, Run(w, ds, t0, n))
  {
    hide *;
    if n == 0 {
      RunStarts(w, ds, t0);
      SoundAtStart(ds, t0);
      SoundIsFull(ds, 0, Initial(t0));
    } else {
      var s := Run(w, ds, t0, n - 1);
      RunUnfolds(w, ds, t0, n);
      StepIsMonotone(w, n - 1, ds[n - 1], s);
      RunSound(w, ds, t0, chat, n - 1);
      CleanStep(w, ds, chat, n - 1);
      if FullyApplied(s) { StepSound(w, ds, n - 1, chat, s); }
    }
  }

  lemma CleanStep(w: World, ds: seq<Directive>, chat: string, i: nat)
    requires i < |ds| && Clean(w, ds, chat)
    ensures Issues(w, ds[i], Defined(ds, i), chat) == []
  {
    hide Problems, Issues, Defined;
    CleanPrefix(w, ds, chat, i, |ds|);
  }

  /**
   * Lint soundness, exactly: a clean, unguarded list whose captures fit their effects,
   * run in install mode with no failure outside the engine, ends fully applied if and
   * only if every operator block and streamed step, read as one text, references only
   * names defined before it.
   */
  lemma LintSoundness(w: World, ds: seq<Directive>, t0: Tree, chat: string)
    requires w.mode == Install && Clean(w, ds, chat)
    requires forall i | 0 <= i < |ds| :: Ready(w, ds[i])
    requires Run(w, ds, t0, |ds|).faults == 0
    ensures FullyApplied(Run(w, ds, t0, |ds|)) <==> forall i | 0 <= i < |ds| :: BlockDefined(w, ds, i)
  {
    hide *;
    RunSound(w, ds, t0, chat, |ds|);
  }

  // ---------------------------------------------------------------------------
  // What the line by line check cannot see
  // ---------------------------------------------------------------------------

  const SPLIT := Directive("operator", [], map[], ["{{", "x", "}}"], 1)

  lemma SplitHasNoLineRefs()
    ensures LineRefs(SPLIT.body) == []
  {
    assert SPLIT.body[1..] == ["x", "}}"] && SPLIT.body[1..][1..] == ["}}"];
    assert Refs("{{") == [] by { assert RefAt("{{").None?; assert "{{"[1..] == "{"; assert RefAt("{").None?; }
    assert Refs("x") == [] by { assert RefAt("x").None?; }
    assert Refs("}}") == [] by { assert RefAt("}}").None?; assert "}}"[1..] == "}"; assert RefAt("}").None?; }
  }

  lemma SplitHasRef()
    ensures "x" in Refs(JoinLines(SPLIT.body))
  {
    var s := "{{\nx\n}}";
    SplitJoined();
    SplitRefAt(s);
    hide RefAt;
    assert Refs(s) == ["x"] + Refs(s[7..]);
  }

  lemma SplitJoined()
    ensures JoinLines(SPLIT.body) == "{{\nx\n}}"
  {
    assert SPLIT.body[1..] == ["x", "}}"] && SPLIT.body[1..][1..] == ["}}"];
  }

  lemma SplitRefAt(s: string)
    requires s == "{{\nx\n}}"
    ensures RefAt(s) == Some(Ref("x", 7))
  {
    assert SkipSpaces(s, 2) == 3 && SkipIdent(s, 3) == 4 && SkipSpaces(s, 4) == 5;
    assert s[5..] == "}}" && s[3..4] == "x";
    assert RefAt(s) == Some(Ref("x", 7));
  }

  /** The block is skipped for want of an answer nobody was asked for. */
  lemma SplitDefers(w: World, t0: Tree)
    requires w.mode == Install
    ensures var end := Run(w, [SPLIT], t0, 1);
            end.deferred == [Deferral(0, "unresolved {{x}}")] && end.agentTasks == [] && !FullyApplied(end)
  {
    var s := Initial(t0);
    SplitJoined();
    SplitRefAt("{{\nx\n}}");
    hide RefAt, JoinLines;
    var message := "unresolved {{x}}";
    assert Substitute("{{\nx\n}}", s.vars) == Unresolved("x");
    assert "unresolved {{" + "x" + "}}" == message;
    assert Resolve(JoinLines(SPLIT.body), s).error == Some(Thrown(message, false));
    assert IndexOfText(message, UNRESOLVED) == 0 by { assert message[0..] == message && UNRESOLVED <= message; }
    hide Substitute, IndexOfText, Resolve, Emit;
    assert DoOperator(w, 0, SPLIT, s) == Deferred(s, 0, message);
    assert [] + [Deferral(0, message)] == [Deferral(0, message)];
    RunStarts(w, [SPLIT], t0);
    RunUnfolds(w, [SPLIT], t0, 1);
  }

  /** A reference broken over lines passes the linter, and the block is deferred when it is to be shown. */
  lemma LintMissesSplitReference(w: World, chat: string, t0: Tree)
    ensures Clean(w, [SPLIT], chat) && !BlockDefined(w, [SPLIT], 0)
    ensures w.mode == Install ==>
      var end := Run(w, [SPLIT], t0, 1);
      end.deferred == [Deferral(0, "unresolved {{x}}")] && end.agentTasks == [] && !FullyApplied(end)
  {
    hide Refs, LineRefs, JoinLines, Run;
    SplitHasNoLineRefs();
    SplitHasRef();
    var issues := Issues(w, SPLIT, {}, chat);
    assert issues == [];
    assert Problems(w, [SPLIT], chat, 0) == [];
    assert Located(SPLIT, issues) == [];
    assert "x" !in Defined([SPLIT], 0);
    if w.mode == Install { SplitDefers(w, t0); }
  }
}
