/** The engine's loops, step by step, each equal to the function that specifies it. */
module EngineLoop {
  import opened Text
  import opened Directives
  import opened Vars
  import opened Engine
  import opened EngineOutcomes

  /** The body lines of a directive, until one throws. */
  method ForEachLine(w: World, i: nat, op: LineOp, body: seq<string>, s: State) returns (r: Done)
    ensures r == Each(w, i, op, body, s)
  {
    hide DoLine;
    r := Done(s, None);
    var k := 0;
    while k < |body|
      invariant 0 <= k <= |body|
      invariant r.error.None?
      invariant Each(w, i, op, body[k..], r.s) == Each(w, i, op, body, s)
    {
      r := DoLine(w, i, op, body[k], r.s);
      if r.error.Some? { return; }
      assert body[k..][1..] == body[k + 1..];
      k := k + 1;
    }
  }

  /** The fields of a step's terminal block. */
  method BindFields(pairs: seq<string>, fields: map<string, string>, s: State) returns (r: State)
    ensures r == CaptureFields(pairs, fields, s)
  {
    hide IndexOf;
    r := s;
    var k := 0;
    while k < |pairs|
      invariant 0 <= k <= |pairs|
      invariant CaptureFields(pairs[k..], fields, r) == CaptureFields(pairs, fields, s)
    {
      var pair := pairs[k];
      assert pairs[k..][1..] == pairs[k + 1..];
      k := k + 1;
      if IndexOf(pair, '=') < 1 { continue; }
      var path := PairPath(pair);
      r := Bind(r, PairName(pair), if path in fields then Trim(fields[path]) else "");
    }
  }

  /** One directive, in the order its checks are made. */
  method ApplyDirective(w: World, i: nat, d: Directive, before: State) returns (s: State)
    ensures s == Step(w, i, d, before)
    ensures StepShape(w, i, d, before, s)
  {
    hide SelfStatus, DoStep, DoPrompt, Substitute, Catch, Emit, StepShape;
    StepKeepsShape(w, i, d, before);
    s := before;
    if w.mode == Refresh && OutsideRefresh(d) {
      return Skipped(s, i, NotInRefresh);
    }
    if !GuardMet(d, s.vars) {
      return Skipped(s, i, GuardUnmet);
    }
    if d.kind == "prompt" {
      return DoPrompt(w, i, d, s);
    }
    if d.kind == "operator" {
      if s.blocked { return Skipped(s, i, AfterFailure); }
      var body := JoinLines(d.body);
      var r := Resolve(body, s);
      if r.error.Some? { return Catch(w, i, None, r.error.value, s); }
      var text := Filled(body, s.vars);
      s := s.(messages := s.messages + [text]);
      var shown := Emit(w, OperatorShown(i, text), s);
      s := shown.s;
      if shown.error.Some? { return Catch(w, i, None, shown.error.value, s); }
      return Applied(s, i);
    }
    if d.kind == "run" && "effect" in d.attrs && d.attrs["effect"] in w.skipEffects {
      return Skipped(s, i, CallerOwned);
    }
    if s.blocked && (SideEffect(Effect(d)) || Validation(Effect(d))) {
      return Bounce(s, i, "skipped: an earlier step did not complete");
    }
    var status := SelfStatus(w, d, s);
    if status == ToAgent { return Bounce(s, i, "no deterministic handler"); }
    if status == ToSkip { return Skipped(s, i, AlreadyPresent); }
    if status == Unreadable { return Catch(w, i, None, Thrown(w.reason(s.tick, "."), false), s); }
    s := RunStep(w, i, d, s);
  }

  /** Start event, work, end event; a throw anywhere goes to the catch. */
  method RunStep(w: World, i: nat, d: Directive, before: State) returns (s: State)
    ensures s == DoStep(w, i, d, before)
    ensures !(before.blocked && Latched(d)) ==> StepShape(w, i, d, before, s)
  {
    hide ApplyOne, Catch, Emit, StepShape, Latched;
    if !(before.blocked && Latched(d)) { DoStepShape(w, i, d, before); }
    var caption := w.caption(d);
    var started := Emit(w, StepStart(i, caption), before);
    s := started.s;
    if started.error.Some? { return Catch(w, i, None, started.error.value, s); }
    var r := ApplyOne(w, i, d, s);
    s := r.s;
    if r.error.Some? { return Catch(w, i, Some(caption), r.error.value, s); }
    var ended := Emit(w, StepEnd(i, caption, true), s);
    s := ended.s;
    if ended.error.Some? { return Catch(w, i, None, ended.error.value, s); }
    s := Applied(s, i);
  }

  /** The directive loop. */
  method ApplySkill(w: World, ds: seq<Directive>, tree: Tree) returns (s: State)
    ensures s == Run(w, ds, tree, |ds|)
  {
    hide Step;
    s := Initial(tree);
    for i := 0 to |ds|
      invariant s == Run(w, ds, tree, i)
    {
      s := ApplyDirective(w, i, ds[i], s);
    }
  }

  /** The journal played backwards, until something throws. */
  method RemoveSkill(w: World, start: Tree, journal: seq<Entry>) returns (tree: Tree, finished: bool, called: seq<string>)
    ensures Removed(tree, finished, called) == Remove(w, start, journal)
  {
    hide UndoEntry, Stops, Halted, UndoCall;
    tree, called := start, [];
    var k := |journal|;
    assert journal[..k] == journal;
    while k > 0
      invariant 0 <= k <= |journal|
      invariant var rest := Remove(w, tree, journal[..k]); rest.(called := called + rest.called) == Remove(w, start, journal)
    {
      assert journal[..k][..k - 1] == journal[..k - 1];
      k := k - 1;
      called := called + UndoCall(journal[k]);
      if Stops(w, k, journal[k], tree) { return Halted(w, k, journal[k], tree), false, called; }
      tree := UndoEntry(w, journal[k], tree);
    }
    finished := true;
  }
}
