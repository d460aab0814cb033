/** Runs of small skills in which a promise of the engine is broken. */
module Shortfalls {
  import opened Text
  import opened Trimming
  import opened Directives
  import opened Vars
  import opened Engine
  import opened EngineOutcomes
  import opened Effects

  /** An install with no answers, no consumer and a writable project: only commands and JSON parsing vary. */
  function Plain(exec: (nat, Command) -> Ran, parse: string -> Option<Json>): World {
    World(Install, map[], (n, v) => NoAnswer, {}, false, (n, e) => None, exec, false,
          (n, c) => Streamed(true, "", false, map[]), (n, p) => true, (n, p) => "", (n, e) => None, p => None, (n, s, c) => false,
          d => None, parse, items => [], (j, p) => "", t => t, (r, f) => false, (r, f, t) => false)
  }

  // ---------------------------------------------------------------------------
  // One directive of such a run
  // ---------------------------------------------------------------------------

  lemma {:induction false} NoBraces(s: string, vars: Bindings)
    requires '{' !in s
    ensures Substitute(s, vars) == Text(s)
  {
    if s != "" {
      assert !StartsWith(s, "{{") by { assert s[0] != '{'; }
      NoBraces(s[1..], vars);
      assert [s[0]] + s[1..] == s;
    }
  }

  lemma OneLine(w: World, i: nat, op: LineOp, l: string, s: State)
    ensures Each(w, i, op, [l], s) == DoLine(w, i, op, l, s)
  {
    hide DoLine;
  }

  /** Without a consumer a step that is reached is its work, recorded as applied. */
  lemma UnheardWork(w: World, i: nat, d: Directive, s: State)
    requires !w.hasHandler && Reached(w, d, s) && d.kind != "prompt" && d.kind != "operator"
    requires ApplyOne(w, i, d, s).error.None?
    ensures Step(w, i, d, s) == Applied(ApplyOne(w, i, d, s).s, i)
  {
    hide Reached, ApplyOne;
    ReachedStep(w, i, d, s);
  }

  /** A failure that reads like the marker is deferred. */
  lemma UnheardMarker(w: World, i: nat, d: Directive, s: State, t: string)
    requires !w.hasHandler && Reached(w, d, s) && d.kind != "prompt" && d.kind != "operator"
    requires ApplyOne(w, i, d, s).error == Some(Thrown(t, false)) && Contains(t, UNRESOLVED)
    ensures Step(w, i, d, s) == Deferred(ApplyOne(w, i, d, s).s, i, t)
  {
    hide Reached, ApplyOne, Contains;
    ReachedStep(w, i, d, s);
  }

  /** A run of one command without references or capture. */
  predicate PlainRun(d: Directive, l: string) {
    && d.kind == "run" && d.body == [l] && '{' !in l && "capture" !in d.attrs
    && Effect(d) != "check" && Effect(d) != "step" && Effect(d) != "external"
  }

  lemma PlainRunIs(w: World, i: nat, d: Directive, l: string, s: State)
    requires PlainRun(d, l)
    ensures ApplyOne(w, i, d, s) ==
      (var ran := Exec(w, i, Shell(l), s);
       if ran.error.Some? then ran else Done(Journal(ran.s, CommandRan(l, None)), None))
  {
    hide Substitute, Exec, Effect;
    NoBraces(l, s.vars);
    OneLine(w, i, RunOp(d), l, s);
  }

  lemma RunIsReached(w: World, d: Directive, s: State)
    requires d.kind == "run" && w.mode == Install && "when" !in d.attrs && w.skipEffects == {} && !s.blocked
    ensures Reached(w, d, s)
  {
    hide Effect;
  }

  // ---------------------------------------------------------------------------
  // A failed command that does not set the latch
  // ---------------------------------------------------------------------------

  const FETCH := Directive("run", [], map[], ["fetch"], 1)

  const RESTART := Directive("run", [], map["effect" := "restart"], ["restart"], 2)

  /** The first command fails, and its error text reads like the engine's own marker. */
  function FailingWorld(): World {
    Plain((n, c) => Ran(n == 1, if n == 1 then "unresolved {{name}}" else "", map[], {}), t => None)
  }

  lemma FirstFails()
    ensures var w, t := FailingWorld(), "unresolved {{name}}";
            Step(w, 0, FETCH, Initial(map[])) == Deferred(Exec(w, 0, Shell("fetch"), Initial(map[])).s, 0, t)
  {
    var w, s, t := FailingWorld(), Initial(map[]), "unresolved {{name}}";
    assert Exec(w, 0, Shell("fetch"), s).error == Some(Thrown(t, false));
    assert IndexOfText(t, UNRESOLVED) == 0 by { assert t[0..] == t && UNRESOLVED <= t; }
    RunIsReached(w, FETCH, s);
    assert PlainRun(FETCH, "fetch");
    hide Reached, ApplyOne, Exec, IndexOfText, Step, PlainRun;
    PlainRunIs(w, 0, FETCH, "fetch", s);
    UnheardMarker(w, 0, FETCH, s, t);
  }

  lemma SecondRuns(s: State)
    requires !s.blocked && s.tick == 1
    ensures var w := FailingWorld();
            Step(w, 1, RESTART, s) == Applied(Journal(Exec(w, 1, Shell("restart"), s).s, CommandRan("restart", None)), 1)
  {
    var w := FailingWorld();
    assert Exec(w, 1, Shell("restart"), s).error == None;
    RunIsReached(w, RESTART, s);
    assert PlainRun(RESTART, "restart");
    hide Reached, ApplyOne, Exec, Step, PlainRun;
    PlainRunIs(w, 1, RESTART, "restart", s);
    UnheardWork(w, 1, RESTART, s);
  }

  /** A command fails, nothing is handed to an agent, and the restart after it reaches the system. */
  lemma ErrorTextEscapesLatch()
    ensures var end := Run(FailingWorld(), [FETCH, RESTART], map[], 2);
            end.agentTasks == [] && end.calls == [Executed(0, Shell("fetch")), Executed(1, Shell("restart"))] && end.applied == [1]
  {
    hide Step, Run;
    var w, ds := FailingWorld(), [FETCH, RESTART];
    RunStarts(w, ds, map[]);
    RunUnfolds(w, ds, map[], 1);
    RunUnfolds(w, ds, map[], 2);
    FirstFails();
    var s := Run(w, ds, map[], 1);
    SecondRuns(s);
    var first, second := Executed(0, Shell("fetch")), Executed(1, Shell("restart"));
    assert [] + [first] == [first] && [first] + [second] == [first, second];
  }

  // ---------------------------------------------------------------------------
  // A value of two lines that undo leaves behind
  // ---------------------------------------------------------------------------

  const READ := Directive("run", [], map["effect" := "fetch", "capture" := "v"], ["read"], 1)

  const SET := Directive("env-set", [], map[], ["K={{v}}"], 2)

  /** Every command answers two lines. */
  function TwoLineWorld(): World { Plain((n, c) => Ran(false, "a\nb", map[], {}), t => None) }

  lemma CaptureIs(w: World, name: string, stdout: string, s: State)
    requires '=' !in name
    ensures BindCapture(w, name, stdout, None, s) == Done(Bind(s, name, stdout), None)
  {
  }

  lemma CapturedLine(w: World, i: nat, l: string, name: string, s: State)
    requires '{' !in l && '=' !in name && Exec(w, i, Shell(l), s).error == None
    ensures var ran := Exec(w, i, Shell(l), s).s;
            DoLine(w, i, RunCommand(Some(name), None, None), l, s) ==
            Done(Journal(Bind(ran, name, Trim(Answer(w, s, Shell(l)).text)), CommandRan(l, None)), None)
  {
    hide Substitute, Trim, Exec, BindCapture;
    NoBraces(l, s.vars);
    CaptureIs(w, name, Trim(Answer(w, s, Shell(l)).text), Exec(w, i, Shell(l), s).s);
  }

  lemma ReadIs(w: World, s: State)
    ensures ApplyOne(w, 0, READ, s) == DoLine(w, 0, RunCommand(Some("v"), None, None), "read", s)
  {
    hide DoLine;
    OneLine(w, 0, RunOp(READ), "read", s);
  }

  lemma ValueCaptured(s: State)
    requires !s.blocked
    ensures var w, ran := TwoLineWorld(), Exec(TwoLineWorld(), 0, Shell("read"), s).s;
            Step(w, 0, READ, s) == Applied(Journal(Bind(ran, "v", "a\nb"), CommandRan("read", None)), 0)
  {
    var w := TwoLineWorld();
    assert Exec(w, 0, Shell("read"), s).error == None && Answer(w, s, Shell("read")).text == "a\nb";
    RunIsReached(w, READ, s);
    hide Exec, Reached, Step, Each, Substitute, Trim, Answer, Effect, ApplyOne, DoLine;
    TightTrims("a\nb");
    ReadIs(w, s);
    CapturedLine(w, 0, "read", "v", s);
    UnheardWork(w, 0, READ, s);
  }

  lemma SetSplits()
    ensures EnvKey("K={{v}}") == "K" && EnvTemplate("K={{v}}") == "{{v}}"
  {
    var l := "K={{v}}";
    assert IndexOf(l, '=') == 1;
    assert l[..1] == "K" && l[2..] == "{{v}}";
    TightTrims("K");
    TightTrims("{{v}}");
  }

  lemma ValueFills(vars: Bindings)
    requires "v" in vars
    ensures Substitute("{{v}}", vars) == Text(vars["v"].value)
  {
    var s := "{{v}}";
    assert SkipSpaces(s, 2) == 2 && SkipIdent(s, 2) == 3 && SkipSpaces(s, 3) == 3;
    assert s[3..] == "}}" && s[2..3] == "v";
    assert RefAt(s) == Some(Ref("v", 5));
    assert vars["v"].value + "" == vars["v"].value;
  }

  lemma TwoLines()
    ensures SplitLines("K=a\nb") == ["K=a", "b"]
  {
    SplitCons("K=a", "b");
    SplitSingle("b");
    assert "K=a" + "\n" + "b" == "K=a\nb";
  }

  lemma KeyUnset(w: World, tree: Tree)
    requires ".env" !in tree
    ensures !EnvKeySet(w, tree, "K")
  {
  }

  lemma SetIsReached(w: World, s: State)
    requires w.mode == Install && ".env" !in s.tree
    ensures Reached(w, SET, s)
  {
    hide EnvKeySet;
    KeyUnset(w, s.tree);
    var l := SET.body[0];
    assert IndexOf(l, '=') == 1 && l[..1] == "K";
    TightTrims("K");
    assert EnvName(l) == "K";
  }

  lemma SetIs(w: World, s: State)
    requires ".env" !in s.tree && "v" in s.vars && s.vars["v"].value == "a\nb" && w.writable(s.tick + 1, ".env")
    ensures ApplyOne(w, 1, SET, s) ==
            Done(Journal(s.(tick := s.tick + 1, tree := s.tree[".env" := Lines(["K=a", "b", ""])]), EnvSet("K")), None)
  {
    hide EnvKeySet, Substitute, EnvKey, EnvTemplate, SplitLines, Each;
    OneLine(w, 1, SetEnv, "K={{v}}", s);
    SetSplits();
    ValueFills(s.vars);
    TwoLines();
    KeyUnset(w, s.tree);
    assert "K" + "=" + "a\nb" == "K=a\nb";
    assert ["K=a", "b"] + [""] == ["K=a", "b", ""];
    assert WithLines([""], ["K=a", "b"]) == ["K=a", "b", ""];
  }

  lemma ValueWritten(s: State)
    requires !s.blocked && ".env" !in s.tree && "v" in s.vars && s.vars["v"].value == "a\nb"
    ensures Step(TwoLineWorld(), 1, SET, s) ==
            Applied(Journal(s.(tick := s.tick + 1, tree := s.tree[".env" := Lines(["K=a", "b", ""])]), EnvSet("K")), 1)
  {
    var w := TwoLineWorld();
    assert w.mode == Install && w.writable(s.tick + 1, ".env") && !w.hasHandler;
    hide Reached, Step, ApplyOne, Plain;
    SetIsReached(w, s);
    SetIs(w, s);
    UnheardWork(w, 1, SET, s);
  }

  /** The second line of the value survives the removal of the key. */
  lemma SecondLineStays(w: World, tree: Tree)
    requires ".env" in tree && tree[".env"] == Lines(["K=a", "b", ""]) && w.halts(1, EnvSet("K")).None?
    ensures Remove(w, tree, [CommandRan("read", None), EnvSet("K")]) == Removed(tree[".env" := Lines(["b", ""])], true, [])
  {
    hide UndoEntry, Stops;
    var e := EnvSet("K");
    var journal := [CommandRan("read", None), e];
    KeyLineGoes(w, tree);
    assert journal[..1] == [CommandRan("read", None)] && journal[..1][..0] == [];
    CommandUndone(w, UndoEntry(w, e, tree));
  }

  lemma CommandUndone(w: World, tree: Tree)
    ensures UndoEntry(w, CommandRan("read", None), tree) == tree
    ensures !Stops(w, 0, CommandRan("read", None), tree)
  {
  }

  lemma KeyLineGoes(w: World, tree: Tree)
    requires ".env" in tree && tree[".env"] == Lines(["K=a", "b", ""]) && w.halts(1, EnvSet("K")).None?
    ensures UndoEntry(w, EnvSet("K"), tree) == tree[".env" := Lines(["b", ""])] && !Stops(w, 1, EnvSet("K"), tree)
  {
    var e, lines := EnvSet("K"), ["K=a", "b", ""];
    assert StartsWith("K=a", "K" + "=") && !StartsWith("b", "K" + "=") && !StartsWith("", "K" + "=");
    assert lines[1..] == ["b", ""] && lines[1..][1..] == [""];
    assert WithoutLine([""], e) == [""] && WithoutLine(["b", ""], e) == ["b", ""];
    assert WithoutLine(lines, e) == ["b", ""];
    hide WithoutLine, Kills;
    assert ReadLines(w, tree, ".env") == lines;
  }

  /** A captured value of two lines is written to `.env`, and undo leaves its second line. */
  lemma EnvValueStays()
    ensures var w := TwoLineWorld();
            var end := Run(w, [READ, SET], map[], 2);
            end.tree == map[".env" := Lines(["K=a", "b", ""])]
            && Remove(w, end.tree, end.journal) == Removed(map[".env" := Lines(["b", ""])], true, [])
  {
    hide Step, Run, Remove;
    var w, ds := TwoLineWorld(), [READ, SET];
    RunStarts(w, ds, map[]);
    RunUnfolds(w, ds, map[], 1);
    RunUnfolds(w, ds, map[], 2);
    ValueCaptured(Initial(map[]));
    var s := Run(w, ds, map[], 1);
    assert s.tree == map[];
    ValueWritten(s);
    var end := Run(w, ds, map[], 2);
    assert [] + [CommandRan("read", None)] + [EnvSet("K")] == [CommandRan("read", None), EnvSet("K")];
    SecondLineStays(w, end.tree);
  }

  // ---------------------------------------------------------------------------
  // A pushed object that undo leaves behind
  // ---------------------------------------------------------------------------

  const PUSH := Directive("json-merge", [], map["into" := "list.json", "key" := "id"], ["{\"id\":{}}"], 1)

  /** An object under its key: the removal's test never finds it. */
  const NESTED := Obj(map["id" := Obj(map[])])

  function NestedWorld(): World {
    Plain((n, c) => Ran(true, "", map[], {}), t => if t == "{\"id\":{}}" then Some(NESTED) else None)
  }

  lemma NestedPushed(s: State)
    requires !s.blocked && "list.json" !in s.tree
    ensures Step(NestedWorld(), 0, PUSH, s) ==
            Applied(Journal(s.(tick := s.tick + 1, tree := s.tree["list.json" := Entries([NESTED])]),
                            Merged("list.json", "id", Some(Obj(map[])), None)), 0)
  {
    var w := NestedWorld();
    assert w.parse(JoinLines(PUSH.body)) == Some(NESTED);
    assert ReadArray(w, s.tree, "list.json") == Some([]);
    assert Reached(w, PUSH, s);
    assert [] + [NESTED] == [NESTED];
    assert ApplyOne(w, 0, PUSH, s) == Done(Journal(s.(tick := s.tick + 1, tree := s.tree["list.json" := Entries([NESTED])]),
                                                   Merged("list.json", "id", Some(Obj(map[])), None)), None);
    hide Reached, ApplyOne, Step;
    UnheardWork(w, 0, PUSH, s);
  }

  lemma NestedNotFound(w: World, tree: Tree)
    requires "list.json" in tree && tree["list.json"] == Entries([NESTED])
    requires w.halts(0, Merged("list.json", "id", Some(Obj(map[])), None)).None?
    ensures Remove(w, tree, [Merged("list.json", "id", Some(Obj(map[])), None)]) == Removed(tree, true, [])
  {
    var e := Merged("list.json", "id", Some(Obj(map[])), None);
    assert !ElementHas(NESTED, "id", Some(Obj(map[])));
    assert [NESTED][1..] == [];
    assert FindElement([NESTED], "id", Some(Obj(map[]))) == 1;
    assert UndoEntry(w, e, tree) == tree;
    assert [e][..0] == [];
  }

  /** An object merged into an absent list is still there after the removal. */
  lemma PushedObjectStays()
    ensures var w := NestedWorld();
            var end := Run(w, [PUSH], map[], 1);
            end.journal == [Merged("list.json", "id", Some(Obj(map[])), None)]
            && Remove(w, end.tree, end.journal) == Removed(map["list.json" := Entries([NESTED])], true, [])
  {
    hide Step, Run, Remove;
    var w := NestedWorld();
    RunStarts(w, [PUSH], map[]);
    RunUnfolds(w, [PUSH], map[], 1);
    NestedPushed(Initial(map[]));
    var end := Run(w, [PUSH], map[], 1);
    var e := Merged("list.json", "id", Some(Obj(map[])), None);
    assert [] + [e] == [e];
    NestedNotFound(w, end.tree);
  }
}
