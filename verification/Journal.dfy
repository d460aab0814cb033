/** The journal speaks the skill's own words: whatever was substituted, captured or asked, nothing of it is recorded. */
module Journal {
  import opened Text
  import opened Directives
  import opened Vars
  import opened Engine
  import opened EngineOutcomes
  import opened Effects
  import opened Undo

  /** The entry is spelled out by the directive's own text. */
  ghost predicate SpelledBy(d: Directive, e: Entry) {
    match e
    case Wrote(path) => CopiesTo(d, path)
    case Appended(path, line) => d.kind == "append" && Printed(d, "to") == path && line in d.body
    case EnvSet(key) => d.kind == "env-set" && exists k | 0 <= k < |d.body| :: EnvKey(d.body[k]) == key
    case Merged(path, key, _, _) => EditsArray(d, path) && key == Printed(d, "key")
    case CommandRan(command, undo) =>
      if d.kind == "dep" then command == InstallText(d) && undo == Some(UninstallText(d))
      else
        && d.kind == "run" && (command in d.body || command == JoinLines(d.body))
        && (undo.None? || ("effect" in d.attrs && d.attrs["effect"] == "external" && "remove" in d.attrs && undo == Some(d.attrs["remove"])))
  }

  /** Every new entry is spelled by the directive. */
  ghost predicate Spells(d: Directive, before: seq<Entry>, after: seq<Entry>) {
    before <= after && forall k | |before| <= k < |after| :: SpelledBy(d, after[k])
  }

  lemma SpellsCompose(d: Directive, a: seq<Entry>, b: seq<Entry>, c: seq<Entry>)
    requires Spells(d, a, b) && Spells(d, b, c)
    ensures Spells(d, a, c)
  {
    hide SpelledBy;
    forall k | |a| <= k < |c| ensures SpelledBy(d, c[k]) {
      if k < |b| { assert b[k] == c[k]; }
    }
  }

  lemma SpellsOne(d: Directive, journal: seq<Entry>, e: Entry)
    ensures Spells(d, journal, journal)
    ensures SpelledBy(d, e) ==> Spells(d, journal, journal + [e])
  {
    hide SpelledBy;
  }

  /** What is done for a body line is what its directive asks for. */
  predicate Fits(d: Directive, op: LineOp) {
    match op
    case AppendTo(path) => d.kind == "append" && path == Printed(d, "to")
    case InsertAt(path, _) => d.kind == "append" && path == Printed(d, "to")
    case RunCommand(_, _, undo) => d.kind == "run" && op == RunOp(d)
    case SetEnv => d.kind == "env-set"
    case _ => true
  }

  lemma EntrySpelled(d: Directive, op: LineOp, l: string)
    requires Fits(d, op) && l in d.body
    ensures op.AppendTo? || op.InsertAt? ==> SpelledBy(d, Appended(op.path, l))
    ensures op.SetEnv? ==> SpelledBy(d, EnvSet(EnvKey(l)))
    ensures op.RunCommand? ==> SpelledBy(d, CommandRan(l, op.undo))
  {
    hide EnvKey;
  }

  lemma LineSpells(w: World, i: nat, d: Directive, op: LineOp, l: string, s: State)
    requires Fits(d, op) && l in d.body
    ensures Spells(d, s.journal, DoLine(w, i, op, l, s).s.journal)
  {
    hide Spells, SpelledBy, Fits, Substitute, EnvKeySet, ReadLines, SplitLines, WithLine, WithLines, MarkerAt, Indent, BindCapture, SourceOf, DestOf;
    EntrySpelled(d, op, l);
    SpellsOne(d, s.journal, EnvSet(EnvKey(l)));
    match op
    case AppendTo(path) => SpellsOne(d, s.journal, Appended(path, l));
    case InsertAt(path, _) => SpellsOne(d, s.journal, Appended(path, l));
    case RunCommand(capture, validate, undo) =>
      SpellsOne(d, s.journal, CommandRan(l, undo));
      var ran := Exec(w, i, Shell(Filled(l, s.vars)), s);
      if capture.Some? { BindKeeps(w, capture.value, Trim(Answer(w, s, Shell(Filled(l, s.vars))).text), validate, ran.s); }
    case _ =>
  }

  lemma {:induction false} EachSpells(w: World, i: nat, d: Directive, op: LineOp, body: seq<string>, s: State)
    requires Fits(d, op) && forall k | 0 <= k < |body| :: body[k] in d.body
    ensures Spells(d, s.journal, Each(w, i, op, body, s).s.journal)
  {
    hide DoLine, Spells, Fits;
    SpellsOne(d, s.journal, Wrote(""));
    if body != [] {
      var r := DoLine(w, i, op, body[0], s);
      LineSpells(w, i, d, op, body[0], s);
      if r.error.None? {
        EachSpells(w, i, d, op, body[1..], r.s);
        SpellsCompose(d, s.journal, r.s.journal, Each(w, i, op, body[1..], r.s).s.journal);
      }
    }
  }

  lemma CopySpells(w: World, i: nat, d: Directive, s: State)
    requires d.kind == "copy"
    ensures Spells(d, s.journal, ApplyCopy(w, i, d, s).s.journal)
  {
    hide ApplyCopy, WroteAll, DestOf;
    CopyJournal(w, i, d, s);
    WroteEntries(d.body);
    assert s.journal + [] == s.journal;
    var n, wrote := |s.journal|, WroteAll(d.body);
    forall k | n <= k < |s.journal + wrote| ensures SpelledBy(d, (s.journal + wrote)[k]) {
      assert (s.journal + wrote)[k] == wrote[k - n] == Wrote(DestOf(d.body[k - n]));
    }
  }

  lemma StreamSpells(w: World, i: nat, d: Directive, s: State)
    requires d.kind == "run"
    ensures Spells(d, s.journal, ApplyStream(w, i, d, s).s.journal)
  {
    hide CaptureFields, Substitute, SplitAt, Trim, JoinLines;
    var script := JoinLines(d.body);
    var out := w.stream(s.tick + 1, Filled(script, s.vars));
    var s1 := s.(tick := s.tick + 1, calls := s.calls + [Streaming(i, Filled(script, s.vars))]);
    FieldsKeep(SplitAt(OrEmpty(d, "capture"), ','), out.fields, s1);
    SpellsOne(d, s.journal, CommandRan(script, None));
  }

  lemma MergeSpells(w: World, d: Directive, s: State)
    requires d.kind == "json-merge"
    ensures Spells(d, s.journal, ApplyMerge(w, d, s).s.journal)
  {
    hide JoinLines, ReadArray, FindElement, Field, SpelledBy;
    var into, key := Printed(d, "into"), Printed(d, "key");
    forall value, previous ensures SpelledBy(d, Merged(into, key, value, previous)) { MergeSpelled(d, value, previous); }
    var journal := ApplyMerge(w, d, s).s.journal;
    SpellsOne(d, s.journal, if journal == s.journal then EnvSet("") else journal[|journal| - 1]);
  }

  lemma MergeSpelled(d: Directive, value: Option<Json>, previous: Option<Json>)
    requires d.kind == "json-merge"
    ensures SpelledBy(d, Merged(Printed(d, "into"), Printed(d, "key"), value, previous))
  {
  }

  lemma DepSpells(w: World, i: nat, d: Directive, s: State)
    requires d.kind == "dep"
    ensures Spells(d, s.journal, ApplyDep(w, i, d, s).s.journal)
  {
  }

  lemma OpsFit(d: Directive)
    ensures d.kind == "append" ==> Fits(d, AppendOp(d))
    ensures d.kind == "run" ==> Fits(d, RunOp(d)) && Fits(d, Check)
    ensures d.kind == "env-set" ==> Fits(d, SetEnv)
  {
  }

  lemma WorkSpells(w: World, i: nat, d: Directive, s: State)
    ensures Spells(d, s.journal, ApplyOne(w, i, d, s).s.journal)
  {
    hide Spells, Fits, Each, ApplyCopy, ApplyStream, ApplyMerge, ApplyDep, AppendOp, RunOp, Effect;
    SpellsOne(d, s.journal, Wrote(""));
    OpsFit(d);
    if d.kind == "copy" { CopySpells(w, i, d, s); }
    else if d.kind == "append" { EachSpells(w, i, d, AppendOp(d), d.body, s); }
    else if d.kind == "dep" { DepSpells(w, i, d, s); }
    else if d.kind == "run" {
      EachSpells(w, i, d, Check, d.body, s);
      StreamSpells(w, i, d, s);
      EachSpells(w, i, d, RunOp(d), d.body, s);
    }
    else if d.kind == "env-set" { EachSpells(w, i, d, SetEnv, d.body, s); }
    else if d.kind == "json-merge" { MergeSpells(w, d, s); }
  }

  lemma StepSpells(w: World, i: nat, d: Directive, s: State)
    ensures Spells(d, s.journal, Step(w, i, d, s).journal)
  {
    hide Step, Spells, Started, ApplyOne;
    StepIsApply(w, i, d, s);
    SpellsOne(d, s.journal, Wrote(""));
    WorkSpells(w, i, d, Started(w, i, d, s));
  }

  /**
   * Every entry of every run's journal is spelled by the text of some directive of the run.
   * No answer, no capture and no filled-in command ever gets into the journal.
   */
  lemma {:induction false} JournalIsSpelled(w: World, ds: seq<Directive>, t0: Tree, n: nat, k: nat) returns (i: nat)
    requires n <= |ds| && k < |Run(w, ds, t0, n).journal|
    ensures i < n && SpelledBy(ds[i], Run(w, ds, t0, n).journal[k])
  {
    hide Step, SpelledBy;
    RunUnfolds(w, ds, t0, n);
    StepSpells(w, n - 1, ds[n - 1], Run(w, ds, t0, n - 1));
    if k < |Run(w, ds, t0, n - 1).journal| {
      i := JournalIsSpelled(w, ds, t0, n - 1, k);
    } else {
      i := n - 1;
    }
  }

  // ---------------------------------------------------------------------------
  // Undo commands
  // ---------------------------------------------------------------------------

  /** The undo commands of a journal, newest first. */
  function UndoCommands(journal: seq<Entry>): seq<string>
    decreases |journal|
  {
    if journal == [] then []
    else
      var n := |journal| - 1;
      (match journal[n]
       case CommandRan(_, Some(undo)) => if undo != "" then [undo] else []
       case _ => [])
      + UndoCommands(journal[..n])
  }

  /** A removal that reaches its end has called every undo command of the journal, newest first, each once. */
  lemma {:induction false} UndoCommandsCalled(w: World, tree: Tree, journal: seq<Entry>)
    requires Remove(w, tree, journal).finished
    ensures Remove(w, tree, journal).called == UndoCommands(journal)
    decreases |journal|
  {
    hide UndoEntry, Stops;
    if journal != [] {
      UndoCommandsCalled(w, UndoEntry(w, journal[|journal| - 1], tree), journal[..|journal| - 1]);
    }
  }
}
