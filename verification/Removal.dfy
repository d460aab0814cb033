/** When a removal reaches its end, and what that means for a parsed skill. */
module Removal {
  import opened Text
  import opened Directives
  import opened Vars
  import opened Engine
  import opened EngineOutcomes
  import opened Effects
  import opened Undo
  import opened Journal

  predicate MergePath(ds: seq<Directive>, q: string) { exists i :: 0 <= i < |ds| && EditsArray(ds[i], q) }

  /** `q` was merged into, and not made by a copy since. */
  ghost predicate Pending(journal: seq<Entry>, q: string) {
    exists k :: 0 <= k < |journal| && journal[k].Merged? && journal[k].path == q
                && forall j | k < j < |journal| :: journal[j] != Wrote(q)
  }

  /** Whenever the removal comes to a merge of `q`, the file parses. */
  ghost predicate Removable(w: World, tree: Tree, journal: seq<Entry>, q: string) {
    && (forall k | 0 <= k < |journal| :: Target(journal[k]) == Some(q) ==> journal[k].Wrote? || journal[k].Merged?)
    && (Pending(journal, q) ==> !Unparsed(w, tree, q))
  }

  ghost predicate MergesNamed(ds: seq<Directive>, journal: seq<Entry>) {
    forall k | 0 <= k < |journal| :: journal[k].Merged? ==> MergePath(ds, journal[k].path)
  }

  // ---------------------------------------------------------------------------
  // Going back
  // ---------------------------------------------------------------------------

  lemma PendingPush(journal: seq<Entry>, e: Entry, q: string)
    ensures Pending(journal, q) && e != Wrote(q) ==> Pending(journal + [e], q)
    ensures e.Merged? && e.path == q ==> Pending(journal + [e], q)
  {
    var longer := journal + [e];
    if Pending(journal, q) && e != Wrote(q) {
      var k :| 0 <= k < |journal| && journal[k].Merged? && journal[k].path == q && forall j | k < j < |journal| :: journal[j] != Wrote(q);
      assert longer[k].Merged? && longer[k].path == q;
    }
    if e.Merged? && e.path == q { assert longer[|journal|] == e; }
  }

  lemma UndoneParses(w: World, e: Entry, tree: Tree, q: string)
    requires Target(e) == Some(q) && (e.Wrote? || (e.Merged? && !Unparsed(w, tree, q)))
    ensures !Unparsed(w, UndoEntry(w, e, tree), q)
  {
    hide ReadArray, UndoMerge, JoinLines;
  }

  lemma UndoneRemovable(w: World, tree: Tree, journal: seq<Entry>, e: Entry, q: string)
    requires Removable(w, tree, journal + [e], q)
    ensures Removable(w, UndoEntry(w, e, tree), journal, q)
  {
    hide Pending, UndoEntry, Unparsed, Target;
    PendingPush(journal, e, q);
    var longer := journal + [e];
    assert longer[|journal|] == e && forall k | 0 <= k < |journal| :: longer[k] == journal[k];
    TargetOf(e, q);
    if Target(e) == Some(q) {
      if e.Wrote? || !Unparsed(w, tree, q) { UndoneParses(w, e, tree, q); }
    } else {
      UndoElsewhere(w, e, tree, q);
      ParsesAlike(w, tree, UndoEntry(w, e, tree), q);
    }
  }

  lemma TargetOf(e: Entry, q: string)
    ensures e.Wrote? || e.Merged? ==> Target(e) == Some(e.path)
    ensures e == Wrote(q) ==> Target(e) == Some(q)
  {
  }

  lemma ParsesAlike(w: World, a: Tree, b: Tree, q: string)
    requires At(a, q) == At(b, q)
    ensures Unparsed(w, a, q) == Unparsed(w, b, q)
  {
    hide JoinLines;
  }

  /** No file operation and no undo command of the removal throws. */
  predicate Unhalted(w: World, journal: seq<Entry>) { forall k | 0 <= k < |journal| :: !Halts(w, k, journal[k]) }

  lemma UnhaltedPush(w: World, journal: seq<Entry>, e: Entry)
    ensures Unhalted(w, journal + [e]) <==> Unhalted(w, journal) && !Halts(w, |journal|, e)
  {
    hide Halts;
    var longer := journal + [e];
    assert longer[|journal|] == e && forall k | 0 <= k < |journal| :: longer[k] == journal[k];
  }

  lemma {:induction false} FinishesFrom(w: World, ds: seq<Directive>, tree: Tree, journal: seq<Entry>)
    requires MergesNamed(ds, journal) && forall q | MergePath(ds, q) :: Removable(w, tree, journal, q)
    ensures Remove(w, tree, journal).finished <==> Unhalted(w, journal)
    decreases |journal|
  {
    hide MergePath, UndoEntry, Unparsed, Pending, Removable, Halts, Halted, Unhalted;
    NothingHalts(w);
    if journal != [] {
      var n := |journal| - 1;
      var e, rest := journal[n], journal[..n];
      assert journal == rest + [e];
      UnhaltedPush(w, rest, e);
      if e.Merged? {
        assert MergePath(ds, e.path);
        PendingPush(rest, e, e.path);
        RemovableParses(w, tree, journal, e.path);
      }
      forall q | MergePath(ds, q) ensures Removable(w, UndoEntry(w, e, tree), rest, q) { UndoneRemovable(w, tree, rest, e, q); }
      FinishesFrom(w, ds, UndoEntry(w, e, tree), rest);
    }
  }

  lemma NothingHalts(w: World)
    ensures Unhalted(w, [])
  {
  }

  lemma RemovableParses(w: World, tree: Tree, journal: seq<Entry>, q: string)
    requires Removable(w, tree, journal, q) && Pending(journal, q)
    ensures !Unparsed(w, tree, q)
  {
  }

  // ---------------------------------------------------------------------------
  // Every run leaves a journal that can be gone back over
  // ---------------------------------------------------------------------------

  lemma KeptRemovable(w: World, q: string, s: State, s': State)
    requires Kept(q, s, s') && Removable(w, s.tree, s.journal, q)
    ensures Removable(w, s'.tree, s'.journal, q)
  {
    hide Unparsed, Target, At;
    ParsesAlike(w, s.tree, s'.tree, q);
    forall k | 0 <= k < |s'.journal| && Target(s'.journal[k]) == Some(q) ensures s'.journal[k].Wrote? || s'.journal[k].Merged? {
      assert s'.journal[k] == s.journal[k];
    }
    if Pending(s'.journal, q) {
      var k :| 0 <= k < |s'.journal| && s'.journal[k].Merged? && s'.journal[k].path == q
               && forall j | k < j < |s'.journal| :: s'.journal[j] != Wrote(q);
      TargetOf(s'.journal[k], q);
      assert s.journal[k] == s'.journal[k];
      assert forall j | k < j < |s.journal| :: s.journal[j] == s'.journal[j];
    }
  }

  /** A merge changes nothing, or makes the file an array and records it. */
  lemma MergeShape(w: World, d: Directive, s: State)
    ensures var r, q := ApplyMerge(w, d, s).s, Printed(d, "into");
      || (r.tree == s.tree && r.journal == s.journal)
      || (|r.journal| == |s.journal| + 1 && r.journal[..|s.journal|] == s.journal
          && r.journal[|s.journal|].Merged? && r.journal[|s.journal|].path == q && q in r.tree && r.tree[q].Entries?)
  {
    hide ReadArray, JoinLines, Printed, Write;
    var into, key := Printed(d, "into"), Printed(d, "key");
    match (w.parse(JoinLines(d.body)), ReadArray(w, s.tree, into))
    case (Some(obj), Some(items)) =>
      var at := FindElement(items, key, Field(obj, key));
      WriteShape(w, into, Entries(items + [obj]), s);
      if at < |items| { WriteShape(w, into, Entries(items[at := obj]), s); }
    case _ =>
  }

  lemma WriteShape(w: World, path: string, file: File, s: State)
    ensures var r := Write(w, path, file, s);
      r.s.journal == s.journal && r.s.tree == if r.error.Some? then s.tree else s.tree[path := file]
  {
  }

  lemma MergedRemovable(w: World, d: Directive, s: State, q: string)
    requires EditsArray(d, q) && Removable(w, s.tree, s.journal, q)
    ensures Removable(w, ApplyMerge(w, d, s).s.tree, ApplyMerge(w, d, s).s.journal, q)
  {
    hide Removable, ApplyMerge, Printed;
    MergeShape(w, d, s);
    var r := ApplyMerge(w, d, s).s;
    if r.journal != s.journal {
      var e := r.journal[|s.journal|];
      assert r.journal == s.journal + [e];
      PushedRemovable(w, s.tree, r.tree, s.journal, e, q);
    }
  }

  lemma PushedRemovable(w: World, tree: Tree, tree': Tree, journal: seq<Entry>, e: Entry, q: string)
    requires Removable(w, tree, journal, q) && e.Merged? && e.path == q && q in tree' && tree'[q].Entries?
    ensures Removable(w, tree', journal + [e], q)
  {
    hide Pending, Target;
    assert forall k | 0 <= k < |journal| :: (journal + [e])[k] == journal[k];
  }

  lemma CopiedRemovable(w: World, tree: Tree, tree': Tree, journal: seq<Entry>, d: Directive, q: string)
    requires Removable(w, tree, journal, q) && CopiesTo(d, q)
    ensures Removable(w, tree', journal + WroteAll(d.body), q)
  {
    hide WroteAll, DestOf, Target, Unparsed;
    WroteEntries(d.body);
    var j :| 0 <= j < |d.body| && DestOf(d.body[j]) == q;
    var longer := journal + WroteAll(d.body);
    assert longer[|journal| + j] == Wrote(q);
    forall k | 0 <= k < |longer| && Target(longer[k]) == Some(q) ensures longer[k].Wrote? || longer[k].Merged? {
      if k < |journal| { assert longer[k] == journal[k]; } else { assert longer[k] == WroteAll(d.body)[k - |journal|]; }
    }
  }

  /** What a merge path may have done to it. */
  ghost predicate Apart(w: World, ds: seq<Directive>, t0: Tree, q: string) {
    && Quiet(w, q) && (forall i | 0 <= i < |ds| :: !EditsText(ds[i], q))
    && (forall i | 0 <= i < |ds| :: CopyJournaled(w, i, ds[i], Run(w, ds, t0, i), q))
  }

  /** No command and no text edit changes a file that is merged into, and no copy of one stops half way. */
  ghost predicate MergesApart(w: World, ds: seq<Directive>, t0: Tree) {
    forall q | MergePath(ds, q) :: Apart(w, ds, t0, q)
  }

  lemma WorkRemovable(w: World, i: nat, d: Directive, s: State, q: string)
    requires Quiet(w, q) && !EditsText(d, q) && Removable(w, s.tree, s.journal, q)
    ensures var r := ApplyOne(w, i, d, s).s;
            Removable(w, r.tree, r.journal, q) || (CopiesTo(d, q) && r.journal == s.journal)
  {
    hide Removable, Quiet, Each, ApplyCopy, ApplyStream, ApplyDep, ApplyMerge, EditsText, CopiesTo;
    if CopiesTo(d, q) {
      CopiesIsCopy(d, q);
      CopyJournal(w, i, d, s);
      assert s.journal + [] == s.journal;
      CopiedRemovable(w, s.tree, ApplyCopy(w, i, d, s).s.tree, s.journal, d, q);
    } else if EditsArray(d, q) {
      MergedRemovable(w, d, s, q);
    } else {
      ApplyOneKeeps(w, i, d, s, q);
      KeptRemovable(w, q, s, ApplyOne(w, i, d, s).s);
    }
  }

  lemma StepRemovable(w: World, i: nat, d: Directive, s: State, q: string)
    requires Quiet(w, q) && !EditsText(d, q) && CopyJournaled(w, i, d, s, q) && Removable(w, s.tree, s.journal, q)
    ensures Removable(w, Step(w, i, d, s).tree, Step(w, i, d, s).journal, q)
  {
    hide Step, Removable, Quiet, Started, ApplyOne, EditsText, Kept, CopiesTo, At;
    var s', s1 := Step(w, i, d, s), Started(w, i, d, s);
    StepIsApply(w, i, d, s);
    if SameWork(s', s) {
      SameWorkKept(q, s, s');
      KeptRemovable(w, q, s, s');
    } else {
      var r := ApplyOne(w, i, d, s1).s;
      WorkRemovable(w, i, d, s1, q);
      if !Removable(w, r.tree, r.journal, q) {
        KeptIfUnchanged(q, s, s');
        KeptRemovable(w, q, s, s');
      }
    }
  }

  lemma {:induction false} RunRemovable(w: World, ds: seq<Directive>, t0: Tree, q: string, n: nat)
    requires n <= |ds| && Apart(w, ds, t0, q)
    ensures Removable(w, Run(w, ds, t0, n).tree, Run(w, ds, t0, n).journal, q)
  {
    hide Step, Quiet, EditsText, CopyJournaled, Unparsed;
    if n > 0 {
      RunRemovable(w, ds, t0, q, n - 1);
      RunUnfolds(w, ds, t0, n);
      StepRemovable(w, n - 1, ds[n - 1], Run(w, ds, t0, n - 1), q);
    }
  }

  /** A merge is journaled under the path its directive names. */
  lemma RunNames(w: World, ds: seq<Directive>, t0: Tree, n: nat)
    requires n <= |ds|
    ensures MergesNamed(ds, Run(w, ds, t0, n).journal)
  {
    hide Run, SpelledBy, EditsArray;
    var journal := Run(w, ds, t0, n).journal;
    forall k | 0 <= k < |journal| && journal[k].Merged? ensures MergePath(ds, journal[k].path) {
      var i := JournalIsSpelled(w, ds, t0, n, k);
      SpelledMerge(ds[i], journal[k]);
    }
  }

  lemma SpelledMerge(d: Directive, e: Entry)
    requires e.Merged? && SpelledBy(d, e)
    ensures EditsArray(d, e.path)
  {
  }

  // ---------------------------------------------------------------------------
  // The removal of a run
  // ---------------------------------------------------------------------------

  /**
   * A merged file always parses when the removal comes to it, so the removal reaches its end
   * exactly when no file operation and no undo command of its own throws.
   */
  lemma RemovalFinishes(w: World, ds: seq<Directive>, t0: Tree)
    requires MergesApart(w, ds, t0)
    ensures var end := Run(w, ds, t0, |ds|); Remove(w, end.tree, end.journal).finished <==> Unhalted(w, end.journal)
  {
    hide Run, Remove, MergePath, Apart, Removable, MergesNamed, Unhalted;
    var end := Run(w, ds, t0, |ds|);
    RunNames(w, ds, t0, |ds|);
    forall q | MergePath(ds, q) ensures Removable(w, end.tree, end.journal, q) { RunRemovable(w, ds, t0, q, |ds|); }
    FinishesFrom(w, ds, end.tree, end.journal);
  }

  /** Install a parsed skill and remove it again with nothing throwing: each path under the stated conditions is as it was. */
  lemma UndoSkill(w: World, markdown: string, t0: Tree, p: string)
    requires var ds := Parse(markdown);
             PathUndoable(w, ds, t0, p) && RunUndoable(w, ds, t0, p) && MergesApart(w, ds, t0)
    ensures var ds := Parse(markdown);
            var end := Run(w, ds, t0, |ds|);
            var undone := Remove(w, end.tree, end.journal);
            && (undone.finished <==> Unhalted(w, end.journal))
            && (undone.finished ==>
                if forall i | 0 <= i < |ds| :: !EditsArray(ds[i], p)
                then Content(w, undone.tree, p) == Content(w, t0, p)
                else ReadArray(w, undone.tree, p) == ReadArray(w, t0, p))
  {
    hide Parse, Run, Remove, Unhalted, PathUndoable, RunUndoable, MergesApart, Content, ReadArray, Harmless, EditsArray;
    var ds := Parse(markdown);
    ParsedIsHarmless(markdown, p);
    RemovalFinishes(w, ds, t0);
    UndoRestores(w, ds, t0, p);
  }
}
