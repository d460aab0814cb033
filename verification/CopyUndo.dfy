/** What the removal makes of copied files: exactly when a copy that stopped half way leaves something behind. */
module CopyUndo {
  import opened Text
  import opened Directives
  import opened Engine
  import opened EngineOutcomes
  import opened Effects
  import opened Undo

  // ---------------------------------------------------------------------------
  // One local copy
  // ---------------------------------------------------------------------------

  predicate CopyFails(w: World, line: string, tick: nat) {
    w.source(SourceOf(line)).None? || DestOf(line) == "" || !w.writable(tick + 1, DestOf(line))
  }

  /** The first body line that cannot be copied, or the length. */
  function FirstFailure(w: World, body: seq<string>, tick: nat): (k: nat)
    ensures k <= |body|
  {
    if body == [] then 0 else if CopyFails(w, body[0], tick) then 0 else 1 + FirstFailure(w, body[1..], tick + 1)
  }

  /** The tree once these lines are copied. */
  function CopiedTree(w: World, body: seq<string>, tree: Tree): Tree {
    if body == [] then tree
    else
      CopiedTree(w, body[1..],
        match w.source(SourceOf(body[0])) case None => tree case Some(file) => tree[DestOf(body[0]) := file])
  }

  predicate CopiedBefore(body: seq<string>, k: nat, p: string)
    requires k <= |body|
  {
    exists j :: 0 <= j < k && DestOf(body[j]) == p
  }

  lemma CopyLine(w: World, i: nat, l: string, s: State)
    ensures var r := DoLine(w, i, CopyLocal, l, s);
      && (r.error.Some? <==> CopyFails(w, l, s.tick)) && r.s.journal == s.journal
      && (if CopyFails(w, l, s.tick) then r.s.tree == s.tree
          else w.source(SourceOf(l)).Some? && r.s.tick == s.tick + 1 && r.s.tree == s.tree[DestOf(l) := w.source(SourceOf(l)).value])
  {
    hide SourceOf, DestOf;
  }

  /** The lines before the first failure are copied; the copy ends there, or with the body. */
  lemma {:induction false} CopiesUntilFailure(w: World, i: nat, body: seq<string>, s: State)
    ensures var r, k := Each(w, i, CopyLocal, body, s), FirstFailure(w, body, s.tick);
      (r.error.Some? <==> k < |body|) && r.s.tree == CopiedTree(w, body[..k], s.tree) && r.s.journal == s.journal
  {
    hide SourceOf, DestOf, DoLine, CopyFails, CopiedTree;
    if body != [] {
      CopyLine(w, i, body[0], s);
      var r, k := DoLine(w, i, CopyLocal, body[0], s), FirstFailure(w, body, s.tick);
      if r.error.None? {
        CopiesUntilFailure(w, i, body[1..], r.s);
        CopiedTreeFirst(w, body, k, s.tree);
      } else {
        NoLines(body);
        CopiedNothing(w, s.tree);
      }
    } else {
      NoLines(body);
      CopiedNothing(w, s.tree);
    }
  }

  lemma NoLines(body: seq<string>)
    ensures body[..0] == []
  {
  }

  lemma CopiedTreeFirst(w: World, body: seq<string>, k: nat, tree: Tree)
    requires 0 < k <= |body|
    ensures CopiedTree(w, body[..k], tree) ==
      CopiedTree(w, body[1..][..k - 1],
        match w.source(SourceOf(body[0])) case None => tree case Some(file) => tree[DestOf(body[0]) := file])
  {
    hide SourceOf, DestOf;
    assert body[..k][1..] == body[1..][..k - 1];
  }

  lemma {:induction false} CopiedTreeHas(w: World, body: seq<string>, tree: Tree, p: string)
    requires forall j | 0 <= j < |body| :: w.source(SourceOf(body[j])).Some?
    ensures p in CopiedTree(w, body, tree) <==> p in tree || CopiedBefore(body, |body|, p)
  {
    hide SourceOf, DestOf;
    if body != [] {
      CopiedTreeHas(w, body[1..], tree[DestOf(body[0]) := w.source(SourceOf(body[0])).value], p);
      if CopiedBefore(body[1..], |body| - 1, p) {
        var j :| 0 <= j < |body| - 1 && DestOf(body[1..][j]) == p;
        assert DestOf(body[j + 1]) == p;
      }
      if CopiedBefore(body, |body|, p) {
        var j :| 0 <= j < |body| && DestOf(body[j]) == p;
        if j > 0 { assert DestOf(body[1..][j - 1]) == p; }
      }
    }
  }

  lemma {:induction false} BeforeFailure(w: World, body: seq<string>, tick: nat, j: nat)
    requires j < FirstFailure(w, body, tick)
    ensures w.source(SourceOf(body[j])).Some?
  {
    hide SourceOf, DestOf;
    if j > 0 { BeforeFailure(w, body[1..], tick + 1, j - 1); }
  }

  lemma FailureHas(w: World, body: seq<string>, s: State, p: string)
    ensures var k := FirstFailure(w, body, s.tick);
            p in CopiedTree(w, body[..k], s.tree) <==> p in s.tree || CopiedBefore(body, k, p)
  {
    hide SourceOf, DestOf, CopiedTree;
    var k := FirstFailure(w, body, s.tick);
    forall j | 0 <= j < |body[..k]| ensures w.source(SourceOf(body[..k][j])).Some? { BeforeFailure(w, body, s.tick, j); }
    CopiedTreeHas(w, body[..k], s.tree, p);
    if CopiedBefore(body[..k], k, p) {
      var j :| 0 <= j < k && DestOf(body[..k][j]) == p;
      assert DestOf(body[j]) == p;
    }
    if CopiedBefore(body, k, p) {
      var j :| 0 <= j < k && DestOf(body[j]) == p;
      assert DestOf(body[..k][j]) == p;
    }
  }

  predicate LocalCopy(d: Directive) { d.kind == "copy" && OrEmpty(d, "from-branch") == "" }

  lemma LocalCopyIs(w: World, i: nat, d: Directive, s: State)
    requires LocalCopy(d)
    ensures var r := Each(w, i, CopyLocal, d.body, s);
            ApplyOne(w, i, d, s) == if r.error.Some? then r else Done(r.s.(journal := r.s.journal + WroteAll(d.body)), None)
  {
    hide Each, WroteAll;
  }

  /**
   * A local copy leaves a file without a journal entry exactly when some line fails and an
   * earlier line had copied that file; it fails and leaves nothing exactly when its first
   * line is the one that fails.
   */
  lemma CopyLeavesIff(w: World, i: nat, d: Directive, s: State, p: string)
    requires LocalCopy(d)
    ensures var r, k := ApplyOne(w, i, d, s), FirstFailure(w, d.body, s.tick);
      && (r.error.Some? <==> k < |d.body|)
      && (p !in s.tree ==> ((p in r.s.tree && r.s.journal == s.journal) <==> k < |d.body| && CopiedBefore(d.body, k, p)))
      && ((forall j | 0 <= j < |d.body| :: DestOf(d.body[j]) !in s.tree) ==>
            ((r.error.Some? && r.s.tree == s.tree) <==> k == 0 < |d.body|))
  {
    hide Each, WroteAll, ApplyOne, FirstFailure, CopiedTree, DestOf, LocalCopy, CopiedBefore;
    var k := FirstFailure(w, d.body, s.tick);
    LocalCopyIs(w, i, d, s);
    CopiesUntilFailure(w, i, d.body, s);
    FailureHas(w, d.body, s, p);
    WroteEntries(d.body);
    if k == |d.body| { NothingCopied(d.body, k, p); }
    if k > 0 && DestOf(d.body[0]) !in s.tree {
      FailureHas(w, d.body, s, DestOf(d.body[0]));
      CopiedFirst(d.body, k);
    }
    if k == 0 {
      assert d.body[..0] == [];
      CopiedNothing(w, s.tree);
    }
  }

  lemma NothingCopied(body: seq<string>, k: nat, p: string)
    requires k <= |body|
    ensures body == [] ==> !CopiedBefore(body, k, p)
  {
  }

  lemma CopiedFirst(body: seq<string>, k: nat)
    requires 0 < k <= |body|
    ensures CopiedBefore(body, k, DestOf(body[0]))
  {
    hide DestOf;
  }

  lemma CopiedNothing(w: World, tree: Tree)
    ensures CopiedTree(w, [], tree) == tree
  {
  }

  // ---------------------------------------------------------------------------
  // Whole runs
  // ---------------------------------------------------------------------------

  /** Copies are all that may touch `p`, and it was absent. */
  ghost predicate OnlyCopied(w: World, ds: seq<Directive>, t0: Tree, p: string) {
    && Quiet(w, p) && p !in t0 && forall i | 0 <= i < |ds| :: !EditsText(ds[i], p) && !EditsArray(ds[i], p)
  }

  /** Some copy changed `p` and was not journaled. */
  ghost predicate Unjournaled(w: World, ds: seq<Directive>, t0: Tree, p: string, n: nat)
    requires n <= |ds|
  {
    exists i :: 0 <= i < n && !CopyJournaled(w, i, ds[i], Run(w, ds, t0, i), p)
  }

  ghost predicate CopyInv(w: World, ds: seq<Directive>, t0: Tree, p: string, n: nat)
    requires n <= |ds|
  {
    var s := Run(w, ds, t0, n);
    && (forall k | 0 <= k < |s.journal| :: Target(s.journal[k]) == Some(p) ==> s.journal[k] == Wrote(p))
    && (Wrote(p) !in s.journal ==> (p in s.tree <==> Unjournaled(w, ds, t0, p, n)))
  }

  lemma {:induction false} LinesAdd(w: World, i: nat, op: LineOp, body: seq<string>, s: State, p: string)
    requires Quiet(w, p) && (op.CopyLocal? || op.CopyBranch?) && p in s.tree
    ensures p in Each(w, i, op, body, s).s.tree
  {
    hide SourceOf, DestOf, Quiet;
    if body != [] {
      var r := DoLine(w, i, op, body[0], s);
      if op.CopyBranch? { ExecAdds(w, i, GitShow(op.branch, SourceOf(body[0]), DestOf(body[0])), s, p); }
      if r.error.None? { LinesAdd(w, i, op, body[1..], r.s, p); }
    }
  }

  lemma ExecAdds(w: World, i: nat, cmd: Command, s: State, p: string)
    requires Quiet(w, p) && p in s.tree
    ensures p in Exec(w, i, cmd, s).s.tree
  {
    assert p !in w.exec(s.tick + 1, cmd).removes;
  }

  lemma CopyAdds(w: World, i: nat, d: Directive, s: State, p: string)
    requires Quiet(w, p) && p in s.tree
    ensures p in ApplyCopy(w, i, d, s).s.tree
  {
    hide Each, Quiet, WroteAll, Exec;
    var branch := OrEmpty(d, "from-branch");
    ExecAdds(w, i, GitFetch(branch), s, p);
    var fetched := if branch == "" then Done(s, None) else Exec(w, i, GitFetch(branch), s);
    LinesAdd(w, i, if branch == "" then CopyLocal else CopyBranch(branch), d.body, fetched.s, p);
  }

  /** What a step does to a path that only copies touch. */
  lemma CopyStep(w: World, i: nat, d: Directive, s: State, p: string)
    requires Quiet(w, p) && !EditsText(d, p) && !EditsArray(d, p)
    ensures var s' := Step(w, i, d, s);
      || (At(s'.tree, p) == At(s.tree, p) && Kept(p, s, s'))
      || (s'.journal == s.journal && At(s'.tree, p) != At(s.tree, p) && p in s'.tree && CopiesTo(d, p))
      || (s.journal <= s'.journal && Wrote(p) in s'.journal && CopiesTo(d, p) && s'.journal != s.journal
          && forall k | |s.journal| <= k < |s'.journal| :: s'.journal[k].Wrote?)
  {
    hide Step, Quiet, EditsText, EditsArray, Started, ApplyOne, Kept, CopiesTo, WroteAll;
    var s', s1 := Step(w, i, d, s), Started(w, i, d, s);
    StepIsApply(w, i, d, s);
    if SameWork(s', s) {
      SameWorkKept(p, s, s');
    } else if CopiesTo(d, p) {
      CopiesIsCopy(d, p);
      CopyJournal(w, i, d, s1);
      assert s.journal + [] == s.journal;
      CopyIsWork(w, i, d, s1);
      if ApplyCopy(w, i, d, s1).error.None? {
        CopyWrites(d, s.journal, p);
      } else if At(s'.tree, p) == At(s.tree, p) {
        KeptIfUnchanged(p, s, s');
      } else if p in s.tree {
        CopyAdds(w, i, d, s1, p);
      }
    } else {
      SameWorkKept(p, s, s1);
      TouchesOnly(d, p);
      ApplyOneKeeps(w, i, d, s1, p);
      var r := ApplyOne(w, i, d, s1).s;
      SameWorkKept(p, r, s');
      KeptCompose(p, s, s1, r);
      KeptCompose(p, s, r, s');
      KeptAt(p, s, s');
    }
  }

  lemma TouchesOnly(d: Directive, p: string)
    requires !CopiesTo(d, p) && !EditsText(d, p) && !EditsArray(d, p)
    ensures !Touches(d, p)
  {
  }

  lemma KeptAt(p: string, s: State, s': State)
    requires Kept(p, s, s')
    ensures At(s'.tree, p) == At(s.tree, p)
  {
  }

  lemma CopyIsWork(w: World, i: nat, d: Directive, s: State)
    requires d.kind == "copy"
    ensures ApplyOne(w, i, d, s) == ApplyCopy(w, i, d, s)
  {
    hide ApplyCopy;
  }

  lemma UnjournaledPush(w: World, ds: seq<Directive>, t0: Tree, p: string, n: nat)
    requires 0 < n <= |ds|
    ensures Unjournaled(w, ds, t0, p, n) <==>
            Unjournaled(w, ds, t0, p, n - 1) || !CopyJournaled(w, n - 1, ds[n - 1], Run(w, ds, t0, n - 1), p)
  {
    hide CopyJournaled, Run;
  }

  lemma {:induction false} CopyRun(w: World, ds: seq<Directive>, t0: Tree, p: string, n: nat)
    requires n <= |ds| && OnlyCopied(w, ds, t0, p)
    ensures CopyInv(w, ds, t0, p, n)
  {
    hide Step, Quiet, EditsText, EditsArray, CopiesTo, Unjournaled, Target, Run;
    if n == 0 {
      RunStarts(w, ds, t0);
      NoneUnjournaled(w, ds, t0, p);
    } else {
      var s, d := Run(w, ds, t0, n - 1), ds[n - 1];
      CopyRun(w, ds, t0, p, n - 1);
      RunUnfolds(w, ds, t0, n);
      UnjournaledPush(w, ds, t0, p, n);
      CopyStep(w, n - 1, d, s, p);
      var s' := Step(w, n - 1, d, s);
      forall k | 0 <= k < |s'.journal| && Target(s'.journal[k]) == Some(p) ensures s'.journal[k] == Wrote(p) {
        WroteTarget(s'.journal[k], p);
        if k < |s.journal| { assert s'.journal[k] == s.journal[k]; }
      }
      if Kept(p, s, s') && Wrote(p) !in s'.journal { StillUnwritten(p, s, s'); }
    }
  }

  lemma StillUnwritten(p: string, s: State, s': State)
    requires Kept(p, s, s') && Wrote(p) !in s'.journal
    ensures Wrote(p) !in s.journal
  {
  }

  lemma WroteTarget(e: Entry, p: string)
    ensures e.Wrote? && Target(e) == Some(p) ==> e == Wrote(p)
  {
  }

  lemma NoneUnjournaled(w: World, ds: seq<Directive>, t0: Tree, p: string)
    ensures !Unjournaled(w, ds, t0, p, 0)
  {
  }

  lemma {:induction false} UnwoundAbsent(w: World, tree: Tree, journal: seq<Entry>, p: string)
    requires forall k | 0 <= k < |journal| :: Target(journal[k]) == Some(p) ==> journal[k] == Wrote(p)
    requires Wrote(p) in journal || p !in tree
    ensures p !in Unwound(w, tree, journal)
    decreases |journal|
  {
    hide UndoEntry, Target;
    if journal != [] {
      var n := |journal| - 1;
      var e := journal[n];
      if e == Wrote(p) {
        UndoWrote(w, tree, p);
      } else {
        assert Wrote(p) in journal ==> Wrote(p) in journal[..n];
        UndoElsewhere(w, e, tree, p);
      }
      UnwoundAbsent(w, UndoEntry(w, e, tree), journal[..n], p);
    }
  }

  lemma {:induction false} UnwoundKeeps(w: World, tree: Tree, journal: seq<Entry>, p: string)
    requires forall k | 0 <= k < |journal| :: Target(journal[k]) != Some(p)
    ensures At(Unwound(w, tree, journal), p) == At(tree, p)
    decreases |journal|
  {
    hide UndoEntry, Target, At;
    if journal != [] {
      var n := |journal| - 1;
      UndoElsewhere(w, journal[n], tree, p);
      UnwoundKeeps(w, UndoEntry(w, journal[n], tree), journal[..n], p);
    }
  }

  /**
   * The removal takes a copied file away again exactly when every copy that changed it was
   * journaled, or some copy of it was; a copy that stopped half way is the one case left.
   */
  lemma CopyUndoesIff(w: World, ds: seq<Directive>, t0: Tree, p: string)
    requires OnlyCopied(w, ds, t0, p)
    ensures var end := Run(w, ds, t0, |ds|);
      var undone := Remove(w, end.tree, end.journal);
      undone.finished ==> (p !in undone.tree <==> Wrote(p) in end.journal || !Unjournaled(w, ds, t0, p, |ds|))
  {
    hide Run, Remove, OnlyCopied, Unjournaled, Target, Unwound;
    var end := Run(w, ds, t0, |ds|);
    CopyRun(w, ds, t0, p, |ds|);
    if Remove(w, end.tree, end.journal).finished {
      FinishedIsUnwound(w, end.tree, end.journal);
      if Wrote(p) in end.journal || p !in end.tree {
        UnwoundAbsent(w, end.tree, end.journal, p);
      } else {
        UnwoundKeeps(w, end.tree, end.journal, p);
      }
    }
  }
}
