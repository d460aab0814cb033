/** A second install run on what the first one left: the local directives are skipped and write nothing. */
module SecondRun {
  import opened Text
  import opened Directives
  import opened Vars
  import opened Engine
  import opened EngineOutcomes
  import opened Effects

  // ---------------------------------------------------------------------------
  // Premises
  // ---------------------------------------------------------------------------

  /** A directive that only edits the project tree, from the skill's own files. */
  predicate Local(d: Directive) {
    (d.kind == "copy" && OrEmpty(d, "from-branch") == "") || d.kind == "append" || d.kind == "env-set" || d.kind == "json-merge"
  }

  /** The written line is one the reader of `.env` takes as setting the key the entry names. */
  predicate EnvSticks(entry: string, vars: Bindings) {
    var line := EnvKey(entry) + "=" + Filled(EnvTemplate(entry), vars);
    EnvName(entry) == EnvKey(entry) && '\n' !in line && SetsKey(line, EnvKey(entry))
  }

  predicate Repeatable(w: World, d: Directive, vars: Bindings) {
    && (d.kind == "append" ==> d.body != [])
    && (d.kind == "env-set" ==> forall k | 0 <= k < |d.body| :: EnvSticks(d.body[k], vars))
    && (d.kind == "json-merge" ==> "into" in d.attrs && "key" in d.attrs && ScalarBody(w, d))
  }

  /** The body is an object whose key holds a scalar, or does not parse. */
  predicate ScalarBody(w: World, d: Directive) {
    match w.parse(JoinLines(d.body))
    case None => true
    case Some(obj) => ElementHas(obj, Printed(d, "key"), Field(obj, Printed(d, "key")))
  }

  /** Directives of different kinds write different files. */
  ghost predicate Apart(a: Directive, b: Directive) {
    forall p ::
      && !(CopiesTo(a, p) && (EditsText(b, p) || EditsArray(b, p)))
      && !(EditsText(a, p) && (CopiesTo(b, p) || EditsArray(b, p)))
      && !(EditsArray(a, p) && (CopiesTo(b, p) || EditsText(b, p)))
  }

  /** Commands leave the files of `d` alone. */
  ghost predicate QuietFor(w: World, d: Directive) { forall p :: Touches(d, p) ==> Quiet(w, p) }

  /** JSON reads and prints the same way in both runs. */
  ghost predicate SameJson(a: World, b: World) {
    (forall text :: a.parse(text) == b.parse(text)) && (forall items :: a.render(items) == b.render(items))
  }

  // ---------------------------------------------------------------------------
  // Present: what the self-check looks for
  // ---------------------------------------------------------------------------

  predicate Present(w: World, d: Directive, tree: Tree) {
    if d.kind == "copy" then forall k | 0 <= k < |d.body| :: Has(tree, DestOf(d.body[k]))
    else if d.kind == "append" then
      OrEmpty(d, "to") != "" && FileHasLine(w, tree, OrEmpty(d, "to"), if d.body == [] then "" else d.body[0])
    else if d.kind == "env-set" then forall k | 0 <= k < |d.body| :: EnvKeySet(w, tree, EnvName(d.body[k]))
    else
      match w.parse(JoinLines(d.body))
      case None => false
      case Some(obj) => !obj.Null? && ArrayHas(w, tree, OrEmpty(d, "into"), OrEmpty(d, "key"), Field(obj, OrEmpty(d, "key")))
  }

  lemma PresentIsSkipped(w: World, d: Directive, s: State)
    requires Local(d) && w.mode == Install
    ensures SelfStatus(w, d, s) == ToSkip <==> Present(w, d, s.tree)
  {
    hide FileHasLine, EnvKeySet, ArrayHas, Has, DestOf, EnvName, JoinLines;
  }

  lemma PresentTransfers(a: World, b: World, d: Directive, tree: Tree)
    requires SameJson(a, b) && Present(a, d, tree)
    ensures Present(b, d, tree)
  {
    hide Has, DestOf, EnvName, JoinLines, FindElement, SetsKey, Trim;
    assert forall p :: ReadLines(a, tree, p) == ReadLines(b, tree, p);
    assert forall p :: ReadArray(a, tree, p) == ReadArray(b, tree, p);
  }

  // ---------------------------------------------------------------------------
  // Files only grow
  // ---------------------------------------------------------------------------

  predicate KeyGrows(p: string, a: Tree, b: Tree) { p in a ==> p in b }

  /** Every line is still there. */
  predicate TextGrows(w: World, p: string, a: Tree, b: Tree) {
    forall k | 0 <= k < |ReadLines(w, a, p)| :: ReadLines(w, a, p)[k] in ReadLines(w, b, p)
  }

  /** The array is still there, with more elements at its end at most. */
  predicate ArrayGrows(w: World, p: string, a: Tree, b: Tree) {
    ReadArray(w, a, p).Some? ==> ReadArray(w, b, p).Some? && ReadArray(w, a, p).value <= ReadArray(w, b, p).value
  }

  lemma TextGrowsTwice(w: World, p: string, a: Tree, b: Tree, c: Tree)
    requires TextGrows(w, p, a, b) && TextGrows(w, p, b, c)
    ensures TextGrows(w, p, a, c)
  {
    hide ReadLines;
    forall k | 0 <= k < |ReadLines(w, a, p)| ensures ReadLines(w, a, p)[k] in ReadLines(w, c, p) {
      var j :| 0 <= j < |ReadLines(w, b, p)| && ReadLines(w, b, p)[j] == ReadLines(w, a, p)[k];
      assert ReadLines(w, b, p)[j] in ReadLines(w, c, p);
    }
  }

  lemma SameAtGrows(w: World, p: string, a: Tree, b: Tree)
    requires At(a, p) == At(b, p)
    ensures KeyGrows(p, a, b) && TextGrows(w, p, a, b) && ArrayGrows(w, p, a, b)
  {
    SameAtReads(w, a, b, p);
    hide ReadLines, ReadArray;
  }

  lemma {:induction false} FoundStays(items: seq<Json>, more: seq<Json>, key: string, value: Option<Json>)
    requires FindElement(items, key, value) < |items|
    ensures FindElement(items + more, key, value) == FindElement(items, key, value)
  {
    hide ElementHas;
    assert (items + more)[1..] == items[1..] + more;
    if !ElementHas(items[0], key, value) { FoundStays(items[1..], more, key, value); }
  }

  lemma ArrayHasGrows(w: World, p: string, key: string, value: Option<Json>, a: Tree, b: Tree)
    requires ArrayGrows(w, p, a, b) && ArrayHas(w, a, p, key, value)
    ensures ArrayHas(w, b, p, key, value)
  {
    hide ReadArray, FindElement;
    var items, all := ReadArray(w, a, p).value, ReadArray(w, b, p).value;
    assert all == items + all[|items|..];
    FoundStays(items, all[|items|..], key, value);
  }

  lemma LineStays(w: World, p: string, line: string, a: Tree, b: Tree)
    requires TextGrows(w, p, a, b) && FileHasLine(w, a, p, line)
    ensures FileHasLine(w, b, p, line)
  {
    hide ReadLines, Trim;
    var k :| 0 <= k < |ReadLines(w, a, p)| && Trim(ReadLines(w, a, p)[k]) == Trim(line);
    var j :| 0 <= j < |ReadLines(w, b, p)| && ReadLines(w, b, p)[j] == ReadLines(w, a, p)[k];
  }

  lemma KeyStays(w: World, key: string, a: Tree, b: Tree)
    requires TextGrows(w, ".env", a, b) && EnvKeySet(w, a, key)
    ensures EnvKeySet(w, b, key)
  {
    hide ReadLines, SetsKey;
    var k :| 0 <= k < |ReadLines(w, a, ".env")| && SetsKey(ReadLines(w, a, ".env")[k], key);
    var j :| 0 <= j < |ReadLines(w, b, ".env")| && ReadLines(w, b, ".env")[j] == ReadLines(w, a, ".env")[k];
  }

  /** The files of `d` grew from `a` to `b`. */
  ghost predicate Grown(w: World, d: Directive, a: Tree, b: Tree) {
    forall p ::
      && (CopiesTo(d, p) ==> KeyGrows(p, a, b))
      && (EditsText(d, p) ==> TextGrows(w, p, a, b))
      && (EditsArray(d, p) ==> ArrayGrows(w, p, a, b))
  }

  lemma AppendPath(d: Directive)
    requires d.kind == "append" && OrEmpty(d, "to") != ""
    ensures EditsText(d, OrEmpty(d, "to"))
  {
  }

  lemma MergePath(d: Directive)
    requires d.kind == "json-merge" && "into" in d.attrs
    ensures EditsArray(d, OrEmpty(d, "into"))
  {
  }

  lemma PresentStays(w: World, d: Directive, a: Tree, b: Tree)
    requires Local(d) && (d.kind == "json-merge" ==> "into" in d.attrs)
    requires Present(w, d, a) && Grown(w, d, a, b)
    ensures Present(w, d, b)
  {
    hide FileHasLine, EnvKeySet, ArrayHas, TextGrows, ArrayGrows, EnvName, DestOf, JoinLines, EditsText, EditsArray, OrEmpty;
    if d.kind == "copy" {
      forall k | 0 <= k < |d.body| ensures Has(b, DestOf(d.body[k])) {
        assert CopiesTo(d, DestOf(d.body[k]));
        assert Has(a, DestOf(d.body[k]));
      }
    } else if d.kind == "append" {
      AppendPath(d);
      LineStays(w, OrEmpty(d, "to"), if d.body == [] then "" else d.body[0], a, b);
    } else if d.kind == "env-set" {
      EnvPath(d);
      forall k | 0 <= k < |d.body| ensures EnvKeySet(w, b, EnvName(d.body[k])) { KeyStays(w, EnvName(d.body[k]), a, b); }
    } else {
      MergePath(d);
      var obj := w.parse(JoinLines(d.body)).value;
      ArrayHasGrows(w, OrEmpty(d, "into"), OrEmpty(d, "key"), Field(obj, OrEmpty(d, "key")), a, b);
    }
  }

  lemma EnvPath(d: Directive)
    requires d.kind == "env-set"
    ensures EditsText(d, ".env")
  {
  }

  // ---------------------------------------------------------------------------
  // Work of any directive only grows the files of an apart one
  // ---------------------------------------------------------------------------

  lemma WriteGrowsKey(w: World, path: string, file: File, s: State, p: string)
    ensures KeyGrows(p, s.tree, Write(w, path, file, s).s.tree)
  {
  }

  lemma LineGrowsKey(w: World, i: nat, op: LineOp, l: string, s: State, p: string)
    requires Quiet(w, p)
    ensures KeyGrows(p, s.tree, DoLine(w, i, op, l, s).s.tree)
  {
    hide Quiet, DoLine, KeyGrows, Kept;
    match op
    case Check => LineKeeps(w, i, op, l, s, p); KeptSameAt(p, s, DoLine(w, i, op, l, s).s);
    case RunCommand(_, _, _) => LineKeeps(w, i, op, l, s, p); KeptSameAt(p, s, DoLine(w, i, op, l, s).s);
    case CopyBranch(branch) => GitShowKeepsKey(w, i, branch, l, s, p);
    case _ => WritingLineGrowsKey(w, i, op, l, s, p);
  }

  lemma WritingLineGrowsKey(w: World, i: nat, op: LineOp, l: string, s: State, p: string)
    requires !op.Check? && !op.RunCommand? && !op.CopyBranch?
    ensures KeyGrows(p, s.tree, DoLine(w, i, op, l, s).s.tree)
  {
    hide EnvKeySet, SplitLines, ReadLines, Substitute, WithLine, WithLines, MarkerAt, Indent, EnvKey, EnvTemplate, SourceOf,
         DestOf, Write;
    match op
    case CopyLocal =>
      if w.source(SourceOf(l)).Some? { WriteGrowsKey(w, DestOf(l), w.source(SourceOf(l)).value, s, p); }
    case AppendTo(path) => WriteGrowsKey(w, path, Lines(WithLine(ReadLines(w, s.tree, path), l)), s, p);
    case InsertAt(path, marker) =>
      var lines := ReadLines(w, s.tree, path);
      var at := MarkerAt(lines, "<<< " + marker);
      if at < |lines| { WriteGrowsKey(w, path, Lines(lines[..at] + [Indent(lines[at]) + l] + lines[at..]), s, p); }
    case SetEnv =>
      var text := SplitLines(EnvKey(l) + "=" + Filled(EnvTemplate(l), s.vars));
      WriteGrowsKey(w, ".env", Lines(WithLines(ReadLines(w, s.tree, ".env"), text)), s, p);
  }

  lemma GitShowKeepsKey(w: World, i: nat, branch: string, l: string, s: State, p: string)
    requires Quiet(w, p)
    ensures KeyGrows(p, s.tree, DoLine(w, i, CopyBranch(branch), l, s).s.tree)
  {
    hide SourceOf, DestOf;
    var cmd := GitShow(branch, SourceOf(l), DestOf(l));
    assert p !in w.exec(s.tick + 1, cmd).removes;
  }

  lemma {:induction false} EachGrowsKey(w: World, i: nat, op: LineOp, body: seq<string>, s: State, p: string)
    requires Quiet(w, p)
    ensures KeyGrows(p, s.tree, Each(w, i, op, body, s).s.tree)
  {
    hide DoLine, Quiet;
    if body != [] {
      LineGrowsKey(w, i, op, body[0], s, p);
      var r := DoLine(w, i, op, body[0], s);
      if r.error.None? { EachGrowsKey(w, i, op, body[1..], r.s, p); }
    }
  }

  lemma CopyGrowsKey(w: World, i: nat, d: Directive, s: State, p: string)
    requires Quiet(w, p)
    ensures KeyGrows(p, s.tree, ApplyCopy(w, i, d, s).s.tree)
  {
    hide Each, Quiet, Exec, Kept, WroteAll;
    var branch := OrEmpty(d, "from-branch");
    ExecKeeps(w, i, GitFetch(branch), s, p);
    KeptSameAt(p, s, Exec(w, i, GitFetch(branch), s).s);
    var fetched := if branch == "" then Done(s, None) else Exec(w, i, GitFetch(branch), s);
    EachGrowsKey(w, i, if branch == "" then CopyLocal else CopyBranch(branch), d.body, fetched.s, p);
  }

  lemma KeptSameAt(p: string, s: State, s': State)
    requires Kept(p, s, s')
    ensures At(s'.tree, p) == At(s.tree, p) && KeyGrows(p, s.tree, s'.tree)
  {
  }

  lemma TextLineGrows(w: World, i: nat, op: LineOp, l: string, s: State, p: string)
    requires Quiet(w, p) && (op.AppendTo? || op.InsertAt? || op.SetEnv?)
    ensures TextGrows(w, p, s.tree, DoLine(w, i, op, l, s).s.tree)
  {
    hide Quiet, Kept, EnvKeySet, SplitLines, Substitute, ReadLines, DoLine, TextGrows;
    var s' := DoLine(w, i, op, l, s).s;
    if Edits(op, l) != Some(p) {
      LineKeeps(w, i, op, l, s, p);
      KeptSameAt(p, s, s');
      SameAtGrows(w, p, s.tree, s'.tree);
    } else {
      EditedLineGrows(w, i, op, l, s, p);
    }
  }

  lemma RewriteGrows(w: World, p: string, s: State, lines: seq<string>)
    requires lines != [] && forall k | 0 <= k < |ReadLines(w, s.tree, p)| :: ReadLines(w, s.tree, p)[k] in lines
    ensures TextGrows(w, p, s.tree, Write(w, p, Lines(lines), s).s.tree)
  {
    SameAtGrows(w, p, s.tree, s.tree);
  }

  lemma EndingKeepsLines(lines: seq<string>, more: seq<string>)
    requires lines != []
    ensures forall k | 0 <= k < |lines| :: lines[k] in WithLines(lines, more)
    ensures |more| == 1 ==> WithLine(lines, more[0]) == WithLines(lines, more)
    ensures forall k | 0 <= k < |more| :: more[k] in WithLines(lines, more)
  {
    var head := if lines[|lines| - 1] == "" then lines[..|lines| - 1] else lines;
    var all := head + more + [""];
    assert all[|all| - 1] == "";
    forall k | 0 <= k < |lines| ensures lines[k] in all { if k < |head| { assert all[k] == lines[k]; } }
    forall k | 0 <= k < |more| ensures more[k] in all { assert all[|head| + k] == more[k]; }
  }

  lemma InsertKeepsLines(lines: seq<string>, at: nat, x: string)
    requires at <= |lines|
    ensures var all := lines[..at] + [x] + lines[at..];
            (forall k | 0 <= k < |lines| :: lines[k] in all) && x in all
  {
    var all := lines[..at] + [x] + lines[at..];
    assert all[at] == x;
    forall k | 0 <= k < |lines| ensures lines[k] in all { assert all[if k < at then k else k + 1] == lines[k]; }
  }

  lemma EditedLineGrows(w: World, i: nat, op: LineOp, l: string, s: State, p: string)
    requires (op.AppendTo? || op.InsertAt? || op.SetEnv?) && Edits(op, l) == Some(p)
    ensures TextGrows(w, p, s.tree, DoLine(w, i, op, l, s).s.tree)
  {
    hide EnvKeySet, SplitLines, Substitute, ReadLines, TextGrows, WithLine, WithLines, Indent, Write;
    SameAtGrows(w, p, s.tree, s.tree);
    var lines := ReadLines(w, s.tree, p);
    match op
    case AppendTo(_) =>
      EndingKeepsLines(lines, [l]);
      RewriteGrows(w, p, s, WithLine(lines, l));
    case InsertAt(_, marker) =>
      var at := MarkerAt(lines, "<<< " + marker);
      if at < |lines| {
        InsertKeepsLines(lines, at, Indent(lines[at]) + l);
        RewriteGrows(w, p, s, lines[..at] + [Indent(lines[at]) + l] + lines[at..]);
      }
    case SetEnv =>
      var text := SplitLines(EnvKey(l) + "=" + Filled(EnvTemplate(l), s.vars));
      EndingKeepsLines(lines, text);
      RewriteGrows(w, p, s, WithLines(lines, text));
  }

  lemma {:induction false} EachTextGrows(w: World, i: nat, op: LineOp, body: seq<string>, s: State, p: string)
    requires Quiet(w, p) && (op.AppendTo? || op.InsertAt? || op.SetEnv?)
    ensures TextGrows(w, p, s.tree, Each(w, i, op, body, s).s.tree)
  {
    hide DoLine, Quiet, TextGrows;
    SameAtGrows(w, p, s.tree, s.tree);
    if body != [] {
      var r := DoLine(w, i, op, body[0], s);
      TextLineGrows(w, i, op, body[0], s, p);
      if r.error.None? {
        EachTextGrows(w, i, op, body[1..], r.s, p);
        TextGrowsTwice(w, p, s.tree, r.s.tree, Each(w, i, op, body[1..], r.s).s.tree);
      }
    }
  }

  lemma MergeGrows(w: World, d: Directive, s: State, p: string)
    requires w.mode == Install && EditsArray(d, p)
    ensures ArrayGrows(w, p, s.tree, ApplyMerge(w, d, s).s.tree)
  {
    hide JoinLines, FindElement;
    SameAtGrows(w, p, s.tree, s.tree);
  }

  lemma AppendOpIsText(d: Directive)
    ensures AppendOp(d).AppendTo? || AppendOp(d).InsertAt?
  {
  }

  lemma ApplyGrows(w: World, i: nat, d: Directive, e: Directive, s: State, p: string)
    requires w.mode == Install && Quiet(w, p) && Apart(d, e) && Touches(d, p)
    ensures var t := ApplyOne(w, i, e, s).s.tree;
            && (CopiesTo(d, p) ==> KeyGrows(p, s.tree, t))
            && (EditsText(d, p) ==> TextGrows(w, p, s.tree, t))
            && (EditsArray(d, p) ==> ArrayGrows(w, p, s.tree, t))
  {
    hide Quiet, Each, ApplyCopy, ApplyStream, ApplyDep, ApplyMerge, AppendOp, Kept, KeyGrows, TextGrows, ArrayGrows, CopiesTo;
    var s' := ApplyOne(w, i, e, s).s;
    if !Touches(e, p) {
      ApplyOneKeeps(w, i, e, s, p);
      KeptSameAt(p, s, s');
      SameAtGrows(w, p, s.tree, s'.tree);
    } else {
      ApartTouch(d, e, p);
      if CopiesTo(e, p) {
        CopyKind(e, p);
        CopyGrowsKey(w, i, e, s, p);
      } else if EditsText(e, p) {
        AppendOpIsText(e);
        EachTextGrows(w, i, if e.kind == "append" then AppendOp(e) else SetEnv, e.body, s, p);
      } else {
        MergeGrows(w, e, s, p);
      }
    }
  }

  lemma CopyKind(d: Directive, p: string)
    requires CopiesTo(d, p)
    ensures d.kind == "copy"
  {
  }

  /** Two apart directives that name the same path use it the same way. */
  lemma ApartTouch(d: Directive, e: Directive, p: string)
    requires Apart(d, e) && Touches(d, p) && Touches(e, p)
    ensures CopiesTo(d, p) == CopiesTo(e, p) && EditsText(d, p) == EditsText(e, p) && EditsArray(d, p) == EditsArray(e, p)
    ensures CopiesTo(d, p) ==> !EditsText(d, p) && !EditsArray(d, p)
    ensures EditsText(d, p) ==> !EditsArray(d, p)
  {
    KindsExclude(d, p);
    KindsExclude(e, p);
    hide CopiesTo, EditsText, EditsArray;
  }

  lemma KindsExclude(d: Directive, p: string)
    ensures CopiesTo(d, p) ==> !EditsText(d, p) && !EditsArray(d, p)
    ensures EditsText(d, p) ==> !EditsArray(d, p)
  {
  }

  lemma StepGrows(w: World, i: nat, d: Directive, e: Directive, s: State)
    requires w.mode == Install && QuietFor(w, d) && Apart(d, e)
    ensures Grown(w, d, s.tree, Step(w, i, e, s).tree)
  {
    hide Step, ApplyOne, Quiet, KeyGrows, TextGrows, ArrayGrows, CopiesTo, EditsText, EditsArray, Started, Apart;
    StepIsApply(w, i, e, s);
    var s1 := Started(w, i, e, s);
    var t := Step(w, i, e, s).tree;
    forall p
      ensures CopiesTo(d, p) ==> KeyGrows(p, s.tree, t)
      ensures EditsText(d, p) ==> TextGrows(w, p, s.tree, t)
      ensures EditsArray(d, p) ==> ArrayGrows(w, p, s.tree, t)
    {
      if t == s.tree {
        SameAtGrows(w, p, s.tree, t);
      } else if Touches(d, p) {
        ApplyGrows(w, i, d, e, s1, p);
      }
    }
  }

  // ---------------------------------------------------------------------------
  // A finished directive is present
  // ---------------------------------------------------------------------------

  lemma CopiedLine(w: World, i: nat, l: string, s: State)
    requires DoLine(w, i, CopyLocal, l, s).error.None?
    ensures Has(DoLine(w, i, CopyLocal, l, s).s.tree, DestOf(l))
  {
    hide SourceOf, DestOf;
  }

  lemma {:induction false} EachCopied(w: World, i: nat, body: seq<string>, s: State)
    requires Each(w, i, CopyLocal, body, s).error.None?
    requires forall k | 0 <= k < |body| :: Quiet(w, DestOf(body[k]))
    ensures forall k | 0 <= k < |body| :: Has(Each(w, i, CopyLocal, body, s).s.tree, DestOf(body[k]))
  {
    hide DoLine, Quiet, DestOf, SourceOf;
    if body != [] {
      var r := DoLine(w, i, CopyLocal, body[0], s);
      CopiedLine(w, i, body[0], s);
      assert Quiet(w, DestOf(body[0]));
      EachGrowsKey(w, i, CopyLocal, body[1..], r.s, DestOf(body[0]));
      EachCopied(w, i, body[1..], r.s);
    }
  }

  lemma WrittenLine(w: World, p: string, s: State, lines: seq<string>, line: string, k: nat)
    requires k < |lines| && Trim(lines[k]) == Trim(line) && Write(w, p, Lines(lines), s).error.None?
    ensures FileHasLine(w, Write(w, p, Lines(lines), s).s.tree, p, line)
  {
    hide Trim;
    var t := Write(w, p, Lines(lines), s).s.tree;
    assert ReadLines(w, t, p)[k] == lines[k];
  }

  lemma WithLineIndex(lines: seq<string>, l: string) returns (k: nat)
    requires lines != []
    ensures k < |WithLine(lines, l)| && WithLine(lines, l)[k] == l
  {
    k := if lines[|lines| - 1] == "" then |lines| - 1 else |lines|;
  }

  lemma AppendedLine(w: World, i: nat, op: LineOp, p: string, l: string, s: State)
    requires op.AppendTo? || op.InsertAt?
    requires Edits(op, l) == Some(p) && DoLine(w, i, op, l, s).error.None?
    ensures FileHasLine(w, DoLine(w, i, op, l, s).s.tree, p, l)
  {
    hide ReadLines, TrimStart, TrimEnd, WithLine, Write, FileHasLine, Contains;
    var lines := ReadLines(w, s.tree, p);
    match op
    case AppendTo(_) =>
      var k := WithLineIndex(lines, l);
      WrittenLine(w, p, s, WithLine(lines, l), l, k);
    case InsertAt(_, marker) =>
      var at := MarkerAt(lines, "<<< " + marker);
      TrimStartSkips(Indent(lines[at]), l);
      WrittenLine(w, p, s, lines[..at] + [Indent(lines[at]) + l] + lines[at..], l, at);
  }

  lemma SetLine(w: World, i: nat, l: string, s: State)
    requires DoLine(w, i, SetEnv, l, s).error.None? && EnvSticks(l, s.vars)
    ensures EnvKeySet(w, DoLine(w, i, SetEnv, l, s).s.tree, EnvName(l))
    ensures DoLine(w, i, SetEnv, l, s).s.vars == s.vars
  {
    hide ReadLines, SetsKey, Substitute, EnvKey, EnvName, EnvTemplate, WithLines, SplitLines, EnvKeySet;
    var line := EnvKey(l) + "=" + Filled(EnvTemplate(l), s.vars);
    SplitSingle(line);
    var lines := ReadLines(w, s.tree, ".env");
    EndingKeepsLines(lines, [line]);
    if !EnvKeySet(w, s.tree, EnvKey(l)) { WrittenKey(w, s, WithLines(lines, [line]), line, EnvKey(l)); }
  }

  lemma WrittenKey(w: World, s: State, lines: seq<string>, line: string, key: string)
    requires line in lines && SetsKey(line, key) && Write(w, ".env", Lines(lines), s).error.None?
    ensures EnvKeySet(w, Write(w, ".env", Lines(lines), s).s.tree, key)
  {
    hide SetsKey;
    var t := Write(w, ".env", Lines(lines), s).s.tree;
    assert ReadLines(w, t, ".env") == lines;
    var k :| 0 <= k < |lines| && lines[k] == line;
    assert SetsKey(ReadLines(w, t, ".env")[k], key);
  }

  lemma {:induction false} EachSet(w: World, i: nat, body: seq<string>, s: State)
    requires Each(w, i, SetEnv, body, s).error.None? && Quiet(w, ".env")
    requires forall k | 0 <= k < |body| :: EnvSticks(body[k], s.vars)
    ensures forall k | 0 <= k < |body| :: EnvKeySet(w, Each(w, i, SetEnv, body, s).s.tree, EnvName(body[k]))
  {
    hide DoLine, Quiet, EnvSticks, EnvKeySet, EnvName, TextGrows;
    if body != [] {
      var r := DoLine(w, i, SetEnv, body[0], s);
      SetLine(w, i, body[0], s);
      EachTextGrows(w, i, SetEnv, body[1..], r.s, ".env");
      EachSet(w, i, body[1..], r.s);
      KeyStays(w, EnvName(body[0]), r.s.tree, Each(w, i, SetEnv, body, s).s.tree);
    }
  }

  lemma CopyApplied(w: World, i: nat, d: Directive, s: State)
    requires d.kind == "copy" && OrEmpty(d, "from-branch") == "" && QuietFor(w, d)
    requires ApplyCopy(w, i, d, s).error.None?
    ensures Present(w, d, ApplyCopy(w, i, d, s).s.tree)
  {
    hide Quiet, Each, DestOf, WroteAll;
    forall k | 0 <= k < |d.body| ensures Quiet(w, DestOf(d.body[k])) { assert CopiesTo(d, DestOf(d.body[k])); }
    EachCopied(w, i, d.body, s);
  }

  lemma AppendApplied(w: World, i: nat, d: Directive, s: State)
    requires d.kind == "append" && d.body != [] && OrEmpty(d, "to") != "" && QuietFor(w, d)
    requires Each(w, i, AppendOp(d), d.body, s).error.None?
    ensures Present(w, d, Each(w, i, AppendOp(d), d.body, s).s.tree)
  {
    hide Quiet, DoLine, FileHasLine, TextGrows;
    var p, op := OrEmpty(d, "to"), AppendOp(d);
    AppendPath(d);
    assert Touches(d, p);
    var r := DoLine(w, i, op, d.body[0], s);
    AppendedLine(w, i, op, p, d.body[0], s);
    EachTextGrows(w, i, op, d.body[1..], r.s, p);
    LineStays(w, p, d.body[0], r.s.tree, Each(w, i, op, d.body, s).s.tree);
  }

  lemma MergeApplied(w: World, d: Directive, s: State)
    requires w.mode == Install && d.kind == "json-merge" && "into" in d.attrs && "key" in d.attrs && ScalarBody(w, d)
    requires ApplyMerge(w, d, s).error.None?
    ensures Present(w, d, ApplyMerge(w, d, s).s.tree)
  {
    hide JoinLines, ElementHas;
    var obj := w.parse(JoinLines(d.body)).value;
    var items := ReadArray(w, s.tree, Printed(d, "into")).value;
    var key := Printed(d, "key");
    PushedFound(items, obj, key, Field(obj, key));
    ObjectIsNotNull(obj, key, Field(obj, key));
  }

  lemma ObjectIsNotNull(obj: Json, key: string, value: Option<Json>)
    requires ElementHas(obj, key, value)
    ensures !obj.Null?
  {
  }

  lemma {:induction false} PushedFound(items: seq<Json>, obj: Json, key: string, value: Option<Json>)
    requires ElementHas(obj, key, value)
    ensures FindElement(items + [obj], key, value) <= |items|
  {
    hide ElementHas;
    if items == [] {
      assert items + [obj] == [obj];
    } else {
      assert (items + [obj])[1..] == items[1..] + [obj];
      PushedFound(items[1..], obj, key, value);
    }
  }

  lemma AppliedIsPresent(w: World, i: nat, d: Directive, s: State)
    requires w.mode == Install && Local(d) && QuietFor(w, d) && Repeatable(w, d, s.vars)
    requires SelfStatus(w, d, s) == ToApply && ApplyOne(w, i, d, s).error.None?
    ensures Present(w, d, ApplyOne(w, i, d, s).s.tree)
  {
    hide Present, Quiet, Each, ApplyCopy, ApplyMerge, EnvSticks, ScalarBody, FileHasLine, ArrayHas, EnvKeySet, JoinLines, AppendOp;
    if d.kind == "copy" {
      CopyApplied(w, i, d, s);
    } else if d.kind == "append" {
      AppendApplied(w, i, d, s);
    } else if d.kind == "env-set" {
      EnvPath(d);
      EachSet(w, i, d.body, s);
      EnvPresent(w, d, Each(w, i, SetEnv, d.body, s).s.tree);
    } else {
      MergeApplied(w, d, s);
    }
  }

  lemma EnvPresent(w: World, d: Directive, tree: Tree)
    requires d.kind == "env-set" && forall k | 0 <= k < |d.body| :: EnvKeySet(w, tree, EnvName(d.body[k]))
    ensures Present(w, d, tree)
  {
    hide EnvKeySet, EnvName;
  }

  lemma LocalIsMutation(w: World, i: nat, d: Directive, s: State)
    requires Local(d) && w.mode == Install && GuardMet(d, s.vars)
    ensures Step(w, i, d, s) ==
      match SelfStatus(w, d, s)
      case ToAgent => Bounce(s, i, "no deterministic handler")
      case ToSkip => Skipped(s, i, AlreadyPresent)
      case Unreadable => Catch(w, i, None, Thrown(w.reason(s.tick, "."), false), s)
      case ToApply => DoStep(w, i, d, s)
  {
    hide SelfStatus, DoStep, Catch, GuardMet, DoPrompt, DoOperator;
  }

  lemma FullStepApplied(w: World, i: nat, d: Directive, s: State)
    requires FullyApplied(DoStep(w, i, d, s))
    ensures ApplyOne(w, i, d, Started(w, i, d, s)).error.None?
    ensures DoStep(w, i, d, s).tree == ApplyOne(w, i, d, Started(w, i, d, s)).s.tree
  {
    hide ApplyOne, Emit, Catch, FullyApplied;
    var caption := w.caption(d);
    var started := Emit(w, StepStart(i, caption), s);
    if started.error.Some? {
      CatchIsNotFull(w, i, None, started.error.value, started.s);
    } else {
      var r := ApplyOne(w, i, d, started.s);
      if r.error.Some? {
        CatchIsNotFull(w, i, Some(caption), r.error.value, r.s);
      } else {
        var ended := Emit(w, StepEnd(i, caption, true), r.s);
        EmitKeeps(w, StepEnd(i, caption, true), r.s);
        if ended.error.Some? { CatchIsNotFull(w, i, None, ended.error.value, ended.s); }
      }
    }
  }

  lemma StartedStatus(w: World, i: nat, d: Directive, s: State)
    requires Local(d) && w.mode == Install
    ensures (SelfStatus(w, d, Started(w, i, d, s)) == ToApply) == (SelfStatus(w, d, s) == ToApply)
    ensures Started(w, i, d, s).vars == s.vars && Started(w, i, d, s).tree == s.tree
  {
    hide FileHasLine, EnvKeySet, ArrayHas, Has, DestOf, EnvName, JoinLines, Emit;
    EmitKeeps(w, StepStart(i, w.caption(d)), s);
  }

  lemma BounceIsNotFull(s: State, i: nat, reason: string)
    ensures !FullyApplied(Bounce(s, i, reason))
  {
    assert (s.agentTasks + [Task(i, reason)]) != [];
  }

  /** After a step that was neither bounced nor deferred, a local directive is present. */
  lemma HandledIsPresent(w: World, i: nat, d: Directive, s: State)
    requires w.mode == Install && Local(d) && QuietFor(w, d) && Repeatable(w, d, s.vars)
    requires GuardMet(d, s.vars) && FullyApplied(Step(w, i, d, s))
    ensures Present(w, d, Step(w, i, d, s).tree)
  {
    hide Step, SelfStatus, DoStep, Catch, GuardMet, Present, QuietFor, Repeatable, Local, ApplyOne, Started;
    LocalIsMutation(w, i, d, s);
    match SelfStatus(w, d, s)
    case ToAgent => BounceIsNotFull(s, i, "no deterministic handler");
    case ToSkip => PresentIsSkipped(w, d, s);
    case Unreadable => CatchIsNotFull(w, i, None, Thrown(w.reason(s.tick, "."), false), s);
    case ToApply =>
      StartedStatus(w, i, d, s);
      FullStepApplied(w, i, d, s);
      AppliedIsPresent(w, i, d, Started(w, i, d, s));
  }

  // ---------------------------------------------------------------------------
  // The first run
  // ---------------------------------------------------------------------------

  lemma FullBefore(w: World, i: nat, d: Directive, s: State)
    requires FullyApplied(Step(w, i, d, s))
    ensures FullyApplied(s)
  {
    hide Step, EventsOf, CallsOf;
    StepKeepsShape(w, i, d, s);
  }

  ghost predicate Premises(w: World, ds: seq<Directive>) {
    && w.mode == Install
    && (forall i | 0 <= i < |ds| :: Local(ds[i]) ==> QuietFor(w, ds[i]))
    && (forall i, j | 0 <= i < |ds| && 0 <= j < |ds| :: Apart(ds[i], ds[j]))
  }

  /** A local directive whose guard was met is present from its turn on. */
  lemma {:induction false} FirstRun(w: World, ds: seq<Directive>, t0: Tree, i: nat, n: nat)
    requires i < n <= |ds| && Premises(w, ds) && Local(ds[i])
    requires FullyApplied(Run(w, ds, t0, n))
    requires GuardMet(ds[i], Run(w, ds, t0, i).vars) && Repeatable(w, ds[i], Run(w, ds, t0, i).vars)
    ensures Present(w, ds[i], Run(w, ds, t0, n).tree)
    decreases n
  {
    hide *;
    PremisesMean(w, ds, i, n - 1);
    RunUnfolds(w, ds, t0, n);
    var s := Run(w, ds, t0, n - 1);
    if i == n - 1 {
      HandledIsPresent(w, i, ds[i], s);
    } else {
      FullBefore(w, n - 1, ds[n - 1], s);
      FirstRun(w, ds, t0, i, n - 1);
      StepGrows(w, n - 1, ds[i], ds[n - 1], s);
      RepeatableMerge(w, ds[i], Run(w, ds, t0, i).vars);
      PresentStays(w, ds[i], s.tree, Run(w, ds, t0, n).tree);
    }
  }

  lemma PremisesMean(w: World, ds: seq<Directive>, i: nat, j: nat)
    requires Premises(w, ds) && i < |ds| && j < |ds| && Local(ds[i])
    ensures w.mode == Install && QuietFor(w, ds[i]) && Apart(ds[i], ds[j])
  {
    hide QuietFor, Apart, Local;
  }

  lemma RepeatableMerge(w: World, d: Directive, vars: Bindings)
    requires Repeatable(w, d, vars)
    ensures d.kind == "json-merge" ==> "into" in d.attrs
  {
  }

  // ---------------------------------------------------------------------------
  // The second run
  // ---------------------------------------------------------------------------

  lemma {:induction false} StaysPresent(w: World, ds: seq<Directive>, t: Tree, i: nat, n: nat)
    requires i < |ds| && n <= |ds| && Premises(w, ds) && Local(ds[i])
    requires ds[i].kind == "json-merge" ==> "into" in ds[i].attrs
    requires Present(w, ds[i], t)
    ensures Present(w, ds[i], Run(w, ds, t, n).tree)
  {
    hide *;
    if n == 0 {
      RunStarts(w, ds, t);
      InitialTree(t);
    } else {
      PremisesMean(w, ds, i, n - 1);
      StaysPresent(w, ds, t, i, n - 1);
      RunUnfolds(w, ds, t, n);
      StepGrows(w, n - 1, ds[i], ds[n - 1], Run(w, ds, t, n - 1));
      PresentStays(w, ds[i], Run(w, ds, t, n - 1).tree, Run(w, ds, t, n).tree);
    }
  }

  lemma InitialTree(t: Tree)
    ensures Initial(t).tree == t
  {
  }

  lemma SkipStep(w: World, i: nat, d: Directive, s: State)
    requires w.mode == Install && Local(d) && (GuardMet(d, s.vars) ==> Present(w, d, s.tree))
    ensures Step(w, i, d, s) == Skipped(s, i, if GuardMet(d, s.vars) then AlreadyPresent else GuardUnmet)
  {
    hide SelfStatus, Present, GuardMet, DoStep, Catch, Skipped, Local;
    if GuardMet(d, s.vars) {
      PresentIsSkipped(w, d, s);
      LocalIsMutation(w, i, d, s);
    } else {
      UnmetSkips(w, i, d, s);
    }
  }

  lemma UnmetSkips(w: World, i: nat, d: Directive, s: State)
    requires w.mode == Install && !GuardMet(d, s.vars)
    ensures Step(w, i, d, s) == Skipped(s, i, GuardUnmet)
  {
    hide GuardMet;
  }

  /**
   * A second install run, over what a fully applied one left, skips every local
   * directive: the state differs from the one before it by that skip alone.
   */
  lemma SecondRunSkips(first: World, second: World, ds: seq<Directive>, t0: Tree, i: nat)
    requires i < |ds| && Premises(first, ds) && Premises(second, ds) && SameJson(first, second) && Local(ds[i])
    requires FullyApplied(Run(first, ds, t0, |ds|))
    requires var vars := Run(first, ds, t0, i).vars; GuardMet(ds[i], vars) ==> Repeatable(first, ds[i], vars)
    requires var left := Run(first, ds, t0, |ds|).tree;
             GuardMet(ds[i], Run(second, ds, left, i).vars) ==> GuardMet(ds[i], Run(first, ds, t0, i).vars)
    ensures var left := Run(first, ds, t0, |ds|).tree;
            var s := Run(second, ds, left, i);
            Run(second, ds, left, i + 1) == Skipped(s, i, if GuardMet(ds[i], s.vars) then AlreadyPresent else GuardUnmet)
  {
    hide *;
    var left := Run(first, ds, t0, |ds|).tree;
    var s := Run(second, ds, left, i);
    if GuardMet(ds[i], s.vars) {
      FirstRun(first, ds, t0, i, |ds|);
      RepeatableMerge(first, ds[i], Run(first, ds, t0, i).vars);
      PresentTransfers(first, second, ds[i], left);
      StaysPresent(second, ds, left, i, i);
    }
    PremisesMean(second, ds, i, i);
    SkipStep(second, i, ds[i], s);
    RunUnfolds(second, ds, left, i + 1);
  }
}
