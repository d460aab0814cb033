/** Playing the journal of a run backwards gives the starting tree again. */
module Undo {
  import opened Text
  import opened Directives
  import opened Vars
  import opened Engine
  import opened EngineOutcomes
  import opened Effects
  import Parsed

  // ---------------------------------------------------------------------------
  // A path in a tree
  // ---------------------------------------------------------------------------

  function Unended(lines: seq<string>): seq<string> {
    if lines != [] && lines[|lines| - 1] == "" then lines[..|lines| - 1] else lines
  }

  /** The lines of a text, whether or not its last line is ended; none for an absent or empty file. */
  function Content(w: World, tree: Tree, p: string): seq<string> { Unended(ReadLines(w, tree, p)) }

  // ---------------------------------------------------------------------------
  // Premises, each about one path
  // ---------------------------------------------------------------------------

  /** No appended line or environment key of the skill occurs in `line`. */
  ghost predicate Harmless(ds: seq<Directive>, p: string, line: string) {
    forall i, k | 0 <= i < |ds| && 0 <= k < |ds[i].body| ::
      && (ds[i].kind == "append" && Printed(ds[i], "to") == p ==> Trim(line) != Trim(ds[i].body[k]))
      && (ds[i].kind == "env-set" && p == ".env" ==> !StartsWith(line, EnvKey(ds[i].body[k]) + "="))
  }

  /** The pushed object is one the removal finds: an object whose key holds a scalar. */
  predicate ScalarMerge(w: World, d: Directive) {
    match w.parse(JoinLines(d.body))
    case None => true
    case Some(obj) => ElementHas(obj, Printed(d, "key"), Field(obj, Printed(d, "key")))
  }

  /** Every line the entry appends to `.env` starts with its key. */
  predicate ValueUndoes(entry: string, vars: Bindings) {
    var key := EnvKey(entry);
    var text := SplitLines(key + "=" + Filled(EnvTemplate(entry), vars));
    forall k | 0 <= k < |text| :: StartsWith(text[k], key + "=")
  }

  ghost predicate EnvUndoes(d: Directive, p: string, vars: Bindings) {
    d.kind == "env-set" && p == ".env" ==> forall k | 0 <= k < |d.body| :: ValueUndoes(d.body[k], vars)
  }

  /** A copy that changed `p` was journaled: it did not stop half way. */
  ghost predicate CopyJournaled(w: World, i: nat, d: Directive, s: State, p: string) {
    CopiesTo(d, p) ==> At(Step(w, i, d, s).tree, p) == At(s.tree, p) || Step(w, i, d, s).journal != s.journal
  }

  ghost predicate PathUndoable(w: World, ds: seq<Directive>, t0: Tree, p: string) {
    && p != "" && Quiet(w, p)
    && (forall i | 0 <= i < |ds| :: CopiesTo(ds[i], p) ==> p !in t0)
    && (forall i, j | 0 <= i < |ds| && 0 <= j < |ds| :: !(EditsText(ds[i], p) && EditsArray(ds[j], p)))
    && (forall k | 0 <= k < |ReadLines(w, t0, p)| :: Harmless(ds, p, ReadLines(w, t0, p)[k]))
    && (forall i | 0 <= i < |ds| :: EditsArray(ds[i], p) ==> ScalarMerge(w, ds[i]))
  }

  /** A blank line would be taken away with an appended blank line. */
  ghost predicate Undoable(w: World, ds: seq<Directive>, t0: Tree, p: string) {
    PathUndoable(w, ds, t0, p) && Harmless(ds, p, "")
  }

  /** What the run itself must have done: no copy half done, no value that spills over its own line. */
  ghost predicate RunUndoable(w: World, ds: seq<Directive>, t0: Tree, p: string) {
    forall i | 0 <= i < |ds| ::
      CopyJournaled(w, i, ds[i], Run(w, ds, t0, i), p) && EnvUndoes(ds[i], p, Run(w, ds, t0, i).vars)
  }

  /** A parsed skill appends no blank line, so an empty line is always harmless. */
  lemma ParsedIsHarmless(markdown: string, p: string)
    ensures Harmless(Parse(markdown), p, "")
  {
    hide Parse, EnvKey, Printed, Trim;
    Parsed.ParsedIsOrdered(markdown);
    EmptyTrimmed();
    forall i, k | 0 <= i < |Parse(markdown)| && 0 <= k < |Parse(markdown)[i].body|
      ensures Trim(Parse(markdown)[i].body[k]) != ""
    {
      assert Parsed.FullLines(Parse(markdown)[i].body);
    }
  }

  lemma EmptyTrimmed()
    ensures Trim("") == ""
  {
  }

  // ---------------------------------------------------------------------------
  // The removal, and the journal unwound whatever its files hold
  // ---------------------------------------------------------------------------

  function Unwound(w: World, tree: Tree, journal: seq<Entry>): Tree
    decreases |journal|
  {
    if journal == [] then tree
    else Unwound(w, UndoEntry(w, journal[|journal| - 1], tree), journal[..|journal| - 1])
  }

  /** A removal that reaches its end has unwound the whole journal. */
  lemma {:induction false} FinishedIsUnwound(w: World, tree: Tree, journal: seq<Entry>)
    requires Remove(w, tree, journal).finished
    ensures Remove(w, tree, journal).tree == Unwound(w, tree, journal)
    decreases |journal|
  {
    hide UndoEntry, Stops;
    if journal != [] { FinishedIsUnwound(w, UndoEntry(w, journal[|journal| - 1], tree), journal[..|journal| - 1]); }
  }

  // ---------------------------------------------------------------------------
  // Filtering lines
  // ---------------------------------------------------------------------------

  lemma WithoutFirst(x: string, rest: seq<string>, e: Entry)
    ensures WithoutLine([x] + rest, e) == (if Kills(e, x) then [] else [x]) + WithoutLine(rest, e)
  {
    hide Kills;
    assert ([x] + rest)[1..] == rest;
  }

  lemma {:induction false} WithoutSplits(a: seq<string>, b: seq<string>, e: Entry)
    ensures WithoutLine(a + b, e) == WithoutLine(a, e) + WithoutLine(b, e)
  {
    hide *;
    if a == [] {
      WithoutNone(e);
      assert a + b == b;
    } else {
      assert a == [a[0]] + a[1..];
      Regroup([a[0]], a[1..], b);
      WithoutFirst(a[0], a[1..] + b, e);
      WithoutFirst(a[0], a[1..], e);
      WithoutSplits(a[1..], b, e);
      Regroup(if Kills(e, a[0]) then [] else [a[0]], WithoutLine(a[1..], e), WithoutLine(b, e));
    }
  }

  lemma WithoutNone(e: Entry)
    ensures WithoutLine([], e) == []
  {
  }

  lemma {:induction false} WithoutKilled(xs: seq<string>, e: Entry)
    requires forall k | 0 <= k < |xs| :: Kills(e, xs[k])
    ensures WithoutLine(xs, e) == []
  {
    if xs != [] { WithoutKilled(xs[1..], e); }
  }

  lemma {:induction false} WithoutHarmless(xs: seq<string>, e: Entry)
    requires forall k | 0 <= k < |xs| :: !Kills(e, xs[k])
    ensures WithoutLine(xs, e) == xs
  {
    if xs != [] { WithoutHarmless(xs[1..], e); }
  }

  lemma {:induction false} WithoutCommutes(xs: seq<string>, a: Entry, b: Entry)
    ensures WithoutLine(WithoutLine(xs, a), b) == WithoutLine(WithoutLine(xs, b), a)
  {
    if xs != [] {
      WithoutCommutes(xs[1..], a, b);
      WithoutSplits(if Kills(a, xs[0]) then [] else [xs[0]], WithoutLine(xs[1..], a), b);
      WithoutSplits(if Kills(b, xs[0]) then [] else [xs[0]], WithoutLine(xs[1..], b), a);
    }
  }

  /** A line list whose last line stays keeps its last line, and loses the same lines before a final newline. */
  lemma WithoutKeepsEnd(xs: seq<string>, e: Entry)
    requires xs != [] && !Kills(e, xs[|xs| - 1])
    ensures WithoutLine(xs, e) != [] && WithoutLine(xs, e)[|WithoutLine(xs, e)| - 1] == xs[|xs| - 1]
    ensures Unended(WithoutLine(xs, e)) == WithoutLine(Unended(xs), e)
  {
    var n := |xs| - 1;
    assert xs == xs[..n] + [xs[n]];
    WithoutSplits(xs[..n], [xs[n]], e);
    assert WithoutLine([xs[n]], e) == [xs[n]] + WithoutLine([], e) == [xs[n]];
  }

  /** The lines of `c` that survive every entry of the journal for `p`. */
  function Surviving(c: seq<string>, journal: seq<Entry>, p: string): seq<string>
    decreases |journal|
  {
    if journal == [] then c
    else
      var e := journal[|journal| - 1];
      Surviving(if Target(e) == Some(p) then WithoutLine(c, e) else c, journal[..|journal| - 1], p)
  }

  lemma {:induction false} SurvivingCommutes(c: seq<string>, journal: seq<Entry>, p: string, e: Entry)
    ensures Surviving(WithoutLine(c, e), journal, p) == WithoutLine(Surviving(c, journal, p), e)
    decreases |journal|
  {
    if journal != [] {
      var last := journal[|journal| - 1];
      WithoutCommutes(c, e, last);
      SurvivingCommutes(if Target(last) == Some(p) then WithoutLine(c, last) else c, journal[..|journal| - 1], p, e);
    }
  }

  lemma SurvivingPush(c: seq<string>, journal: seq<Entry>, p: string, e: Entry)
    ensures Surviving(c, journal + [e], p) ==
            Surviving(if Target(e) == Some(p) then WithoutLine(c, e) else c, journal, p)
  {
    assert (journal + [e])[..|journal|] == journal;
  }

  /** Lines put anywhere into a text, and killed by their own entry, do not survive. */
  lemma SurvivingEdit(a: seq<string>, added: seq<string>, b: seq<string>, journal: seq<Entry>, p: string, e: Entry, kept: seq<string>)
    requires Target(e) == Some(p) && Surviving(a + b, journal, p) == kept
    requires forall k | 0 <= k < |added| :: Kills(e, added[k])
    requires forall k | 0 <= k < |kept| :: !Kills(e, kept[k])
    ensures Surviving(a + added + b, journal + [e], p) == kept
  {
    hide WithoutLine, Surviving, Kills;
    SurvivingPush(a + added + b, journal, p, e);
    WithoutSplits(a + added, b, e);
    WithoutSplits(a, added, e);
    WithoutKilled(added, e);
    WithoutSplits(a, b, e);
    assert WithoutLine(a, e) + [] + WithoutLine(b, e) == WithoutLine(a, e) + WithoutLine(b, e);
    SurvivingCommutes(a + b, journal, p, e);
    WithoutHarmless(kept, e);
  }

  // ---------------------------------------------------------------------------
  // The journal at a text path
  // ---------------------------------------------------------------------------

  /** An entry a text path may have: it kills no harmless line. */
  ghost predicate TextEntry(ds: seq<Directive>, t0: Tree, p: string, e: Entry) {
    Target(e) == Some(p) ==>
      || (e.Wrote? && p !in t0)
      || ((e.Appended? || e.EnvSet?) && forall line :: Harmless(ds, p, line) ==> !Kills(e, line))
  }

  ghost predicate TextJournal(ds: seq<Directive>, t0: Tree, p: string, journal: seq<Entry>) {
    forall k | 0 <= k < |journal| :: TextEntry(ds, t0, p, journal[k])
  }

  lemma UndoElsewhere(w: World, e: Entry, tree: Tree, p: string)
    requires Target(e) != Some(p)
    ensures At(UndoEntry(w, e, tree), p) == At(tree, p)
  {
    hide ReadLines, ReadArray, WithoutLine, UndoMerge;
  }

  lemma LinesRead(w: World, tree: Tree, p: string, lines: seq<string>)
    requires lines != []
    ensures ReadLines(w, tree[p := Lines(lines)], p) == lines
  {
  }

  lemma UndoText(w: World, e: Entry, tree: Tree, p: string)
    requires Target(e) == Some(p) && (e.Appended? || e.EnvSet?)
    requires !Kills(e, ReadLines(w, tree, p)[|ReadLines(w, tree, p)| - 1])
    ensures ReadLines(w, UndoEntry(w, e, tree), p) == WithoutLine(ReadLines(w, tree, p), e)
    ensures Content(w, UndoEntry(w, e, tree), p) == WithoutLine(Content(w, tree, p), e)
  {
    hide ReadLines, Kills, WithoutLine, Unended;
    var lines := ReadLines(w, tree, p);
    WithoutKeepsEnd(lines, e);
    LinesRead(w, tree, p, WithoutLine(lines, e));
  }

  ghost predicate HarmlessEnd(w: World, ds: seq<Directive>, tree: Tree, p: string) {
    Harmless(ds, p, ReadLines(w, tree, p)[|ReadLines(w, tree, p)| - 1])
  }

  lemma {:induction false} RemoveText(w: World, ds: seq<Directive>, t0: Tree, p: string, tree: Tree, journal: seq<Entry>)
    requires TextJournal(ds, t0, p, journal) && Wrote(p) !in journal && HarmlessEnd(w, ds, tree, p)
    ensures Content(w, Unwound(w, tree, journal), p) == Surviving(Content(w, tree, p), journal, p)
    decreases |journal|
  {
    hide Harmless, ReadLines, Kills, WithoutLine, UndoEntry, Unended;
    if journal != [] {
      var e := journal[|journal| - 1];
      assert TextEntry(ds, t0, p, e) && e in journal;
      var tree' := UndoEntry(w, e, tree);
      if Target(e) == Some(p) {
        UndoText(w, e, tree, p);
        WithoutKeepsEnd(ReadLines(w, tree, p), e);
      } else {
        UndoElsewhere(w, e, tree, p);
        SameAtReads(w, tree', tree, p);
      }
      RemoveText(w, ds, t0, p, tree', journal[..|journal| - 1]);
    }
  }

  lemma EmptyContent(w: World, tree: Tree, p: string)
    ensures Content(w, tree, p) == [] <==> ReadLines(w, tree, p) == [""]
    ensures p !in tree ==> Content(w, tree, p) == []
  {
  }

  /** Once a copied file is removed, older entries leave nothing behind. */
  lemma {:induction false} RemoveWrittenText(w: World, ds: seq<Directive>, t0: Tree, p: string, tree: Tree, journal: seq<Entry>)
    requires TextJournal(ds, t0, p, journal) && Harmless(ds, p, "")
    requires Wrote(p) in journal || Content(w, tree, p) == []
    ensures Content(w, Unwound(w, tree, journal), p) == []
    decreases |journal|
  {
    hide Harmless, ReadLines, Kills, WithoutLine, UndoEntry, Content;
    if journal != [] {
      var n := |journal| - 1;
      var e := journal[n];
      assert TextEntry(ds, t0, p, e);
      var tree' := UndoEntry(w, e, tree);
      if e == Wrote(p) {
        UndoWrote(w, tree, p);
        EmptyContent(w, tree', p);
      } else {
        assert Wrote(p) in journal ==> Wrote(p) in journal[..n];
        if Content(w, tree, p) == [] { UndoOnEmpty(w, ds, t0, e, tree, p); }
      }
      RemoveWrittenText(w, ds, t0, p, tree', journal[..n]);
    }
  }

  lemma UndoWrote(w: World, tree: Tree, p: string)
    ensures p !in UndoEntry(w, Wrote(p), tree)
  {
  }

  lemma UndoOnEmpty(w: World, ds: seq<Directive>, t0: Tree, e: Entry, tree: Tree, p: string)
    requires TextEntry(ds, t0, p, e) && Harmless(ds, p, "") && Content(w, tree, p) == [] && e != Wrote(p)
    ensures Content(w, UndoEntry(w, e, tree), p) == []
  {
    hide Harmless, ReadLines, Kills, UndoEntry;
    EmptyContent(w, tree, p);
    if Target(e) == Some(p) {
      UndoText(w, e, tree, p);
    } else {
      UndoElsewhere(w, e, tree, p);
      SameAtReads(w, UndoEntry(w, e, tree), tree, p);
    }
  }

  // ---------------------------------------------------------------------------
  // A copy that finished is journaled
  // ---------------------------------------------------------------------------

  lemma {:induction false} CopyLinesKeepJournal(w: World, i: nat, op: LineOp, body: seq<string>, s: State)
    requires op.CopyLocal? || op.CopyBranch?
    ensures Each(w, i, op, body, s).s.journal == s.journal
  {
    hide SourceOf, DestOf;
    if body != [] {
      var r := DoLine(w, i, op, body[0], s);
      if r.error.None? { CopyLinesKeepJournal(w, i, op, body[1..], r.s); }
    }
  }

  lemma CopyJournal(w: World, i: nat, d: Directive, s: State)
    ensures ApplyCopy(w, i, d, s).s.journal ==
            s.journal + (if ApplyCopy(w, i, d, s).error.None? then WroteAll(d.body) else [])
  {
    hide Each, WroteAll;
    var branch := OrEmpty(d, "from-branch");
    var fetched := if branch == "" then Done(s, None) else Exec(w, i, GitFetch(branch), s);
    CopyLinesKeepJournal(w, i, if branch == "" then CopyLocal else CopyBranch(branch), d.body, fetched.s);
  }

  lemma CopyWrites(d: Directive, journal: seq<Entry>, p: string)
    requires CopiesTo(d, p)
    ensures Wrote(p) in journal + WroteAll(d.body) && WroteAll(d.body) != []
    ensures forall k | |journal| <= k < |journal + WroteAll(d.body)| :: (journal + WroteAll(d.body))[k].Wrote?
  {
    hide WroteAll, DestOf;
    WroteEntries(d.body);
    var k :| 0 <= k < |d.body| && DestOf(d.body[k]) == p;
    assert (journal + WroteAll(d.body))[|journal| + k] == Wrote(p);
  }

  // ---------------------------------------------------------------------------
  // A text path
  // ---------------------------------------------------------------------------

  /** Dropping what the journal added gives the starting text, or a copy made the whole file. */
  ghost predicate TextInv(w: World, ds: seq<Directive>, t0: Tree, p: string, s: State) {
    && TextJournal(ds, t0, p, s.journal)
    && (|| Wrote(p) in s.journal
        || (HarmlessEnd(w, ds, s.tree, p) && Surviving(Content(w, s.tree, p), s.journal, p) == Content(w, t0, p)))
  }

  lemma {:induction false} SurvivingElsewhere(c: seq<string>, journal: seq<Entry>, more: seq<Entry>, p: string)
    requires forall k | 0 <= k < |more| :: Target(more[k]) != Some(p)
    ensures Surviving(c, journal + more, p) == Surviving(c, journal, p)
    decreases |more|
  {
    hide WithoutLine, Target;
    if more == [] {
      assert journal + more == journal;
    } else {
      var n := |more| - 1;
      SurvivingElsewhere(c, journal, more[..n], p);
      assert (journal + more)[..|journal| + n] == journal + more[..n];
    }
  }

  lemma KeptText(w: World, ds: seq<Directive>, t0: Tree, p: string, s: State, s': State)
    requires Kept(p, s, s') && TextInv(w, ds, t0, p, s)
    ensures TextInv(w, ds, t0, p, s')
  {
    hide Surviving, Content, ReadLines, Harmless, Target, At;
    var more := s'.journal[|s.journal|..];
    assert s'.journal == s.journal + more;
    forall k | 0 <= k < |s'.journal| ensures TextEntry(ds, t0, p, s'.journal[k]) {
      if k < |s.journal| { assert s'.journal[k] == s.journal[k]; }
    }
    SurvivingElsewhere(Content(w, s.tree, p), s.journal, more, p);
    SameTextAt(w, s.tree, s'.tree, p);
  }

  lemma SameTextAt(w: World, a: Tree, b: Tree, p: string)
    requires At(a, p) == At(b, p)
    ensures ReadLines(w, a, p) == ReadLines(w, b, p) && Content(w, a, p) == Content(w, b, p)
  {
  }

  lemma UnendedWith(c: seq<string>)
    ensures Unended(c + [""]) == c
  {
  }

  lemma EndedText(w: World, tree: Tree, p: string, text: seq<string>)
    ensures ReadLines(w, tree[p := Lines(text + [""])], p) == text + [""]
    ensures Content(w, tree[p := Lines(text + [""])], p) == text
  {
    hide ReadLines, Unended;
    LinesRead(w, tree, p, text + [""]);
    UnendedWith(text);
  }

  /** Adding lines that the new entry kills. */
  lemma TextEdit(w: World, ds: seq<Directive>, t0: Tree, p: string, s: State, s': State,
                 a: seq<string>, added: seq<string>, b: seq<string>, e: Entry)
    requires TextInv(w, ds, t0, p, s) && Target(e) == Some(p) && TextEntry(ds, t0, p, e)
    requires s'.journal == s.journal + [e] && HarmlessEnd(w, ds, s'.tree, p)
    requires Content(w, s.tree, p) == a + b && Content(w, s'.tree, p) == a + added + b
    requires forall k | 0 <= k < |added| :: Kills(e, added[k])
    requires forall k | 0 <= k < |Content(w, t0, p)| :: !Kills(e, Content(w, t0, p)[k])
    ensures TextInv(w, ds, t0, p, s')
  {
    hide Surviving, Content, Harmless, HarmlessEnd, Kills, TextEntry;
    if Wrote(p) in s.journal {
      assert Wrote(p) in s'.journal;
    } else {
      SurvivingEdit(a, added, b, s.journal, p, e, Content(w, t0, p));
    }
  }

  lemma ContentIsRead(w: World, tree: Tree, p: string)
    ensures Content(w, tree, p) <= ReadLines(w, tree, p)
    ensures forall line | line in ReadLines(w, tree, p) :: line != "" ==> line in Content(w, tree, p)
  {
    hide ReadLines;
    var lines := ReadLines(w, tree, p);
    assert lines == lines[..|lines| - 1] + [lines[|lines| - 1]];
  }

  /** No entry the skill can make kills a line of the starting text. */
  lemma StartUnharmed(w: World, ds: seq<Directive>, t0: Tree, p: string, e: Entry)
    requires forall k | 0 <= k < |ReadLines(w, t0, p)| :: Harmless(ds, p, ReadLines(w, t0, p)[k])
    requires TextEntry(ds, t0, p, e) && Target(e) == Some(p)
    ensures forall k | 0 <= k < |Content(w, t0, p)| :: !Kills(e, Content(w, t0, p)[k])
  {
    hide ReadLines, Content, Harmless;
    ContentIsRead(w, t0, p);
    forall k | 0 <= k < |Content(w, t0, p)| ensures !Kills(e, Content(w, t0, p)[k]) {
      assert Content(w, t0, p)[k] == ReadLines(w, t0, p)[k];
      assert Harmless(ds, p, ReadLines(w, t0, p)[k]);
    }
  }

  lemma AppendedEntry(ds: seq<Directive>, t0: Tree, p: string, i: nat, k: nat)
    requires i < |ds| && k < |ds[i].body| && ds[i].kind == "append" && Printed(ds[i], "to") == p
    ensures TextEntry(ds, t0, p, Appended(p, ds[i].body[k]))
  {
    hide Printed, Trim;
  }

  lemma EnvEntry(ds: seq<Directive>, t0: Tree, i: nat, k: nat)
    requires i < |ds| && k < |ds[i].body| && ds[i].kind == "env-set"
    ensures TextEntry(ds, t0, ".env", EnvSet(EnvKey(ds[i].body[k])))
  {
    hide EnvKey, Printed, Trim;
  }

  lemma IndentTrims(line: string, l: string)
    ensures Trim(Indent(line) + l) == Trim(l)
  {
    hide TrimStart, TrimEnd;
    TrimStartSkips(Indent(line), l);
  }

  lemma ContainsNonEmpty(line: string, marker: string)
    requires Contains(line, "<<< " + marker)
    ensures line != ""
  {
  }

  lemma WithLinesIs(lines: seq<string>, more: seq<string>)
    requires lines != []
    ensures WithLines(lines, more) == Unended(lines) + more + [""]
  {
  }

  lemma WithLineIs(lines: seq<string>, line: string)
    requires lines != []
    ensures WithLine(lines, line) == Unended(lines) + [line] + [""]
  {
  }

  /** A write at `p` that appends `text` and journals `e`. */
  lemma AppendAtEnd(w: World, ds: seq<Directive>, t0: Tree, p: string, s: State, text: seq<string>, e: Entry)
    requires TextInv(w, ds, t0, p, s) && Harmless(ds, p, "")
    requires forall k | 0 <= k < |ReadLines(w, t0, p)| :: Harmless(ds, p, ReadLines(w, t0, p)[k])
    requires Target(e) == Some(p) && TextEntry(ds, t0, p, e)
    requires forall k | 0 <= k < |text| :: Kills(e, text[k])
    ensures var r := Write(w, p, Lines(Content(w, s.tree, p) + text + [""]), s);
            TextInv(w, ds, t0, p, if r.error.Some? then r.s else Journal(r.s, e))
  {
    hide TextInv, Harmless, Kills, TextEntry, Content, ReadLines;
    var c := Content(w, s.tree, p);
    var file := Lines(c + text + [""]);
    var r := Write(w, p, file, s);
    if r.error.Some? {
      KeptIfSame(p, s, r.s);
      KeptText(w, ds, t0, p, s, r.s);
    } else {
      EndedText(w, s.tree, p, c + text);
      StartUnharmed(w, ds, t0, p, e);
      assert c + [] == c && c + text + [] == c + text;
      TextEdit(w, ds, t0, p, s, Journal(r.s, e), c, text, [], e);
    }
  }

  lemma InsertedText(w: World, tree: Tree, p: string, at: nat, x: string)
    requires at < |ReadLines(w, tree, p)| && ReadLines(w, tree, p)[at] != ""
    ensures var lines, c := ReadLines(w, tree, p), Content(w, tree, p);
            var t := tree[p := Lines(lines[..at] + [x] + lines[at..])];
            && at <= |c| && Content(w, t, p) == c[..at] + [x] + c[at..]
            && ReadLines(w, t, p)[|ReadLines(w, t, p)| - 1] == lines[|lines| - 1]
  {
    hide ReadLines;
    var lines := ReadLines(w, tree, p);
    LinesRead(w, tree, p, lines[..at] + [x] + lines[at..]);
  }

  lemma InsertAtMarker(w: World, ds: seq<Directive>, t0: Tree, p: string, s: State, at: nat, x: string, e: Entry)
    requires TextInv(w, ds, t0, p, s)
    requires forall k | 0 <= k < |ReadLines(w, t0, p)| :: Harmless(ds, p, ReadLines(w, t0, p)[k])
    requires Target(e) == Some(p) && TextEntry(ds, t0, p, e) && Kills(e, x)
    requires at < |ReadLines(w, s.tree, p)| && ReadLines(w, s.tree, p)[at] != ""
    ensures var lines := ReadLines(w, s.tree, p);
            var r := Write(w, p, Lines(lines[..at] + [x] + lines[at..]), s);
            TextInv(w, ds, t0, p, if r.error.Some? then r.s else Journal(r.s, e))
  {
    hide Harmless, Kills, TextEntry, Content, ReadLines, Surviving, TextJournal;
    var lines, c := ReadLines(w, s.tree, p), Content(w, s.tree, p);
    var r := Write(w, p, Lines(lines[..at] + [x] + lines[at..]), s);
    if r.error.Some? {
      KeptIfSame(p, s, r.s);
      KeptText(w, ds, t0, p, s, r.s);
    } else if Wrote(p) in s.journal {
      PushText(w, ds, t0, p, s, Journal(r.s, e), e);
    } else {
      InsertedText(w, s.tree, p, at, x);
      StartUnharmed(w, ds, t0, p, e);
      assert c[..at] + c[at..] == c;
      TextEdit(w, ds, t0, p, s, Journal(r.s, e), c[..at], [x], c[at..], e);
    }
  }

  lemma PushText(w: World, ds: seq<Directive>, t0: Tree, p: string, s: State, s': State, e: Entry)
    requires TextInv(w, ds, t0, p, s) && Wrote(p) in s.journal
    requires s'.journal == s.journal + [e] && TextEntry(ds, t0, p, e)
    ensures TextInv(w, ds, t0, p, s')
  {
    hide TextEntry, Content, Surviving, HarmlessEnd;
    assert Wrote(p) in s'.journal;
  }

  lemma KeptTextIfSame(w: World, ds: seq<Directive>, t0: Tree, p: string, s: State, s': State)
    requires TextInv(w, ds, t0, p, s) && s'.tree == s.tree && s'.journal == s.journal
    ensures TextInv(w, ds, t0, p, s')
  {
    hide TextInv;
    KeptIfSame(p, s, s');
    KeptText(w, ds, t0, p, s, s');
  }

  /** What the lemmas about one text line need of the skill and the starting tree. */
  ghost predicate TextPremises(w: World, ds: seq<Directive>, t0: Tree, p: string) {
    && Harmless(ds, p, "")
    && forall j | 0 <= j < |ReadLines(w, t0, p)| :: Harmless(ds, p, ReadLines(w, t0, p)[j])
  }

  lemma AppendedLine(w: World, ds: seq<Directive>, t0: Tree, p: string, i: nat, k: nat, s: State)
    requires i < |ds| && k < |ds[i].body| && ds[i].kind == "append" && Printed(ds[i], "to") == p
    requires TextInv(w, ds, t0, p, s) && TextPremises(w, ds, t0, p)
    ensures TextInv(w, ds, t0, p, DoLine(w, i, AppendTo(p), ds[i].body[k], s).s)
  {
    hide TextInv, Harmless, TextEntry, Content, ReadLines, Trim, WithLine, Printed;
    var l := ds[i].body[k];
    AppendedEntry(ds, t0, p, i, k);
    WithLineIs(ReadLines(w, s.tree, p), l);
    ContentUnended(w, s.tree, p);
    AppendAtEnd(w, ds, t0, p, s, [l], Appended(p, l));
  }

  lemma InsertedLine(w: World, ds: seq<Directive>, t0: Tree, p: string, i: nat, k: nat, marker: string, s: State)
    requires i < |ds| && k < |ds[i].body| && ds[i].kind == "append" && Printed(ds[i], "to") == p
    requires TextInv(w, ds, t0, p, s) && TextPremises(w, ds, t0, p)
    ensures TextInv(w, ds, t0, p, DoLine(w, i, InsertAt(p, marker), ds[i].body[k], s).s)
  {
    hide TextInv, Harmless, TextEntry, Content, ReadLines, Trim, Indent, Contains, Printed;
    var l := ds[i].body[k];
    KeptTextIfSame(w, ds, t0, p, s, Fault(s));
    AppendedEntry(ds, t0, p, i, k);
    var lines := ReadLines(w, s.tree, p);
    var at := MarkerAt(lines, "<<< " + marker);
    if at < |lines| {
      ContainsNonEmpty(lines[at], marker);
      IndentTrims(lines[at], l);
      InsertAtMarker(w, ds, t0, p, s, at, Indent(lines[at]) + l, Appended(p, l));
    }
  }

  lemma EnvLine(w: World, ds: seq<Directive>, t0: Tree, i: nat, k: nat, s: State)
    requires i < |ds| && k < |ds[i].body| && ds[i].kind == "env-set" && ValueUndoes(ds[i].body[k], s.vars)
    requires TextInv(w, ds, t0, ".env", s) && TextPremises(w, ds, t0, ".env")
    ensures TextInv(w, ds, t0, ".env", DoLine(w, i, SetEnv, ds[i].body[k], s).s)
  {
    hide TextInv, Harmless, TextEntry, Content, ReadLines, Substitute, EnvKeySet, SplitLines, WithLines, EnvKey, EnvTemplate, StartsWith;
    var l := ds[i].body[k];
    KeptTextIfSame(w, ds, t0, ".env", s, s);
    EnvEntry(ds, t0, i, k);
    var text := SplitLines(EnvKey(l) + "=" + Filled(EnvTemplate(l), s.vars));
    WithLinesIs(ReadLines(w, s.tree, ".env"), text);
    ContentUnended(w, s.tree, ".env");
    AppendAtEnd(w, ds, t0, ".env", s, text, EnvSet(EnvKey(l)));
  }

  /** One line of a directive that edits the text at `p`. */
  lemma TextLine(w: World, ds: seq<Directive>, t0: Tree, p: string, i: nat, k: nat, op: LineOp, s: State)
    requires i < |ds| && k < |ds[i].body| && EditsText(ds[i], p)
    requires op == if ds[i].kind == "append" then AppendOp(ds[i]) else SetEnv
    requires ds[i].kind == "env-set" ==> ValueUndoes(ds[i].body[k], s.vars)
    requires TextInv(w, ds, t0, p, s) && TextPremises(w, ds, t0, p)
    ensures TextInv(w, ds, t0, p, DoLine(w, i, op, ds[i].body[k], s).s)
    ensures DoLine(w, i, op, ds[i].body[k], s).s.vars == s.vars
  {
    hide TextInv, TextPremises, DoLine, ValueUndoes;
    PlainLineKeepsVars(w, i, op, ds[i].body[k], s);
    match op
    case AppendTo(_) => AppendedLine(w, ds, t0, p, i, k, s);
    case InsertAt(_, marker) => InsertedLine(w, ds, t0, p, i, k, marker, s);
    case SetEnv => EnvLine(w, ds, t0, i, k, s);
  }

  lemma ContentUnended(w: World, tree: Tree, p: string)
    ensures Content(w, tree, p) == Unended(ReadLines(w, tree, p))
  {
  }

  lemma {:induction false} TextLines(w: World, ds: seq<Directive>, t0: Tree, p: string, i: nat, from: nat, op: LineOp, s: State)
    requires i < |ds| && from <= |ds[i].body| && EditsText(ds[i], p)
    requires op == if ds[i].kind == "append" then AppendOp(ds[i]) else SetEnv
    requires EnvUndoes(ds[i], p, s.vars)
    requires TextInv(w, ds, t0, p, s) && TextPremises(w, ds, t0, p)
    ensures TextInv(w, ds, t0, p, Each(w, i, op, ds[i].body[from..], s).s)
    decreases |ds[i].body| - from
  {
    hide TextInv, TextPremises, DoLine, ValueUndoes, AppendOp, Printed;
    var body := ds[i].body[from..];
    if body != [] {
      var r := DoLine(w, i, op, body[0], s);
      TextLine(w, ds, t0, p, i, from, op, s);
      assert body[1..] == ds[i].body[from + 1..];
      if r.error.None? { TextLines(w, ds, t0, p, i, from + 1, op, r.s); }
    }
  }

  /** A directive on a text path, unless it is a copy that stopped. */
  lemma TextDirective(w: World, ds: seq<Directive>, t0: Tree, p: string, i: nat, s: State)
    requires i < |ds| && Undoable(w, ds, t0, p) && EnvUndoes(ds[i], p, s.vars) && !EditsArray(ds[i], p)
    requires TextInv(w, ds, t0, p, s)
    ensures var r := ApplyOne(w, i, ds[i], s);
            TextInv(w, ds, t0, p, r.s) || (CopiesTo(ds[i], p) && r.s.journal == s.journal)
  {
    hide TextInv, Harmless, ReadLines, Quiet, Each, ApplyCopy, EnvUndoes, ApplyStream, ApplyDep, ApplyMerge, EditsText, CopiesTo;
    var d := ds[i];
    if CopiesTo(d, p) {
      CopiesIsCopy(d, p);
      CopyJournal(w, i, d, s);
      assert s.journal + [] == s.journal;
      if ApplyCopy(w, i, d, s).error.None? { CopiedText(w, ds, t0, p, d, s, ApplyCopy(w, i, d, s).s); }
    } else if EditsText(d, p) {
      EditsTextIs(d, p);
      assert d.body[0..] == d.body;
      TextLines(w, ds, t0, p, i, 0, if d.kind == "append" then AppendOp(d) else SetEnv, s);
    } else {
      ApplyOneKeeps(w, i, d, s, p);
      KeptText(w, ds, t0, p, s, ApplyOne(w, i, d, s).s);
    }
  }

  lemma CopiesIsCopy(d: Directive, p: string)
    requires CopiesTo(d, p)
    ensures d.kind == "copy"
  {
  }

  lemma EditsTextIs(d: Directive, p: string)
    requires EditsText(d, p)
    ensures d.kind == "append" || d.kind == "env-set"
  {
  }

  lemma CopiedText(w: World, ds: seq<Directive>, t0: Tree, p: string, d: Directive, s: State, s': State)
    requires TextInv(w, ds, t0, p, s) && CopiesTo(d, p) && p !in t0
    requires s'.journal == s.journal + WroteAll(d.body)
    ensures TextInv(w, ds, t0, p, s')
  {
    hide CopiesTo, WroteAll, Harmless, HarmlessEnd, Surviving, Content;
    CopyWrites(d, s.journal, p);
    forall k | 0 <= k < |s'.journal| ensures TextEntry(ds, t0, p, s'.journal[k]) {
      if k < |s.journal| { assert s'.journal[k] == s.journal[k]; }
    }
  }

  // ---------------------------------------------------------------------------
  // A JSON array
  // ---------------------------------------------------------------------------

  lemma {:induction false} FindPushed(items: seq<Json>, obj: Json, key: string, value: Option<Json>)
    requires FindElement(items, key, value) == |items|
    ensures FindElement(items + [obj], key, value) == |items| + (if ElementHas(obj, key, value) then 0 else 1)
  {
    hide ElementHas;
    if items == [] {
      assert items + [obj] == [obj];
    } else {
      assert (items + [obj])[1..] == items[1..] + [obj];
      FindPushed(items[1..], obj, key, value);
    }
  }

  /** Removal takes a pushed element out again exactly when it finds it: its key holds a scalar. */
  lemma PushedElementUndoesIff(items: seq<Json>, obj: Json, key: string, value: Option<Json>)
    requires FindElement(items, key, value) == |items|
    ensures UndoMerge(items + [obj], key, value, None) == items <==> ElementHas(obj, key, value)
  {
    FindPushed(items, obj, key, value);
    assert (items + [obj])[..|items|] + (items + [obj])[|items| + 1..] == items;
  }

  ghost predicate ArrayJournal(t0: Tree, p: string, journal: seq<Entry>) {
    forall k | 0 <= k < |journal| ::
      Target(journal[k]) == Some(p) ==> (journal[k].Wrote? && p !in t0) || journal[k].Merged?
  }

  lemma ArrayRead(w: World, tree: Tree, p: string, items: seq<Json>)
    requires p != ""
    ensures ReadArray(w, tree[p := Entries(items)], p) == Some(items)
  {
  }

  lemma AbsentArray(w: World, tree: Tree, p: string)
    requires p != "" && p !in tree
    ensures ReadArray(w, tree, p) == Some([])
  {
  }

  lemma UndoArray(w: World, e: Entry, tree: Tree, p: string)
    requires p != "" && Target(e) == Some(p) && e.Merged?
    ensures ReadArray(w, UndoEntry(w, e, tree), p) ==
            match ReadArray(w, tree, p)
            case None => None
            case Some(items) => Some(UndoMerge(items, e.key, e.value, e.previous))
  {
    hide ReadArray, UndoMerge;
    if ReadArray(w, tree, p).Some? {
      ArrayRead(w, tree, p, UndoMerge(ReadArray(w, tree, p).value, e.key, e.value, e.previous));
    }
  }

  lemma {:induction false} RemoveArrayAgrees(w: World, t0: Tree, p: string, a: Tree, b: Tree, journal: seq<Entry>)
    requires p != "" && ArrayJournal(t0, p, journal) && ReadArray(w, a, p) == ReadArray(w, b, p)
    ensures ReadArray(w, Unwound(w, a, journal), p) == ReadArray(w, Unwound(w, b, journal), p)
    decreases |journal|
  {
    hide ReadArray, UndoEntry, UndoMerge, Target;
    if journal != [] {
      var e := journal[|journal| - 1];
      var a', b' := UndoEntry(w, e, a), UndoEntry(w, e, b);
      UndoAgrees(w, t0, p, a, b, e, journal);
      RemoveArrayAgrees(w, t0, p, a', b', journal[..|journal| - 1]);
    }
  }

  lemma UndoAgrees(w: World, t0: Tree, p: string, a: Tree, b: Tree, e: Entry, journal: seq<Entry>)
    requires p != "" && journal != [] && e == journal[|journal| - 1]
    requires ArrayJournal(t0, p, journal) && ReadArray(w, a, p) == ReadArray(w, b, p)
    ensures ReadArray(w, UndoEntry(w, e, a), p) == ReadArray(w, UndoEntry(w, e, b), p)
  {
    hide ReadArray, UndoEntry, UndoMerge;
    if Target(e) != Some(p) {
      UndoElsewhere(w, e, a, p);
      UndoElsewhere(w, e, b, p);
      SameAtReads(w, a, UndoEntry(w, e, a), p);
      SameAtReads(w, b, UndoEntry(w, e, b), p);
    } else if e.Wrote? {
      UndoWrote(w, a, p);
      UndoWrote(w, b, p);
      AbsentArray(w, UndoEntry(w, e, a), p);
      AbsentArray(w, UndoEntry(w, e, b), p);
    } else {
      UndoArray(w, e, a, p);
      UndoArray(w, e, b, p);
    }
  }

  lemma {:induction false} RemoveWrittenArray(w: World, t0: Tree, p: string, tree: Tree, journal: seq<Entry>)
    requires p != "" && ArrayJournal(t0, p, journal)
    requires Wrote(p) in journal || ReadArray(w, tree, p) == Some([])
    ensures ReadArray(w, Unwound(w, tree, journal), p) == Some([])
    decreases |journal|
  {
    hide ReadArray, UndoEntry;
    if journal != [] {
      var n := |journal| - 1;
      var e := journal[n];
      var tree' := UndoEntry(w, e, tree);
      if e == Wrote(p) {
        UndoWrote(w, tree, p);
        AbsentArray(w, tree', p);
      } else {
        assert Wrote(p) in journal ==> Wrote(p) in journal[..n];
        if Target(e) == Some(p) {
          UndoArray(w, e, tree, p);
        } else {
          UndoElsewhere(w, e, tree, p);
          SameAtReads(w, tree, tree', p);
        }
      }
      RemoveWrittenArray(w, t0, p, tree', journal[..n]);
    }
  }

  ghost predicate ArrayInv(w: World, t0: Tree, p: string, s: State) {
    && ArrayJournal(t0, p, s.journal)
    && (Wrote(p) in s.journal || ReadArray(w, Unwound(w, s.tree, s.journal), p) == ReadArray(w, t0, p))
  }

  lemma {:induction false} RemoveElsewhere(w: World, t0: Tree, p: string, a: Tree, b: Tree, journal: seq<Entry>, more: seq<Entry>)
    requires p != "" && ArrayJournal(t0, p, journal) && At(a, p) == At(b, p)
    requires forall k | 0 <= k < |more| :: Target(more[k]) != Some(p)
    ensures ReadArray(w, Unwound(w, b, journal + more), p) == ReadArray(w, Unwound(w, a, journal), p)
    decreases |more|
  {
    hide ReadArray, UndoEntry, Target, At, ArrayJournal;
    if more == [] {
      assert journal + more == journal;
      SameAtReads(w, a, b, p);
      RemoveArrayAgrees(w, t0, p, a, b, journal);
    } else {
      var n := |more| - 1;
      UndoElsewhere(w, more[n], b, p);
      assert (journal + more)[..|journal| + n] == journal + more[..n];
      RemoveElsewhere(w, t0, p, a, UndoEntry(w, more[n], b), journal, more[..n]);
    }
  }

  lemma KeptArray(w: World, t0: Tree, p: string, s: State, s': State)
    requires p != "" && Kept(p, s, s') && ArrayInv(w, t0, p, s)
    ensures ArrayInv(w, t0, p, s')
  {
    hide ReadArray, Unwound, Target, At;
    var more := s'.journal[|s.journal|..];
    assert s'.journal == s.journal + more;
    RemoveElsewhere(w, t0, p, s.tree, s'.tree, s.journal, more);
  }

  lemma PushedArray(w: World, t0: Tree, p: string, s: State, s': State, items: seq<Json>, obj: Json, e: Entry)
    requires p != "" && ArrayInv(w, t0, p, s) && ReadArray(w, s.tree, p) == Some(items)
    requires e.Merged? && e.path == p && e.previous.None? && ElementHas(obj, e.key, e.value)
    requires FindElement(items, e.key, e.value) == |items|
    requires s'.tree == s.tree[p := Entries(items + [obj])] && s'.journal == s.journal + [e]
    ensures ArrayInv(w, t0, p, s')
  {
    hide ReadArray, UndoEntry, UndoMerge, ElementHas;
    ArrayRead(w, s.tree, p, items + [obj]);
    UndoArray(w, e, s'.tree, p);
    PushedElementUndoesIff(items, obj, e.key, e.value);
    assert s'.journal[..|s.journal|] == s.journal;
    RemoveArrayAgrees(w, t0, p, UndoEntry(w, e, s'.tree), s.tree, s.journal);
  }

  /** The replaced element is where the removal finds the new one, and goes back there. */
  lemma ReplacedUndoes(items: seq<Json>, obj: Json, key: string, value: Option<Json>)
    requires FindElement(items, key, value) < |items| && ElementHas(obj, key, value)
    ensures var at := FindElement(items, key, value); UndoMerge(items[at := obj], key, value, Some(items[at])) == items
  {
    hide ElementHas;
    var at := FindElement(items, key, value);
    FindFirst(items[at := obj], key, value, at);
    assert items[at := obj][at := items[at]] == items;
  }

  lemma {:induction false} FindFirst(items: seq<Json>, key: string, value: Option<Json>, at: nat)
    requires at < |items| && ElementHas(items[at], key, value)
    requires forall j | 0 <= j < at :: !ElementHas(items[j], key, value)
    ensures FindElement(items, key, value) == at
  {
    hide ElementHas;
    if at > 0 { FindFirst(items[1..], key, value, at - 1); }
  }

  lemma ReplacedArray(w: World, t0: Tree, p: string, s: State, s': State, items: seq<Json>, obj: Json, e: Entry)
    requires p != "" && ArrayInv(w, t0, p, s) && ReadArray(w, s.tree, p) == Some(items)
    requires e.Merged? && e.path == p && ElementHas(obj, e.key, e.value)
    requires var at := FindElement(items, e.key, e.value);
             at < |items| && e.previous == Some(items[at]) && s'.tree == s.tree[p := Entries(items[at := obj])]
    requires s'.journal == s.journal + [e]
    ensures ArrayInv(w, t0, p, s')
  {
    hide ReadArray, UndoEntry, UndoMerge, ElementHas;
    ArrayRead(w, s.tree, p, items[FindElement(items, e.key, e.value) := obj]);
    UndoArray(w, e, s'.tree, p);
    ReplacedUndoes(items, obj, e.key, e.value);
    assert s'.journal[..|s.journal|] == s.journal;
    RemoveArrayAgrees(w, t0, p, UndoEntry(w, e, s'.tree), s.tree, s.journal);
  }

  lemma MergedArray(w: World, t0: Tree, p: string, d: Directive, s: State)
    requires p != "" && EditsArray(d, p) && ScalarMerge(w, d) && ArrayInv(w, t0, p, s)
    ensures ArrayInv(w, t0, p, ApplyMerge(w, d, s).s)
  {
    hide ArrayInv, ReadArray, ElementHas, StrictEquals, JoinLines;
    KeptIfSame(p, s, s);
    KeptIfSame(p, s, Fault(s));
    KeptArray(w, t0, p, s, Fault(s));
    var key := Printed(d, "key");
    match (w.parse(JoinLines(d.body)), ReadArray(w, s.tree, p))
    case (Some(obj), Some(items)) =>
      var value := Field(obj, key);
      var at := FindElement(items, key, value);
      KeptArray(w, t0, p, s, s);
      var r := Write(w, p, Entries(if at == |items| then items + [obj] else items[at := obj]), s);
      if r.error.Some? {
        KeptIfSame(p, s, r.s);
        KeptArray(w, t0, p, s, r.s);
      } else if at == |items| {
        var e := Merged(p, key, value, None);
        PushedArray(w, t0, p, s, Journal(r.s, e), items, obj, e);
      } else {
        var e := Merged(p, key, value, Some(items[at]));
        ReplacedArray(w, t0, p, s, Journal(r.s, e), items, obj, e);
      }
    case _ =>
  }

  lemma CopiedArray(w: World, t0: Tree, p: string, d: Directive, s: State, s': State)
    requires ArrayInv(w, t0, p, s) && CopiesTo(d, p) && p !in t0
    requires s'.journal == s.journal + WroteAll(d.body)
    ensures ArrayInv(w, t0, p, s')
  {
    hide CopiesTo, WroteAll, ReadArray, Unwound;
    CopyWrites(d, s.journal, p);
  }

  lemma ArrayDirective(w: World, ds: seq<Directive>, t0: Tree, p: string, i: nat, s: State)
    requires i < |ds| && Undoable(w, ds, t0, p) && !EditsText(ds[i], p)
    requires ArrayInv(w, t0, p, s)
    ensures var r := ApplyOne(w, i, ds[i], s);
            ArrayInv(w, t0, p, r.s) || (CopiesTo(ds[i], p) && r.s.journal == s.journal)
  {
    hide ArrayInv, Harmless, ReadLines, Quiet, Each, ApplyCopy, ApplyStream, ApplyDep, ApplyMerge, EditsText, CopiesTo, ScalarMerge;
    var d := ds[i];
    if CopiesTo(d, p) {
      CopiesIsCopy(d, p);
      CopyJournal(w, i, d, s);
      assert s.journal + [] == s.journal;
      if ApplyCopy(w, i, d, s).error.None? { CopiedArray(w, t0, p, d, s, ApplyCopy(w, i, d, s).s); }
    } else if EditsArray(d, p) {
      MergedArray(w, t0, p, d, s);
    } else {
      ApplyOneKeeps(w, i, d, s, p);
      KeptArray(w, t0, p, s, ApplyOne(w, i, d, s).s);
    }
  }

  // ---------------------------------------------------------------------------
  // Runs
  // ---------------------------------------------------------------------------

  lemma KeptIfUnchanged(p: string, s: State, s': State)
    requires At(s'.tree, p) == At(s.tree, p) && s'.journal == s.journal
    ensures Kept(p, s, s')
  {
  }

  lemma TextStep(w: World, ds: seq<Directive>, t0: Tree, p: string, i: nat, s: State)
    requires i < |ds| && Undoable(w, ds, t0, p) && !EditsArray(ds[i], p)
    requires EnvUndoes(ds[i], p, s.vars) && CopyJournaled(w, i, ds[i], s, p) && TextInv(w, ds, t0, p, s)
    ensures TextInv(w, ds, t0, p, Step(w, i, ds[i], s))
  {
    hide Step, TextInv, Undoable, EnvUndoes, Started, ApplyOne, EditsArray, Kept, CopiesTo, At;
    var d := ds[i];
    var s', s1 := Step(w, i, d, s), Started(w, i, d, s);
    StepIsApply(w, i, d, s);
    if SameWork(s', s) {
      SameWorkKept(p, s, s');
      KeptText(w, ds, t0, p, s, s');
    } else {
      SameWorkKept(p, s, s1);
      KeptText(w, ds, t0, p, s, s1);
      TextDirective(w, ds, t0, p, i, s1);
      var r := ApplyOne(w, i, d, s1).s;
      SameWorkKept(p, r, s');
      if TextInv(w, ds, t0, p, r) {
        KeptText(w, ds, t0, p, r, s');
      } else {
        KeptIfUnchanged(p, s, s');
        KeptText(w, ds, t0, p, s, s');
      }
    }
  }

  lemma ArrayStep(w: World, ds: seq<Directive>, t0: Tree, p: string, i: nat, s: State)
    requires i < |ds| && Undoable(w, ds, t0, p) && p != "" && !EditsText(ds[i], p)
    requires CopyJournaled(w, i, ds[i], s, p) && ArrayInv(w, t0, p, s)
    ensures ArrayInv(w, t0, p, Step(w, i, ds[i], s))
  {
    hide Step, ArrayInv, Undoable, Started, ApplyOne, EditsText, Kept, CopiesTo, At;
    var d := ds[i];
    var s', s1 := Step(w, i, d, s), Started(w, i, d, s);
    StepIsApply(w, i, d, s);
    if SameWork(s', s) {
      SameWorkKept(p, s, s');
      KeptArray(w, t0, p, s, s');
    } else {
      SameWorkKept(p, s, s1);
      KeptArray(w, t0, p, s, s1);
      ArrayDirective(w, ds, t0, p, i, s1);
      var r := ApplyOne(w, i, d, s1).s;
      SameWorkKept(p, r, s');
      if ArrayInv(w, t0, p, r) {
        KeptArray(w, t0, p, r, s');
      } else {
        KeptIfUnchanged(p, s, s');
        KeptArray(w, t0, p, s, s');
      }
    }
  }

  lemma TextAtStart(w: World, ds: seq<Directive>, t0: Tree, p: string)
    requires Undoable(w, ds, t0, p)
    ensures TextInv(w, ds, t0, p, Initial(t0))
  {
    hide Harmless, ReadLines, Quiet, Content, EditsText, EditsArray, CopiesTo, ScalarMerge;
  }

  lemma ArrayAtStart(w: World, t0: Tree, p: string)
    ensures ArrayInv(w, t0, p, Initial(t0))
  {
  }

  lemma StepPremises(w: World, ds: seq<Directive>, t0: Tree, p: string, i: nat)
    requires i < |ds| && RunUndoable(w, ds, t0, p)
    ensures CopyJournaled(w, i, ds[i], Run(w, ds, t0, i), p) && EnvUndoes(ds[i], p, Run(w, ds, t0, i).vars)
  {
  }

  lemma {:induction false} TextRun(w: World, ds: seq<Directive>, t0: Tree, p: string, n: nat)
    requires n <= |ds| && Undoable(w, ds, t0, p) && RunUndoable(w, ds, t0, p)
    requires forall i | 0 <= i < |ds| :: !EditsArray(ds[i], p)
    ensures TextInv(w, ds, t0, p, Run(w, ds, t0, n))
  {
    hide *;
    if n == 0 {
      TextAtStart(w, ds, t0, p);
      RunStarts(w, ds, t0);
    } else {
      TextRun(w, ds, t0, p, n - 1);
      StepPremises(w, ds, t0, p, n - 1);
      RunUnfolds(w, ds, t0, n);
      TextStep(w, ds, t0, p, n - 1, Run(w, ds, t0, n - 1));
    }
  }

  lemma {:induction false} ArrayRun(w: World, ds: seq<Directive>, t0: Tree, p: string, n: nat)
    requires n <= |ds| && p != "" && Undoable(w, ds, t0, p) && RunUndoable(w, ds, t0, p)
    requires forall i | 0 <= i < |ds| :: !EditsText(ds[i], p)
    ensures ArrayInv(w, t0, p, Run(w, ds, t0, n))
  {
    hide *;
    if n == 0 {
      ArrayAtStart(w, t0, p);
      RunStarts(w, ds, t0);
    } else {
      ArrayRun(w, ds, t0, p, n - 1);
      StepPremises(w, ds, t0, p, n - 1);
      RunUnfolds(w, ds, t0, n);
      ArrayStep(w, ds, t0, p, n - 1, Run(w, ds, t0, n - 1));
    }
  }

  lemma WrittenWasAbsent(ds: seq<Directive>, t0: Tree, p: string, journal: seq<Entry>)
    requires Wrote(p) in journal && (TextJournal(ds, t0, p, journal) || ArrayJournal(t0, p, journal))
    ensures p !in t0
  {
    hide Harmless;
  }

  lemma TextRestored(w: World, ds: seq<Directive>, t0: Tree, p: string, s: State)
    requires TextInv(w, ds, t0, p, s) && Harmless(ds, p, "")
    ensures Content(w, Unwound(w, s.tree, s.journal), p) == Content(w, t0, p)
  {
    hide Harmless, TextJournal, Content, Surviving, Unwound, HarmlessEnd;
    if Wrote(p) in s.journal {
      WrittenWasAbsent(ds, t0, p, s.journal);
      EmptyContent(w, t0, p);
      RemoveWrittenText(w, ds, t0, p, s.tree, s.journal);
    } else {
      RemoveText(w, ds, t0, p, s.tree, s.journal);
    }
  }

  lemma ArrayRestored(w: World, ds: seq<Directive>, t0: Tree, p: string, s: State)
    requires p != "" && ArrayInv(w, t0, p, s)
    ensures ReadArray(w, Unwound(w, s.tree, s.journal), p) == ReadArray(w, t0, p)
  {
    hide ArrayJournal, ReadArray, Unwound;
    if Wrote(p) in s.journal {
      WrittenWasAbsent(ds, t0, p, s.journal);
      AbsentArray(w, t0, p);
      RemoveWrittenArray(w, t0, p, s.tree, s.journal);
    }
  }

  lemma UndoableMeans(w: World, ds: seq<Directive>, t0: Tree, p: string)
    requires Undoable(w, ds, t0, p)
    ensures p != "" && Harmless(ds, p, "")
    ensures (forall i | 0 <= i < |ds| :: !EditsText(ds[i], p)) || (forall i | 0 <= i < |ds| :: !EditsArray(ds[i], p))
  {
    hide Harmless, Quiet, ReadLines, EditsText, EditsArray, CopiesTo, ScalarMerge;
  }

  /**
   * Undo: the journal of any run, an install or a refresh, played backwards to its end, gives
   * the starting file again. A text path reads the same up to its final newline; a path that
   * JSON merges edit holds the same array, whether each merge pushed or replaced its element.
   */
  lemma UndoRestores(w: World, ds: seq<Directive>, t0: Tree, p: string)
    requires Undoable(w, ds, t0, p) && RunUndoable(w, ds, t0, p)
    ensures var end := Run(w, ds, t0, |ds|);
            var undone := Remove(w, end.tree, end.journal);
            undone.finished ==>
              if forall i | 0 <= i < |ds| :: !EditsArray(ds[i], p)
              then Content(w, undone.tree, p) == Content(w, t0, p)
              else ReadArray(w, undone.tree, p) == ReadArray(w, t0, p)
  {
    hide *;
    UndoableMeans(w, ds, t0, p);
    var end := Run(w, ds, t0, |ds|);
    if Remove(w, end.tree, end.journal).finished { FinishedIsUnwound(w, end.tree, end.journal); }
    if forall i | 0 <= i < |ds| :: !EditsArray(ds[i], p) {
      TextRun(w, ds, t0, p, |ds|);
      TextRestored(w, ds, t0, p, Run(w, ds, t0, |ds|));
    } else {
      ArrayRun(w, ds, t0, p, |ds|);
      ArrayRestored(w, ds, t0, p, Run(w, ds, t0, |ds|));
    }
  }

  // ---------------------------------------------------------------------------
  // Paths no directive names
  // ---------------------------------------------------------------------------

  lemma HaltedElsewhere(w: World, n: nat, e: Entry, tree: Tree, p: string)
    requires Target(e) != Some(p)
    ensures At(Halted(w, n, e, tree), p) == At(tree, p)
  {
    hide Unparsed;
  }

  lemma {:induction false} RemoveKeeps(w: World, tree: Tree, journal: seq<Entry>, p: string)
    requires forall k | 0 <= k < |journal| :: Target(journal[k]) != Some(p)
    ensures At(Remove(w, tree, journal).tree, p) == At(tree, p)
    decreases |journal|
  {
    hide UndoEntry, Target, At, Stops, Halted;
    if journal != [] {
      var e := journal[|journal| - 1];
      UndoElsewhere(w, e, tree, p);
      HaltedElsewhere(w, |journal| - 1, e, tree, p);
      RemoveKeeps(w, UndoEntry(w, e, tree), journal[..|journal| - 1], p);
    }
  }

  /** A path no directive names is untouched by the run and by the removal, in every mode. */
  lemma UnnamedUntouched(w: World, ds: seq<Directive>, t0: Tree, p: string)
    requires Quiet(w, p) && forall i | 0 <= i < |ds| :: !Touches(ds[i], p)
    ensures var end := Run(w, ds, t0, |ds|);
            At(end.tree, p) == At(t0, p) && At(Remove(w, end.tree, end.journal).tree, p) == At(t0, p)
  {
    hide Run, Quiet, Touches, At, Target;
    RunKeeps(w, ds, t0, p, |ds|);
    var end := Run(w, ds, t0, |ds|);
    RemoveKeeps(w, end.tree, end.journal, p);
  }

  // ---------------------------------------------------------------------------
  // Where undo falls short
  // ---------------------------------------------------------------------------

  lemma {:induction false} WithoutAllIff(xs: seq<string>, e: Entry)
    ensures WithoutLine(xs, e) == [] <==> forall k | 0 <= k < |xs| :: Kills(e, xs[k])
  {
    hide Kills;
    if xs != [] { WithoutAllIff(xs[1..], e); }
  }

  /**
   * Removing an environment key takes its appended text out again exactly when every
   * line of `KEY=value` starts with `KEY=`: a later line of a value stays behind.
   */
  lemma EnvValueUndoesIff(c: seq<string>, entry: string, vars: Bindings)
    requires forall k | 0 <= k < |c| :: !StartsWith(c[k], EnvKey(entry) + "=")
    ensures WithoutLine(c + SplitLines(EnvKey(entry) + "=" + Filled(EnvTemplate(entry), vars)), EnvSet(EnvKey(entry))) == c
            <==> ValueUndoes(entry, vars)
  {
    hide WithoutLine, EnvKey, EnvTemplate, Filled, SplitLines, StartsWith;
    var e := EnvSet(EnvKey(entry));
    var text := SplitLines(EnvKey(entry) + "=" + Filled(EnvTemplate(entry), vars));
    WithoutSplits(c, text, e);
    WithoutHarmless(c, e);
    WithoutAllIff(text, e);
    assert c + [] == c;
  }

  lemma NoArrow(line: string)
    requires |line| == 1
    ensures ArrowAt(line) == -1
  {
    assert !("->" <= line[0..]);
    assert !("->" <= line[1..]);
  }

  lemma EachOfTwo(w: World, op: LineOp, a: string, b: string, s: State)
    requires DoLine(w, 0, op, a, s).error.None?
    ensures var r := DoLine(w, 0, op, b, DoLine(w, 0, op, a, s).s);
            r.error.Some? ==> Each(w, 0, op, [a, b], s) == r
  {
    hide DoLine;
    assert [a, b][1..] == [b] && [b][1..] == [];
  }

  lemma CopyOne(w: World, l: string, s: State)
    requires |l| == 1 && !IsSpace(l[0])
    ensures DoLine(w, 0, CopyLocal, l, s) ==
            match w.source(l) case None => Raise(Fault(s), w.reason(s.tick, l)) case Some(file) => Write(w, l, file, s)
  {
    hide Write, IsSpace;
    NoArrow(l);
    OneCharTrims(l);
  }

  lemma OneCharTrims(l: string)
    requires |l| == 1 && !IsSpace(l[0])
    ensures Trim(l) == l
  {
  }

  lemma HalfCopied(w: World, s: State)
    requires w.writable(s.tick + 1, "a") && w.source("b") == None
    requires w.source("a").Some?
    ensures var r := Each(w, 0, CopyLocal, ["a", "b"], s);
            r.error.Some? && r.s.tree == s.tree["a" := w.source("a").value] && r.s.journal == s.journal
  {
    hide Each, DoLine;
    CopyOne(w, "a", s);
    CopyOne(w, "b", DoLine(w, 0, CopyLocal, "a", s).s);
    EachOfTwo(w, CopyLocal, "a", "b", s);
  }

  const HALF := Directive("copy", [], map[], ["a", "b"], 1)

  lemma UnheardStep(w: World, i: nat, d: Directive, s: State)
    requires !w.hasHandler && ApplyOne(w, i, d, s).error.Some?
    ensures SameWork(DoStep(w, i, d, s), ApplyOne(w, i, d, s).s)
  {
    hide ApplyOne, Catch;
    var r := ApplyOne(w, i, d, s);
    CatchKeepsWork(w, i, Some(w.caption(d)), r.error.value, r.s);
  }

  lemma HalfIsStarted(w: World, s: State)
    requires w.mode == Install && s.tree == map[]
    ensures Step(w, 0, HALF, s) == DoStep(w, 0, HALF, s)
  {
    hide DoStep, Catch, DoPrompt, DoOperator, DestOf, SourceOf;
    HalfDest();
    assert HALF.body[0] == "a" && !Has(s.tree, DestOf(HALF.body[0]));
  }

  lemma HalfDest()
    ensures DestOf("a") == "a"
  {
    NoArrow("a");
    OneCharTrims("a");
  }

  lemma HalfWork(w: World, s: State)
    ensures ApplyOne(w, 0, HALF, s).error.Some? || Each(w, 0, CopyLocal, HALF.body, s).error.None?
    ensures Each(w, 0, CopyLocal, HALF.body, s).error.Some? ==> ApplyOne(w, 0, HALF, s) == Each(w, 0, CopyLocal, HALF.body, s)
  {
    hide Each, WroteAll;
  }

  /** A copy that stops half way leaves its finished files and no journal entry for them. */
  lemma HalfCopyStays(w: World)
    requires w.mode == Install && !w.hasHandler && w.writable(1, "a")
    requires w.source("a") == Some(Lines(["text", ""])) && w.source("b") == None
    ensures var end := Run(w, [HALF], map[], 1);
            end.journal == [] && Remove(w, end.tree, end.journal) == Removed(map["a" := Lines(["text", ""])], true, [])
  {
    hide Each, Run, ApplyOne, Step, DoStep;
    var s := Initial(map[]);
    RunUnfolds(w, [HALF], map[], 1);
    RunStarts(w, [HALF], map[]);
    HalfCopied(w, s);
    HalfWork(w, s);
    UnheardStep(w, 0, HALF, s);
    HalfIsStarted(w, s);
  }
}
