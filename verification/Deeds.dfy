/** What a directive that finished has done: to the files it names, to the system, and to the journal. */
module Deeds {
  import opened Text
  import opened Directives
  import opened Vars
  import opened Engine
  import opened EngineOutcomes
  import opened Effects

  // ---------------------------------------------------------------------------
  // Arrows
  // ---------------------------------------------------------------------------

  predicate Arrowless(s: string) { forall j | 0 <= j < |s| - 1 :: !(s[j] == '-' && s[j + 1] == '>') }

  lemma {:induction false} FirstText(s: string, needle: string, from: nat, k: nat)
    requires from <= k && k + |needle| <= |s| && needle <= s[k..]
    requires forall j | from <= j < k :: !(needle <= s[j..])
    ensures IndexOfText(s, needle, from) == k
    decreases k - from
  {
    if from < k { FirstText(s, needle, from + 1, k); }
  }

  lemma {:induction false} NoText(s: string, needle: string, from: nat)
    requires needle != "" && forall j | from <= j <= |s| :: !(needle <= s[j..])
    ensures IndexOfText(s, needle, from) == -1
    decreases |s| + 1 - from
  {
    if from < |s| { NoText(s, needle, from + 1); }
  }

  lemma ArrowFound(a: string, b: string)
    requires Arrowless(a)
    ensures ArrowAt(a + "->" + b) == |a|
  {
    var s := a + "->" + b;
    assert s[|a|..] == "->" + b;
    forall j | 0 <= j < |a| ensures !("->" <= s[j..]) {
      assert s[j..][0] == s[j] == a[j] && s[j..][1] == s[j + 1];
      if j + 1 < |a| { assert s[j + 1] == a[j + 1]; } else { assert s[j + 1] == '-'; }
    }
    FirstText(s, "->", 0, |a|);
  }

  lemma ArrowMissing(s: string)
    requires Arrowless(s)
    ensures ArrowAt(s) == -1
  {
    forall j | 0 <= j <= |s| ensures !("->" <= s[j..]) {
      if j + 1 < |s| { assert s[j..][0] == s[j] && s[j..][1] == s[j + 1]; }
    }
    NoText(s, "->", 0);
  }

  /** `from -> to` copies the left side to the right one; a line without an arrow is both. */
  lemma ArrowLine(from: string, to: string)
    requires Arrowless(from) && Arrowless(to)
    ensures SourceOf(from + "->" + to) == Trim(from) && DestOf(from + "->" + to) == Trim(to)
    ensures SourceOf(from) == Trim(from) == DestOf(from)
  {
    hide Trim, IndexOfText;
    var s := from + "->" + to;
    ArrowFound(from, to);
    ArrowMissing(from);
    ArrowMissing(to);
    assert s[..|from|] == from && s[|from| + 2..] == to;
  }

  // ---------------------------------------------------------------------------
  // Copies
  // ---------------------------------------------------------------------------

  /** No later body line has the same destination. */
  predicate LastCopy(body: seq<string>, k: nat) {
    k < |body| && forall j | k < j < |body| :: DestOf(body[j]) != DestOf(body[k])
  }

  lemma {:induction false} LocalLines(w: World, i: nat, body: seq<string>, s: State)
    requires Each(w, i, CopyLocal, body, s).error.None?
    ensures var r := Each(w, i, CopyLocal, body, s).s;
      && (forall k: nat | LastCopy(body, k) ::
            DestOf(body[k]) in r.tree && w.source(SourceOf(body[k])) == Some(r.tree[DestOf(body[k])]))
      && (forall p | forall k | 0 <= k < |body| :: DestOf(body[k]) != p :: At(r.tree, p) == At(s.tree, p))
      && r.calls == s.calls && r.vars == s.vars && r.journal == s.journal
  {
    hide SourceOf, DestOf;
    if body != [] {
      var r := DoLine(w, i, CopyLocal, body[0], s);
      LocalLines(w, i, body[1..], r.s);
      var end := Each(w, i, CopyLocal, body[1..], r.s).s;
      forall k: nat | LastCopy(body, k)
        ensures DestOf(body[k]) in end.tree && w.source(SourceOf(body[k])) == Some(end.tree[DestOf(body[k])])
      {
        if k > 0 {
          assert LastCopy(body[1..], k - 1);
        } else {
          forall j | 0 <= j < |body[1..]| ensures DestOf(body[1..][j]) != DestOf(body[0]) { assert body[1..][j] == body[j + 1]; }
          assert At(end.tree, DestOf(body[0])) == At(r.s.tree, DestOf(body[0]));
        }
      }
      forall p | forall k | 0 <= k < |body| :: DestOf(body[k]) != p ensures At(end.tree, p) == At(s.tree, p) {
        assert DestOf(body[0]) != p;
        forall j | 0 <= j < |body[1..]| ensures DestOf(body[1..][j]) != p { assert body[1..][j] == body[j + 1]; }
      }
    }
  }

  /** The journal entries of a copy: each destination in order. */
  predicate JournalsCopies(body: seq<string>, before: seq<Entry>, after: seq<Entry>) {
    && |after| == |before| + |body| && before <= after
    && forall k | 0 <= k < |body| :: after[|before| + k] == Wrote(DestOf(body[k]))
  }

  /**
   * A local copy that finished: every destination holds the source its last line names, no
   * other file changed, no command ran, and every destination is journaled.
   */
  lemma CopiedFiles(w: World, i: nat, d: Directive, s: State)
    requires d.kind == "copy" && ("from-branch" !in d.attrs || d.attrs["from-branch"] == "") && ApplyOne(w, i, d, s).error.None?
    ensures var r := ApplyOne(w, i, d, s).s;
      && (forall k: nat | LastCopy(d.body, k) ::
            DestOf(d.body[k]) in r.tree && w.source(SourceOf(d.body[k])) == Some(r.tree[DestOf(d.body[k])]))
      && (forall p | !CopiesTo(d, p) :: At(r.tree, p) == At(s.tree, p))
      && r.calls == s.calls && r.vars == s.vars && JournalsCopies(d.body, s.journal, r.journal)
  {
    hide SourceOf, DestOf, Each, WroteAll;
    LocalLines(w, i, d.body, s);
    WroteEntries(d.body);
  }

  /** The commands of a branch copy: one fetch, and one `git show` for each line. */
  predicate ShowsLines(i: nat, branch: string, body: seq<string>, before: seq<Call>, after: seq<Call>) {
    && |after| == |before| + |body| && before <= after
    && forall k | 0 <= k < |body| :: after[|before| + k] == Executed(i, GitShow(branch, SourceOf(body[k]), DestOf(body[k])))
  }

  lemma {:induction false} BranchLines(w: World, i: nat, branch: string, body: seq<string>, s: State)
    requires Each(w, i, CopyBranch(branch), body, s).error.None?
    ensures var r := Each(w, i, CopyBranch(branch), body, s).s;
      ShowsLines(i, branch, body, s.calls, r.calls) && r.vars == s.vars && r.journal == s.journal
  {
    hide SourceOf, DestOf;
    if body != [] {
      var r := DoLine(w, i, CopyBranch(branch), body[0], s);
      BranchLines(w, i, branch, body[1..], r.s);
    }
  }

  /** A branch copy that finished fetched the branch, showed each line's source into its destination, and journaled them. */
  lemma CopiedFromBranch(w: World, i: nat, d: Directive, s: State)
    requires d.kind == "copy" && "from-branch" in d.attrs && d.attrs["from-branch"] != "" && ApplyOne(w, i, d, s).error.None?
    ensures var r, branch := ApplyOne(w, i, d, s).s, d.attrs["from-branch"];
      && ShowsLines(i, branch, d.body, s.calls + [Executed(i, GitFetch(branch))], r.calls)
      && r.vars == s.vars && JournalsCopies(d.body, s.journal, r.journal)
  {
    hide SourceOf, DestOf, Each, WroteAll;
    var branch := d.attrs["from-branch"];
    BranchLines(w, i, branch, d.body, Exec(w, i, GitFetch(branch), s).s);
    WroteEntries(d.body);
  }

  // ---------------------------------------------------------------------------
  // Appends
  // ---------------------------------------------------------------------------

  /** The lines of a text without the empty one after a final newline. */
  function Ended(lines: seq<string>): seq<string> {
    if lines != [] && lines[|lines| - 1] == "" then lines[..|lines| - 1] else lines
  }

  predicate JournalsLines(path: string, body: seq<string>, before: seq<Entry>, after: seq<Entry>) {
    && |after| == |before| + |body| && before <= after
    && forall k | 0 <= k < |body| :: after[|before| + k] == Appended(path, body[k])
  }

  lemma AppendOne(w: World, i: nat, path: string, l: string, s: State)
    requires DoLine(w, i, AppendTo(path), l, s).error.None?
    ensures var r := DoLine(w, i, AppendTo(path), l, s).s;
      && ReadLines(w, r.tree, path) == Ended(ReadLines(w, s.tree, path)) + [l] + [""]
      && (forall p | p != path :: At(r.tree, p) == At(s.tree, p))
      && r.calls == s.calls && r.vars == s.vars && r.journal == s.journal + [Appended(path, l)]
  {
    hide ReadLines, WithLine, Ended;
    WithLineIs(ReadLines(w, s.tree, path), l);
    TextRead(w, s.tree, path, WithLine(ReadLines(w, s.tree, path), l));
  }

  lemma EndedAgain(lines: seq<string>, more: seq<string>)
    requires more != []
    ensures Ended(Ended(lines) + [more[0]] + [""]) + more[1..] + [""] == Ended(lines) + more + [""]
  {
    assert Ended(Ended(lines) + [more[0]] + [""]) == Ended(lines) + [more[0]];
  }

  lemma {:induction false} AppendLines(w: World, i: nat, path: string, body: seq<string>, s: State)
    requires Each(w, i, AppendTo(path), body, s).error.None?
    ensures var r := Each(w, i, AppendTo(path), body, s).s;
      && (body != [] ==> ReadLines(w, r.tree, path) == Ended(ReadLines(w, s.tree, path)) + body + [""])
      && (forall p | p != path :: At(r.tree, p) == At(s.tree, p))
      && r.calls == s.calls && r.vars == s.vars && JournalsLines(path, body, s.journal, r.journal)
  {
    hide ReadLines, DoLine, Ended;
    if body != [] {
      var r := DoLine(w, i, AppendTo(path), body[0], s);
      AppendOne(w, i, path, body[0], s);
      AppendLines(w, i, path, body[1..], r.s);
      EndedAgain(ReadLines(w, s.tree, path), body);
      if |body| == 1 { assert body == [body[0]]; }
    }
  }

  lemma WithLineIs(lines: seq<string>, line: string)
    requires lines != []
    ensures WithLine(lines, line) == Ended(lines) + [line] + [""]
  {
  }

  lemma TextRead(w: World, tree: Tree, path: string, lines: seq<string>)
    requires lines != []
    ensures ReadLines(w, tree[path := Lines(lines)], path) == lines
  {
  }

  /** An append that finished: its lines stand at the end of the text, each on a line of its own, and nothing else changed. */
  lemma AppendedText(w: World, i: nat, d: Directive, s: State)
    requires d.kind == "append" && "to" in d.attrs && ("at" !in d.attrs || d.attrs["at"] == "") && ApplyOne(w, i, d, s).error.None?
    ensures var r, path := ApplyOne(w, i, d, s).s, d.attrs["to"];
      && (d.body != [] ==> ReadLines(w, r.tree, path) == Ended(ReadLines(w, s.tree, path)) + d.body + [""])
      && (forall p | p != path :: At(r.tree, p) == At(s.tree, p))
      && r.calls == s.calls && r.vars == s.vars && JournalsLines(path, d.body, s.journal, r.journal)
  {
    hide ReadLines, Each;
    AppendLines(w, i, d.attrs["to"], d.body, s);
  }

  /** `pad` is the white space a line starts with. */
  predicate StartsAfter(line: string, pad: string) {
    && pad <= line && (forall k | 0 <= k < |pad| :: IsSpace(pad[k])) && (|pad| < |line| ==> !IsSpace(line[|pad|]))
  }

  function Padded(pad: string, body: seq<string>): (r: seq<string>)
    ensures |r| == |body| && forall k | 0 <= k < |body| :: r[k] == pad + body[k]
  {
    seq(|body|, k requires 0 <= k < |body| => pad + body[k])
  }

  /** `k` is the first line that holds `mark`. */
  predicate FirstWith(lines: seq<string>, mark: string, k: nat) {
    k < |lines| && Contains(lines[k], mark) && forall j | 0 <= j < k :: !Contains(lines[j], mark)
  }

  lemma {:induction false} MarkerFirst(lines: seq<string>, mark: string)
    ensures var k := MarkerAt(lines, mark);
      (k < |lines| ==> FirstWith(lines, mark, k)) && (k == |lines| ==> forall j | 0 <= j < |lines| :: !Contains(lines[j], mark))
  {
    hide Contains;
    if lines != [] {
      MarkerFirst(lines[1..], mark);
      if !Contains(lines[0], mark) {
        var k := MarkerAt(lines[1..], mark);
        forall j | 0 < j < k + 1 ensures !Contains(lines[j], mark) { assert lines[1..][j - 1] == lines[j]; }
        if k == |lines[1..]| {
          forall j | 0 <= j < |lines| ensures !Contains(lines[j], mark) { if j > 0 { assert lines[1..][j - 1] == lines[j]; } }
        }
      }
    }
  }

  lemma {:induction false} MarkerIs(lines: seq<string>, mark: string, k: nat)
    requires FirstWith(lines, mark, k)
    ensures MarkerAt(lines, mark) == k
  {
    hide Contains;
    if k > 0 {
      assert !Contains(lines[0], mark);
      forall j | 0 <= j < k - 1 ensures !Contains(lines[1..][j], mark) { assert lines[1..][j] == lines[j + 1]; }
      MarkerIs(lines[1..], mark, k - 1);
    }
  }

  lemma IndentIs(line: string)
    ensures StartsAfter(line, Indent(line))
  {
  }

  /** Where a mark that starts with no space is in an indented line, it is in the line. */
  lemma PaddedHolds(pad: string, line: string, mark: string)
    requires mark != "" && !IsSpace(mark[0]) && (forall k | 0 <= k < |pad| :: IsSpace(pad[k])) && Contains(pad + line, mark)
    ensures Contains(line, mark)
  {
    var at := IndexOfText(pad + line, mark);
    assert (pad + line)[at..][0] == (pad + line)[at];
    assert forall k | 0 <= k < |pad| :: (pad + line)[k] == pad[k];
    assert (pad + line)[at..] == line[at - |pad|..];
    if !Contains(line, mark) { Missing(line, mark, 0, at - |pad|); }
  }

  lemma {:induction false} Missing(s: string, mark: string, from: nat, k: nat)
    requires from <= k <= |s| && IndexOfText(s, mark, from) < 0
    ensures !(mark <= s[k..])
    decreases k - from
  {
    if from < k { Missing(s, mark, from + 1, k); }
  }

  lemma InsertOne(w: World, i: nat, path: string, marker: string, l: string, s: State, at: nat)
    requires DoLine(w, i, InsertAt(path, marker), l, s).error.None?
    requires FirstWith(ReadLines(w, s.tree, path), "<<< " + marker, at)
    ensures var r, lines := DoLine(w, i, InsertAt(path, marker), l, s).s, ReadLines(w, s.tree, path);
      && ReadLines(w, r.tree, path) == lines[..at] + [Indent(lines[at]) + l] + lines[at..]
      && (forall p | p != path :: At(r.tree, p) == At(s.tree, p))
      && r.calls == s.calls && r.vars == s.vars && r.journal == s.journal + [Appended(path, l)]
  {
    hide ReadLines, MarkerAt, Indent, Contains;
    var lines := ReadLines(w, s.tree, path);
    MarkerIs(lines, "<<< " + marker, at);
    TextRead(w, s.tree, path, lines[..at] + [Indent(lines[at]) + l] + lines[at..]);
  }

  /** After one line is inserted the marker's line is one further down. */
  lemma MarkerShifts(lines: seq<string>, marker: string, at: nat, l: string)
    requires FirstWith(lines, "<<< " + marker, at) && !Contains(l, "<<< " + marker)
    ensures FirstWith(lines[..at] + [Indent(lines[at]) + l] + lines[at..], "<<< " + marker, at + 1)
  {
    hide Contains, Indent;
    var pad, mark := Indent(lines[at]), "<<< " + marker;
    IndentIs(lines[at]);
    if Contains(pad + l, mark) { PaddedHolds(pad, l, mark); }
    var next := lines[..at] + [pad + l] + lines[at..];
    assert next[at + 1] == lines[at];
    forall j | 0 <= j < at + 1 ensures !Contains(next[j], mark) { if j < at { assert next[j] == lines[j]; } }
  }

  lemma {:induction false} InsertLines(w: World, i: nat, path: string, marker: string, body: seq<string>, s: State, at: nat)
    requires Each(w, i, InsertAt(path, marker), body, s).error.None?
    requires FirstWith(ReadLines(w, s.tree, path), "<<< " + marker, at)
    requires forall k | 0 <= k < |body| :: !Contains(body[k], "<<< " + marker)
    ensures var r, lines := Each(w, i, InsertAt(path, marker), body, s).s, ReadLines(w, s.tree, path);
      && ReadLines(w, r.tree, path) == lines[..at] + Padded(Indent(lines[at]), body) + lines[at..]
      && (forall p | p != path :: At(r.tree, p) == At(s.tree, p))
      && r.calls == s.calls && r.vars == s.vars && JournalsLines(path, body, s.journal, r.journal)
    decreases |body|
  {
    hide ReadLines, DoLine, Indent, FirstWith, Contains;
    var lines := ReadLines(w, s.tree, path);
    InBounds(lines, "<<< " + marker, at);
    var pad := Indent(lines[at]);
    if body == [] {
      assert lines[..at] + [] + lines[at..] == lines;
    } else {
      var next := lines[..at] + [pad + body[0]] + lines[at..];
      var r := DoLine(w, i, InsertAt(path, marker), body[0], s);
      InsertOne(w, i, path, marker, body[0], s, at);
      MarkerShifts(lines, marker, at, body[0]);
      InsertLines(w, i, path, marker, body[1..], r.s, at + 1);
      PaddedMore(lines, at, pad, body);
    }
  }

  lemma PaddedMore(lines: seq<string>, at: nat, pad: string, body: seq<string>)
    requires body != [] && at <= |lines|
    ensures var next := lines[..at] + [pad + body[0]] + lines[at..];
      next[..at + 1] + Padded(pad, body[1..]) + next[at + 1..] == lines[..at] + Padded(pad, body) + lines[at..]
  {
    var next := lines[..at] + [pad + body[0]] + lines[at..];
    assert next[..at + 1] == lines[..at] + [pad + body[0]] && next[at + 1..] == lines[at..];
    assert [pad + body[0]] + Padded(pad, body[1..]) == Padded(pad, body);
  }

  lemma InBounds(lines: seq<string>, mark: string, at: nat)
    requires FirstWith(lines, mark, at)
    ensures at < |lines|
  {
    hide Contains;
  }

  /**
   * An append at a marker that finished: its lines stand, in order and indented like the
   * marker's line, right before the first line with `<<< marker`, unless one of them is such a line itself.
   */
  lemma InsertedText(w: World, i: nat, d: Directive, s: State) returns (at: nat, pad: string)
    requires d.kind == "append" && "to" in d.attrs && "at" in d.attrs && d.attrs["at"] != "" && d.body != []
    requires ApplyOne(w, i, d, s).error.None? && forall k | 0 <= k < |d.body| :: !Contains(d.body[k], "<<< " + d.attrs["at"])
    ensures var r, lines, path := ApplyOne(w, i, d, s).s, ReadLines(w, s.tree, d.attrs["to"]), d.attrs["to"];
      && FirstWith(lines, "<<< " + d.attrs["at"], at) && StartsAfter(lines[at], pad)
      && ReadLines(w, r.tree, path) == lines[..at] + Padded(pad, d.body) + lines[at..]
      && (forall p | p != path :: At(r.tree, p) == At(s.tree, p))
      && r.calls == s.calls && r.vars == s.vars && JournalsLines(path, d.body, s.journal, r.journal)
  {
    hide ReadLines, Contains, MarkerAt, Indent, Write;
    var lines, mark := ReadLines(w, s.tree, d.attrs["to"]), "<<< " + d.attrs["at"];
    at := MarkerAt(lines, mark);
    MarkerFirst(lines, mark);
    assert at < |lines|;
    pad := Indent(lines[at]);
    IndentIs(lines[at]);
    InsertLines(w, i, d.attrs["to"], d.attrs["at"], d.body, s, at);
  }

  // ---------------------------------------------------------------------------
  // Commands
  // ---------------------------------------------------------------------------

  /** A dependency install that finished ran one command, for its manager, directory and packages, and journaled its undoing. */
  lemma DepsAdded(w: World, i: nat, d: Directive, s: State)
    requires d.kind == "dep" && ApplyOne(w, i, d, s).error.None?
    ensures var r := ApplyOne(w, i, d, s).s;
      && r.calls == s.calls + [Executed(i, Shell(Managed(d, "add", d.body)))] && r.vars == s.vars
      && r.journal == s.journal + [CommandRan(Managed(d, "add", d.body), Some(Managed(d, "remove", NamesOf(d.body))))]
  {
    ManagedIs(d);
  }

  /** The manager's command on the packages, in the directive's directory: pnpm in the project unless it says otherwise. */
  function Managed(d: Directive, action: string, packages: seq<string>): string {
    (if "cwd" in d.attrs && d.attrs["cwd"] != "" then "cd " + d.attrs["cwd"] + " && " else "")
    + (if "manager" in d.attrs then d.attrs["manager"] else "pnpm") + " " + action + " " + Join(packages, " ")
  }

  /** Each spec up to its last `@`. */
  function NamesOf(specs: seq<string>): (names: seq<string>)
    ensures |names| == |specs| && forall k | 0 <= k < |specs| :: names[k] == DepName(specs[k])
  {
    if specs == [] then [] else [DepName(specs[0])] + NamesOf(specs[1..])
  }

  lemma ManagedIs(d: Directive)
    ensures InstallText(d) == Managed(d, "add", d.body) && UninstallText(d) == Managed(d, "remove", NamesOf(d.body))
  {
    hide Join, DepName;
    assert DepNames(d.body) == NamesOf(d.body);
    var start := InDirectory(d) + Manager(d);
    assert start + " add " == start + " " + "add" + " ";
    assert start + " remove " == start + " " + "remove" + " ";
  }

  /** The bindings when line `k` of a run is reached: lines before it may have bound what it prints. */
  function VarsAt(w: World, i: nat, op: LineOp, body: seq<string>, s: State, k: nat): Bindings
    requires k <= |body|
  {
    Each(w, i, op, body[..k], s).s.vars
  }

  /** The commands of the body, each with its references filled, one call a line. */
  predicate RunsLines(w: World, i: nat, op: LineOp, body: seq<string>, s: State, after: seq<Call>) {
    && |after| == |s.calls| + |body| && s.calls <= after
    && forall k | 0 <= k < |body| ::
         Substitute(body[k], VarsAt(w, i, op, body, s, k)).Text?
         && after[|s.calls| + k] == Executed(i, Shell(Substitute(body[k], VarsAt(w, i, op, body, s, k)).text))
  }

  predicate JournalsCommands(body: seq<string>, undo: Option<string>, before: seq<Entry>, after: seq<Entry>) {
    && |after| == |before| + |body| && before <= after
    && forall k | 0 <= k < |body| :: after[|before| + k] == CommandRan(body[k], undo)
  }

  lemma BindKeepsCalls(w: World, i: nat, spec: string, stdout: string, validate: Option<string>, s: State)
    ensures BindCapture(w, spec, stdout, validate, s).s.calls == s.calls
  {
    hide Capture, CapturePairs, SplitAt, IndexOf;
    CaptureKeepsCalls(w, validate, spec, stdout, s);
    if w.parse(stdout).Some? { PairsKeepCalls(w, validate, SplitAt(spec, ','), w.parse(stdout).value, s); }
  }

  lemma CaptureKeepsCalls(w: World, validate: Option<string>, name: string, value: string, s: State)
    ensures Capture(w, validate, name, value, s).s.calls == s.calls
  {
  }

  lemma {:induction false} PairsKeepCalls(w: World, validate: Option<string>, pairs: seq<string>, json: Json, s: State)
    ensures CapturePairs(w, validate, pairs, json, s).s.calls == s.calls
  {
    hide IndexOf, PairName, PairPath;
    if pairs != [] {
      if IndexOf(pairs[0], '=') < 1 {
        PairsKeepCalls(w, validate, pairs[1..], json, s);
      } else {
        var r := Capture(w, validate, PairName(pairs[0]), w.pick(json, PairPath(pairs[0])), s);
        if r.error.None? { PairsKeepCalls(w, validate, pairs[1..], json, r.s); }
      }
    }
  }

  lemma RunOne(w: World, i: nat, op: LineOp, l: string, s: State)
    requires (op.Check? || op.RunCommand?) && DoLine(w, i, op, l, s).error.None?
    ensures var r := DoLine(w, i, op, l, s).s;
      && Substitute(l, s.vars).Text? && r.calls == s.calls + [Executed(i, Shell(Substitute(l, s.vars).text))]
      && r.journal == s.journal + (if op.Check? then [] else [CommandRan(l, op.undo)])
  {
    hide Substitute, BindCapture;
    var cmd := Shell(Filled(l, s.vars));
    if op.RunCommand? && op.capture.Some? {
      BindKeepsCalls(w, i, op.capture.value, Trim(Answer(w, s, cmd).text), op.validate, Exec(w, i, cmd, s).s);
      BindKeeps(w, op.capture.value, Trim(Answer(w, s, cmd).text), op.validate, Exec(w, i, cmd, s).s);
    }
  }

  lemma {:induction false} EachTake(w: World, i: nat, op: LineOp, body: seq<string>, s: State, k: nat)
    requires 0 < k <= |body| && DoLine(w, i, op, body[0], s).error.None?
    ensures VarsAt(w, i, op, body, s, k) == VarsAt(w, i, op, body[1..], DoLine(w, i, op, body[0], s).s, k - 1)
  {
    hide DoLine;
    assert body[..k][1..] == body[1..][..k - 1];
  }

  lemma {:induction false} RunLines(w: World, i: nat, op: LineOp, body: seq<string>, s: State)
    requires (op.Check? || op.RunCommand?) && Each(w, i, op, body, s).error.None?
    ensures var r := Each(w, i, op, body, s).s;
      && RunsLines(w, i, op, body, s, r.calls)
      && (if op.Check? then r.journal == s.journal else JournalsCommands(body, op.undo, s.journal, r.journal))
  {
    hide DoLine, Substitute, VarsAt;
    if body != [] {
      var r := DoLine(w, i, op, body[0], s);
      RunOne(w, i, op, body[0], s);
      RunLines(w, i, op, body[1..], r.s);
      VarsFirst(w, i, op, body, s);
      var after := Each(w, i, op, body, s).s;
      forall k | 0 <= k < |body|
        ensures Substitute(body[k], VarsAt(w, i, op, body, s, k)).Text?
        ensures after.calls[|s.calls| + k] == Executed(i, Shell(Substitute(body[k], VarsAt(w, i, op, body, s, k)).text))
      {
        if k > 0 {
          EachTake(w, i, op, body, s, k);
          assert body[1..][k - 1] == body[k];
        }
      }
      if op.RunCommand? { JournalLater(body, op.undo, s.journal, r.s.journal, after.journal); }
    }
  }

  lemma JournalLater(body: seq<string>, undo: Option<string>, before: seq<Entry>, mid: seq<Entry>, after: seq<Entry>)
    requires body != [] && mid == before + [CommandRan(body[0], undo)] && JournalsCommands(body[1..], undo, mid, after)
    ensures JournalsCommands(body, undo, before, after)
  {
    forall k | 0 <= k < |body| ensures after[|before| + k] == CommandRan(body[k], undo) {
      if k == 0 { assert after[|before|] == mid[|before|]; } else { assert after[|mid| + (k - 1)] == CommandRan(body[1..][k - 1], undo); }
    }
  }

  lemma VarsFirst(w: World, i: nat, op: LineOp, body: seq<string>, s: State)
    ensures VarsAt(w, i, op, body, s, 0) == s.vars
  {
  }

  /** Lines that print nothing into a variable all see the same bindings. */
  lemma {:induction false} VarsSame(w: World, i: nat, op: LineOp, body: seq<string>, s: State, k: nat)
    requires k <= |body| && (op.Check? || (op.RunCommand? && op.capture.None?)) && Each(w, i, op, body, s).error.None?
    ensures VarsAt(w, i, op, body, s, k) == s.vars
    decreases |body|
  {
    hide Substitute;
    if k == 0 {
      VarsFirst(w, i, op, body, s);
    } else {
      EachTake(w, i, op, body, s, k);
      VarsSame(w, i, op, body[1..], DoLine(w, i, op, body[0], s).s, k - 1);
    }
  }

  /** A check that finished ran its lines, filled, in order, and journaled nothing. */
  lemma Checked(w: World, i: nat, d: Directive, s: State)
    requires d.kind == "run" && "effect" in d.attrs && d.attrs["effect"] == "check" && ApplyOne(w, i, d, s).error.None?
    ensures var r := ApplyOne(w, i, d, s).s;
      && |r.calls| == |s.calls| + |d.body| && s.calls <= r.calls && r.journal == s.journal && r.vars == s.vars
      && forall k | 0 <= k < |d.body| ::
           Substitute(d.body[k], s.vars).Text? && r.calls[|s.calls| + k] == Executed(i, Shell(Substitute(d.body[k], s.vars).text))
  {
    hide Each, Substitute, VarsAt;
    RunLines(w, i, Check, d.body, s);
    forall k: nat | k <= |d.body| ensures VarsAt(w, i, Check, d.body, s, k) == s.vars { VarsSame(w, i, Check, d.body, s, k); }
    VarsLast(w, i, Check, d.body, s);
  }

  lemma VarsLast(w: World, i: nat, op: LineOp, body: seq<string>, s: State)
    ensures VarsAt(w, i, op, body, s, |body|) == Each(w, i, op, body, s).s.vars
  {
    assert body[..|body|] == body;
  }

  /**
   * Any other run but a step that finished ran its lines, filled, in order, and journaled
   * each as it is spelled, never as it was filled; only an external run's can be undone.
   */
  lemma CommandsRun(w: World, i: nat, d: Directive, s: State)
    requires d.kind == "run" && ("effect" in d.attrs ==> d.attrs["effect"] != "check" && d.attrs["effect"] != "step")
    requires ApplyOne(w, i, d, s).error.None?
    ensures var r := ApplyOne(w, i, d, s).s;
      && RunsLines(w, i, RunOp(d), d.body, s, r.calls)
      && JournalsCommands(d.body,
           if "effect" in d.attrs && d.attrs["effect"] == "external" && "remove" in d.attrs then Some(d.attrs["remove"]) else None,
           s.journal, r.journal)
      && ("capture" !in d.attrs || d.attrs["capture"] == "" ==>
            r.vars == s.vars && forall k: nat | k <= |d.body| :: VarsAt(w, i, RunOp(d), d.body, s, k) == s.vars)
  {
    hide Each, RunsLines, JournalsCommands, VarsAt;
    RunLines(w, i, RunOp(d), d.body, s);
    if "capture" !in d.attrs || d.attrs["capture"] == "" {
      forall k: nat | k <= |d.body| ensures VarsAt(w, i, RunOp(d), d.body, s, k) == s.vars { VarsSame(w, i, RunOp(d), d.body, s, k); }
      VarsLast(w, i, RunOp(d), d.body, s);
    }
  }

  /** A streamed step that finished: one stream of its filled body, which answered well; the body is journaled as spelled. */
  lemma StepStreamed(w: World, i: nat, d: Directive, s: State)
    requires d.kind == "run" && "effect" in d.attrs && d.attrs["effect"] == "step" && ApplyOne(w, i, d, s).error.None?
    ensures var r, script := ApplyOne(w, i, d, s).s, JoinLines(d.body);
      && Substitute(script, s.vars).Text? && r.calls == s.calls + [Streaming(i, Substitute(script, s.vars).text)]
      && r.journal == s.journal + [CommandRan(script, None)] && r.tree == s.tree
      && var out := w.stream(s.tick + 1, Substitute(script, s.vars).text);
         w.hasStream && !out.threw && out.ok
         && r.vars == if "capture" in d.attrs && d.attrs["capture"] != ""
                      then CaptureFields(SplitAt(d.attrs["capture"], ','), out.fields, s).vars else s.vars
  {
    hide CaptureFields, Substitute, SplitAt, JoinLines;
    var script := JoinLines(d.body);
    var out := w.stream(s.tick + 1, Filled(script, s.vars));
    var s1 := s.(tick := s.tick + 1, calls := s.calls + [Streaming(i, Filled(script, s.vars))]);
    var pairs := SplitAt(OrEmpty(d, "capture"), ',');
    FieldsWork(i, pairs, out.fields, s1);
    FieldsKeepRest(pairs, out.fields, s1);
    FieldsAgree(pairs, out.fields, s1, s);
  }

  lemma {:induction false} FieldsKeepRest(pairs: seq<string>, fields: map<string, string>, s: State)
    ensures var r := CaptureFields(pairs, fields, s); r.calls == s.calls && r.journal == s.journal && r.tree == s.tree
  {
    hide IndexOf, PairName, PairPath;
    if pairs != [] {
      if IndexOf(pairs[0], '=') < 1 { FieldsKeepRest(pairs[1..], fields, s); }
      else {
        var path := PairPath(pairs[0]);
        FieldsKeepRest(pairs[1..], fields, Bind(s, PairName(pairs[0]), if path in fields then Trim(fields[path]) else ""));
      }
    }
  }

  lemma {:induction false} FieldsAgree(pairs: seq<string>, fields: map<string, string>, a: State, b: State)
    requires a.vars == b.vars
    ensures CaptureFields(pairs, fields, a).vars == CaptureFields(pairs, fields, b).vars
  {
    hide IndexOf, PairName, PairPath;
    if pairs != [] {
      if IndexOf(pairs[0], '=') < 1 { FieldsAgree(pairs[1..], fields, a, b); }
      else {
        var path := PairPath(pairs[0]);
        var value := if path in fields then Trim(fields[path]) else "";
        FieldsAgree(pairs[1..], fields, Bind(a, PairName(pairs[0]), value), Bind(b, PairName(pairs[0]), value));
      }
    }
  }

  // ---------------------------------------------------------------------------
  // Captures
  // ---------------------------------------------------------------------------

  /** The pair reads `name=path`, split at its first `=`, both sides trimmed. */
  predicate Spells(pair: string, name: string, path: string) {
    exists k | 0 < k < |pair| :: pair[k] == '=' && '=' !in pair[..k] && Trim(pair[..k]) == name && Trim(pair[k + 1..]) == path
  }

  lemma PairSpells(pair: string)
    ensures IndexOf(pair, '=') >= 1 ==> forall name, path :: Spells(pair, name, path) <==> name == PairName(pair) && path == PairPath(pair)
    ensures IndexOf(pair, '=') < 1 ==> forall name, path :: !Spells(pair, name, path)
  {
    hide Trim;
    var eq := IndexOf(pair, '=');
    forall k | 0 < k < |pair| && pair[k] == '=' && '=' !in pair[..k] ensures k == eq {
      assert forall j | 0 <= j < k :: pair[..k][j] == pair[j];
    }
    if eq >= 1 {
      assert '=' !in pair[..eq];
      assert pair[eq] == '=';
      forall name, path ensures Spells(pair, name, path) <==> name == PairName(pair) && path == PairPath(pair) {}
    }
  }

  /** Pair `k` is the last one that binds `name`. */
  ghost predicate LastPair(pairs: seq<string>, name: string, path: string, k: nat) {
    k < |pairs| && Spells(pairs[k], name, path) && forall j, other | k < j < |pairs| :: !Spells(pairs[j], name, other)
  }

  ghost predicate Named(pairs: seq<string>, name: string) { exists k, path | 0 <= k < |pairs| :: Spells(pairs[k], name, path) }

  /** `vars` became `vars'` by binding, for each name, what `value` gives for the path of its last pair. */
  ghost predicate BoundBy(pairs: seq<string>, value: string -> string, vars: Bindings, vars': Bindings) {
    && (forall name, path, k: nat :: LastPair(pairs, name, path, k) ==> name in vars' && vars'[name] == Var(value(path), false))
    && (forall name :: !Named(pairs, name) ==> (name in vars' <==> name in vars) && (name in vars ==> vars'[name] == vars[name]))
  }

  lemma BoundByNone(pairs: seq<string>, value: string -> string, vars: Bindings)
    requires pairs == []
    ensures BoundBy(pairs, value, vars, vars)
  {
  }

  lemma NamedLater(pairs: seq<string>, name: string)
    requires pairs != []
    ensures Named(pairs, name) <==> (exists path :: Spells(pairs[0], name, path)) || Named(pairs[1..], name)
  {
    hide Spells;
    if k, path :| 0 <= k < |pairs| && Spells(pairs[k], name, path) && k > 0 { assert Spells(pairs[1..][k - 1], name, path); }
    if k, path :| 0 <= k < |pairs[1..]| && Spells(pairs[1..][k], name, path) { assert Spells(pairs[k + 1], name, path); }
    if path :| Spells(pairs[0], name, path) { assert Spells(pairs[0], name, path); }
  }

  lemma LastLater(pairs: seq<string>, name: string, path: string, k: nat)
    requires LastPair(pairs, name, path, k)
    ensures k > 0 ==> LastPair(pairs[1..], name, path, k - 1)
    ensures k == 0 ==> !Named(pairs[1..], name)
  {
    hide Spells;
    if k == 0 {
      forall j, other | 0 <= j < |pairs[1..]| ensures !Spells(pairs[1..][j], name, other) { assert pairs[1..][j] == pairs[j + 1]; }
    } else {
      forall j, other | k - 1 < j < |pairs[1..]| ensures !Spells(pairs[1..][j], name, other) { assert pairs[1..][j] == pairs[j + 1]; }
    }
  }

  /** One pair, then the others. */
  lemma BoundByFirst(pairs: seq<string>, value: string -> string, vars: Bindings, mid: Bindings, vars': Bindings)
    requires pairs != [] && BoundBy(pairs[1..], value, mid, vars')
    requires mid == if IndexOf(pairs[0], '=') < 1 then vars else vars[PairName(pairs[0]) := Var(value(PairPath(pairs[0])), false)]
    ensures BoundBy(pairs, value, vars, vars')
  {
    hide Spells, IndexOf, PairName, PairPath;
    PairSpells(pairs[0]);
    forall name, path, k: nat | LastPair(pairs, name, path, k) ensures name in vars' && vars'[name] == Var(value(path), false) {
      LastLater(pairs, name, path, k);
    }
    forall name | !Named(pairs, name)
      ensures (name in vars' <==> name in vars) && (name in vars ==> vars'[name] == vars[name])
    {
      NamedLater(pairs, name);
      if IndexOf(pairs[0], '=') >= 1 { assert Spells(pairs[0], PairName(pairs[0]), PairPath(pairs[0])); }
    }
  }

  lemma {:induction false} FieldsBound(pairs: seq<string>, fields: map<string, string>, s: State)
    ensures BoundBy(pairs, path => if path in fields then Trim(fields[path]) else "", s.vars, CaptureFields(pairs, fields, s).vars)
  {
    hide IndexOf, PairName, PairPath, BoundBy, Trim;
    var value := path => if path in fields then Trim(fields[path]) else "";
    if pairs == [] {
      BoundByNone(pairs, value, s.vars);
    } else {
      var mid := if IndexOf(pairs[0], '=') < 1 then s
                 else Bind(s, PairName(pairs[0]), value(PairPath(pairs[0])));
      FieldsBound(pairs[1..], fields, mid);
      BoundByFirst(pairs, value, s.vars, mid.vars, CaptureFields(pairs, fields, s).vars);
    }
  }

  lemma {:induction false} PairsBound(w: World, validate: Option<string>, pairs: seq<string>, json: Json, s: State)
    requires CapturePairs(w, validate, pairs, json, s).error.None?
    ensures BoundBy(pairs, path => w.pick(json, path), s.vars, CapturePairs(w, validate, pairs, json, s).s.vars)
  {
    hide IndexOf, PairName, PairPath, BoundBy;
    var value := path => w.pick(json, path);
    if pairs == [] {
      BoundByNone(pairs, value, s.vars);
    } else if IndexOf(pairs[0], '=') < 1 {
      PairsBound(w, validate, pairs[1..], json, s);
      BoundByFirst(pairs, value, s.vars, s.vars, CapturePairs(w, validate, pairs, json, s).s.vars);
    } else {
      var r := Capture(w, validate, PairName(pairs[0]), w.pick(json, PairPath(pairs[0])), s);
      PairsBound(w, validate, pairs[1..], json, r.s);
      BoundByFirst(pairs, value, s.vars, r.s.vars, CapturePairs(w, validate, pairs, json, s).s.vars);
    }
  }

  /** No bound value fails the shape the run declares. */
  predicate Shaped(w: World, validate: Option<string>, value: string) {
    validate.Some? && validate.value != "" ==> w.matches(validate.value, None, value)
  }

  lemma {:induction false} PairsShaped(w: World, validate: Option<string>, pairs: seq<string>, json: Json, s: State)
    requires CapturePairs(w, validate, pairs, json, s).error.None?
    ensures forall k, name, path :: 0 <= k < |pairs| && Spells(pairs[k], name, path) ==> Shaped(w, validate, w.pick(json, path))
  {
    hide IndexOf, PairName, PairPath, Spells;
    if pairs != [] {
      PairSpells(pairs[0]);
      var r := if IndexOf(pairs[0], '=') < 1 then Done(s, None)
               else Capture(w, validate, PairName(pairs[0]), w.pick(json, PairPath(pairs[0])), s);
      PairsShaped(w, validate, pairs[1..], json, r.s);
      forall k, name, path | 0 <= k < |pairs| && Spells(pairs[k], name, path) ensures Shaped(w, validate, w.pick(json, path)) {
        if k > 0 { assert Spells(pairs[1..][k - 1], name, path); }
      }
    }
  }

  /**
   * What one command's output binds. A bare name takes the trimmed output; `a=.x,b=.y` parses
   * it as JSON, and each name takes the value at its last pair's path. Nothing of another
   * shape than `validate:` is bound, and nothing bound is secret.
   */
  lemma OutputBound(w: World, i: nat, op: LineOp, l: string, s: State)
    requires op.RunCommand? && op.capture.Some? && DoLine(w, i, op, l, s).error.None?
    ensures var r := DoLine(w, i, op, l, s).s;
      var output := Trim(w.exec(s.tick + 1, Shell(Filled(l, s.vars))).text);
      if '=' !in op.capture.value then
        r.vars == s.vars[op.capture.value := Var(output, false)] && Shaped(w, op.validate, output)
      else
        var pairs := SplitAt(op.capture.value, ',');
        w.parse(output).Some?
        && BoundBy(pairs, path => w.pick(w.parse(output).value, path), s.vars, r.vars)
        && forall k, name, path :: 0 <= k < |pairs| && Spells(pairs[k], name, path) ==>
             Shaped(w, op.validate, w.pick(w.parse(output).value, path))
  {
    hide Substitute, CapturePairs, SplitAt, BoundBy, Spells, Trim;
    var cmd := Shell(Filled(l, s.vars));
    var ran, output := Exec(w, i, cmd, s), Trim(Answer(w, s, cmd).text);
    if '=' in op.capture.value && w.parse(output).Some? {
      PairsBound(w, op.validate, SplitAt(op.capture.value, ','), w.parse(output).value, ran.s);
      PairsShaped(w, op.validate, SplitAt(op.capture.value, ','), w.parse(output).value, ran.s);
    }
  }

  /** A streamed step binds, for each name of its capture, the trimmed field its last pair names, or nothing's text. */
  lemma FieldsOfStepBound(w: World, i: nat, d: Directive, s: State)
    requires d.kind == "run" && "effect" in d.attrs && d.attrs["effect"] == "step" && ApplyOne(w, i, d, s).error.None?
    requires "capture" in d.attrs && d.attrs["capture"] != ""
    ensures var fields := w.stream(s.tick + 1, Filled(JoinLines(d.body), s.vars)).fields;
      BoundBy(SplitAt(d.attrs["capture"], ','), path => if path in fields then Trim(fields[path]) else "", s.vars, ApplyOne(w, i, d, s).s.vars)
  {
    hide CaptureFields, Substitute, SplitAt, JoinLines, BoundBy, ApplyOne, Trim;
    StepStreamed(w, i, d, s);
    FieldsBound(SplitAt(d.attrs["capture"], ','), w.stream(s.tick + 1, Filled(JoinLines(d.body), s.vars)).fields, s);
  }

  // ---------------------------------------------------------------------------
  // Environment values
  // ---------------------------------------------------------------------------

  /** The line assigns a value that is not blank to `key`: spaces, the key, spaces, `=`, and a value on the same line. */
  ghost predicate Assigns(line: string, key: string) {
    IsIdent(key) && exists lead: string, gap: string, value: string ::
      && line == lead + key + gap + "=" + value && AllSpace(lead) && AllSpace(gap)
      && (forall k | 0 <= k < |value| :: !IsLineTerminator(value[k])) && Trim(value) != ""
  }

  predicate AllSpace(s: string) { forall k | 0 <= k < |s| :: IsSpace(s[k]) }

  lemma {:induction false} SkippedSpaces(s: string, i: nat, k: nat)
    requires i <= k <= |s| && (forall j | i <= j < k :: IsSpace(s[j])) && (k < |s| ==> !IsSpace(s[k]))
    ensures SkipSpaces(s, i) == k
    decreases k - i
  {
    if i < k { SkippedSpaces(s, i + 1, k); }
  }

  lemma {:induction false} SkippedIdent(s: string, i: nat, k: nat)
    requires i <= k <= |s| && (forall j | i <= j < k :: IsIdentPart(s[j])) && (k < |s| ==> !IsIdentPart(s[k]))
    ensures SkipIdent(s, i) == k
    decreases k - i
  {
    if i < k { SkippedIdent(s, i + 1, k); }
  }

  lemma {:induction false} StartTrimmed(s: string) returns (lead: string)
    ensures s == lead + TrimStart(s) && AllSpace(lead)
  {
    lead := "";
    if s != "" && IsSpace(s[0]) {
      lead := StartTrimmed(s[1..]);
      lead := [s[0]] + lead;
    }
  }

  lemma SetsParts(l: string, name: nat, eq: nat) returns (gap: string, value: string)
    requires name <= eq < |l| && l[eq] == '='
    requires forall k | name <= k < eq :: IsSpace(l[k])
    requires forall k | eq < k < |l| :: !IsLineTerminator(l[k])
    ensures l == l[..name] + gap + "=" + value && AllSpace(gap) && value == l[eq + 1..]
    ensures forall k | 0 <= k < |value| :: !IsLineTerminator(value[k])
  {
    hide IsSpace, IsLineTerminator;
    gap, value := l[name..eq], l[eq + 1..];
    assert l[..name] + gap == l[..eq];
    assert l == l[..eq] + "=" + value;
  }

  lemma SetsKeyAssigns(line: string, key: string)
    requires SetsKey(line, key)
    ensures Assigns(line, key)
  {
    hide Trim, TrimStart, IsSpace, IsIdent, IsLineTerminator, SkipIdent, SkipSpaces, AllSpace;
    var l := TrimStart(line);
    var name := SkipIdent(l, 0);
    var lead := StartTrimmed(line);
    var gap, value := SetsParts(l, name, SkipSpaces(l, name));
    Reassembled(lead, key, gap, value);
  }

  lemma Reassembled(lead: string, key: string, gap: string, value: string)
    ensures lead + (key + gap + "=" + value) == lead + key + gap + "=" + value
  {
  }

  /** The pattern's parts are where the text says. */
  lemma PartsFound(key: string, gap: string, value: string)
    requires IsIdent(key) && AllSpace(gap)
    ensures var l := key + gap + "=" + value;
      SkipIdent(l, 0) == |key| && SkipSpaces(l, |key|) == |key| + |gap| && l[|key| + |gap|] == '='
      && l[..|key|] == key && l[|key| + |gap| + 1..] == value && !IsSpace(l[0])
  {
    hide IsSpace, SkipIdent, SkipSpaces;
    var l := key + gap + "=" + value;
    IdentIsNoSpace(key);
    EqualsIsNoSpace();
    assert l[0] == key[0];
    assert forall j | 0 <= j < |key| :: l[j] == key[j];
    SpaceOrEquals(key, gap, value);
    SkippedIdent(l, 0, |key|);
    assert forall j | |key| <= j < |key| + |gap| :: l[j] == gap[j - |key|];
    assert l[|key| + |gap|] == '=';
    SkippedSpaces(l, |key|, |key| + |gap|);
  }

  lemma EqualsIsNoSpace()
    ensures !IsSpace('=')
  {
  }

  lemma AssignsSetsKey(line: string, key: string)
    requires Assigns(line, key)
    ensures SetsKey(line, key)
  {
    hide Trim, IsSpace, IsIdent, IsLineTerminator, SkipIdent, SkipSpaces;
    var lead: string, gap: string, value: string :|
      && line == lead + key + gap + "=" + value && AllSpace(lead) && AllSpace(gap)
      && (forall k | 0 <= k < |value| :: !IsLineTerminator(value[k])) && Trim(value) != "";
    var l := key + gap + "=" + value;
    Reassembled(lead, key, gap, value);
    TrimStartSkips(lead, l);
    PartsFound(key, gap, value);
    assert TrimStart(l) == l;
    assert forall k | |key| + |gap| < k < |l| :: l[k] == value[k - |key| - |gap| - 1];
  }

  lemma SpaceOrEquals(key: string, gap: string, value: string)
    requires AllSpace(gap)
    ensures var l := key + gap + "=" + value; |key| < |l| && !IsIdentPart(l[|key|])
  {
    var l := key + gap + "=" + value;
    if gap == "" { assert l[|key|] == '='; } else { assert l[|key|] == gap[0]; }
  }

  lemma IdentIsNoSpace(key: string)
    requires IsIdent(key)
    ensures !IsSpace(key[0])
  {
  }

  /** The engine finds a key set exactly when some line of the file assigns it a value that is not blank. */
  lemma SetsKeyIff(line: string, key: string)
    ensures SetsKey(line, key) <==> Assigns(line, key)
  {
    hide SetsKey, Assigns;
    if SetsKey(line, key) { SetsKeyAssigns(line, key); }
    if Assigns(line, key) { AssignsSetsKey(line, key); }
  }

  ghost predicate KeyAssigned(lines: seq<string>, key: string) { exists k | 0 <= k < |lines| :: Assigns(lines[k], key) }

  /** A `key=value` line of the directive, split at its first `=`. */
  lemma EntryReads(a: string, b: string)
    requires '=' !in a
    ensures EnvKey(a + "=" + b) == Trim(a) == EnvName(a + "=" + b) && EnvTemplate(a + "=" + b) == Trim(b)
  {
    hide Trim;
    var s := a + "=" + b;
    assert s[|a|] == '=';
    forall k | 0 <= k < |a| ensures s[k] != '=' { assert s[k] == a[k]; }
    assert IndexOf(s, '=') == |a| && s[..|a|] == a && s[|a| + 1..] == b;
  }

  /** The lines the directive adds to those of the file: each setting whose key no line before it assigns. */
  ghost function Settings(lines: seq<string>, body: seq<string>, vars: Bindings): seq<string>
    decreases |body|
  {
    if body == [] then []
    else if KeyAssigned(lines, EnvKey(body[0])) then Settings(lines, body[1..], vars)
    else
      var setting := SplitLines(EnvKey(body[0]) + "=" + Filled(EnvTemplate(body[0]), vars));
      setting + Settings(Ended(lines) + setting + [""], body[1..], vars)
  }

  lemma KeySetIs(w: World, tree: Tree, key: string)
    ensures EnvKeySet(w, tree, key) <==> KeyAssigned(ReadLines(w, tree, ".env"), key)
  {
    hide SetsKey, Assigns, ReadLines;
    var lines := ReadLines(w, tree, ".env");
    forall k | 0 <= k < |lines| ensures SetsKey(lines[k], key) <==> Assigns(lines[k], key) { SetsKeyIff(lines[k], key); }
  }

  lemma SetOne(w: World, i: nat, l: string, s: State)
    requires DoLine(w, i, SetEnv, l, s).error.None?
    ensures var r, lines := DoLine(w, i, SetEnv, l, s).s, ReadLines(w, s.tree, ".env");
      && Substitute(EnvTemplate(l), s.vars).Text?
      && (if KeyAssigned(lines, EnvKey(l)) then r == s
          else ReadLines(w, r.tree, ".env") == Ended(lines) + SplitLines(EnvKey(l) + "=" + Filled(EnvTemplate(l), s.vars)) + [""]
               && r.journal == s.journal + [EnvSet(EnvKey(l))])
      && (forall p | p != ".env" :: At(r.tree, p) == At(s.tree, p)) && r.calls == s.calls && r.vars == s.vars
  {
    hide Substitute, EnvKeySet, KeyAssigned, SplitLines, EnvKey, EnvTemplate, ReadLines;
    KeySetIs(w, s.tree, EnvKey(l));
    var text := SplitLines(EnvKey(l) + "=" + Filled(EnvTemplate(l), s.vars));
    TextRead(w, s.tree, ".env", WithLines(ReadLines(w, s.tree, ".env"), text));
  }

  lemma EndedSettings(lines: seq<string>, setting: seq<string>, rest: seq<string>)
    requires setting != []
    ensures Ended(Ended(lines) + setting + [""]) + rest == Ended(lines) + (setting + rest)
  {
    assert Ended(Ended(lines) + setting + [""]) == Ended(lines) + setting;
  }

  lemma {:induction false} SetLines(w: World, i: nat, body: seq<string>, s: State)
    requires Each(w, i, SetEnv, body, s).error.None?
    ensures var r, lines := Each(w, i, SetEnv, body, s).s, ReadLines(w, s.tree, ".env");
      && (forall k | 0 <= k < |body| :: Substitute(EnvTemplate(body[k]), s.vars).Text?)
      && (if Settings(lines, body, s.vars) == [] then r.tree == s.tree && r.journal == s.journal
          else ReadLines(w, r.tree, ".env") == Ended(lines) + Settings(lines, body, s.vars) + [""])
      && (forall p | p != ".env" :: At(r.tree, p) == At(s.tree, p)) && r.calls == s.calls && r.vars == s.vars
  {
    hide DoLine, Substitute, KeyAssigned, SplitLines, EnvKey, EnvTemplate, ReadLines, Filled, Ended, At;
    if body != [] {
      var lines := ReadLines(w, s.tree, ".env");
      var r := DoLine(w, i, SetEnv, body[0], s);
      SetOne(w, i, body[0], s);
      SetLines(w, i, body[1..], r.s);
      var setting := SplitLines(EnvKey(body[0]) + "=" + Filled(EnvTemplate(body[0]), s.vars));
      EndedSettings(lines, setting, Settings(ReadLines(w, r.s.tree, ".env"), body[1..], s.vars));
      assert setting + [] == setting;
    }
  }

  /**
   * An env-set that finished: each line's key, unless some line assigns it already, stands at
   * the end of `.env` with its filled value, in order; nothing else changed.
   */
  lemma SettingsAdded(w: World, i: nat, d: Directive, s: State)
    requires d.kind == "env-set" && ApplyOne(w, i, d, s).error.None?
    ensures var r, lines := ApplyOne(w, i, d, s).s, ReadLines(w, s.tree, ".env");
      var added := Settings(lines, d.body, s.vars);
      && (if added == [] then r.tree == s.tree && r.journal == s.journal
          else ReadLines(w, r.tree, ".env") == Ended(lines) + added + [""])
      && (forall k | 0 <= k < |d.body| :: Substitute(EnvTemplate(d.body[k]), s.vars).Text?)
      && (forall p | p != ".env" :: At(r.tree, p) == At(s.tree, p)) && r.calls == s.calls && r.vars == s.vars
  {
    hide Each, ReadLines, Settings, Substitute, EnvTemplate;
    SetLines(w, i, d.body, s);
  }

  // ---------------------------------------------------------------------------
  // Merges
  // ---------------------------------------------------------------------------

  /** The element carries the merged object's key: the same scalar, or, like the object, no such key. */
  predicate Matches(element: Json, obj: Json, key: string) {
    match element
    case Obj(fields) =>
      var mine := if obj.Obj? && key in obj.fields then Some(obj.fields[key]) else None;
      if key in fields then mine == Some(fields[key]) && !fields[key].Arr? && !fields[key].Obj? else mine.None?
    case Arr(_) => !(obj.Obj? && key in obj.fields)
    case _ => false
  }

  lemma MatchesIs(element: Json, obj: Json, key: string)
    ensures ElementHas(element, key, Field(obj, key)) <==> Matches(element, obj, key)
  {
  }

  /** `k` is the first element that matches, or the length when none does. */
  ghost predicate FirstMatch(items: seq<Json>, obj: Json, key: string, k: nat) {
    k <= |items| && (k < |items| ==> Matches(items[k], obj, key)) && forall j | 0 <= j < k :: !Matches(items[j], obj, key)
  }

  /**
   * A merge that finished: an object no element matches is pushed; one that an element
   * matches replaces it in a refresh, and is left out of an install.
   */
  lemma MergedElement(w: World, i: nat, d: Directive, s: State) returns (k: nat)
    requires d.kind == "json-merge" && "into" in d.attrs && "key" in d.attrs && ApplyOne(w, i, d, s).error.None?
    ensures var r, path, key := ApplyOne(w, i, d, s).s, d.attrs["into"], d.attrs["key"];
      && w.parse(JoinLines(d.body)).Some? && ReadArray(w, s.tree, path).Some?
      && var obj, items := w.parse(JoinLines(d.body)).value, ReadArray(w, s.tree, path).value;
      && FirstMatch(items, obj, key, k)
      && (if k == |items| then
            ReadArray(w, r.tree, path) == Some(items + [obj]) && r.journal == s.journal + [Merged(path, key, Field(obj, key), None)]
          else if w.mode == Refresh && items[k] != obj then
            ReadArray(w, r.tree, path) == Some(items[k := obj])
            && r.journal == s.journal + [Merged(path, key, Field(obj, key), Some(items[k]))]
          else r == s)
      && (forall p | p != path :: At(r.tree, p) == At(s.tree, p)) && r.calls == s.calls && r.vars == s.vars
  {
    hide JoinLines, Matches, ElementHas;
    var path, key := d.attrs["into"], d.attrs["key"];
    var obj, items := w.parse(JoinLines(d.body)).value, ReadArray(w, s.tree, path).value;
    k := FindElement(items, key, Field(obj, key));
    forall j | 0 <= j < |items| ensures ElementHas(items[j], key, Field(obj, key)) <==> Matches(items[j], obj, key) {
      MatchesIs(items[j], obj, key);
    }
  }
}
