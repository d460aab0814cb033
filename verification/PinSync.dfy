/** Skill pins and their shadow file: grouping, classification, and the sync transaction. */
module PinSync {
  import opened Text
  import Lint

  // ---------------------------------------------------------------------------
  // Data
  // ---------------------------------------------------------------------------

  datatype Pin = Pin(name: string, version: string, file: string, line: nat, via: string, detail: string, spec: bool)

  datatype OtherPin = OtherPin(pin: string, kind: string, source: string, why: string)

  datatype Scan = Scan(npm: seq<Pin>, other: seq<OtherPin>, problems: seq<string>)

  type Pins = map<string, seq<Pin>>

  datatype Entry = Entry(version: string, sources: seq<string>)

  /** The shadow manifest as parsed: its dependencies, and the version each was generated at. */
  datatype Shadow = Shadow(dependencies: map<string, string>, generatedAt: map<string, string>)

  /** The skill files, their temporary files, the two generated files, and the number of writes tried so far. */
  datatype Disk = Disk(
    files: map<string, string>,
    temps: map<string, string>,
    manifest: Option<string>,
    notCovered: Option<string>,
    writes: nat)

  /**
   * The scanner, the edit of one line, the skill lint, JSON, the order of names, and which
   * file operations succeed. A failed write of a temporary file or of a generated file may
   * leave anything in that file.
   */
  datatype World = World(
    collect: map<string, string> -> Scan,
    edit: (Pin, string, string) -> Option<string>,
    lint: (string, string, string) -> seq<string>,
    parse: string -> Option<Shadow>,
    renderPins: (map<string, string>, map<string, Entry>) -> string,
    renderOther: seq<OtherPin> -> string,
    sources: seq<Pin> -> seq<string>,
    sort: set<string> -> seq<string>,
    tempWritten: (nat, string) -> bool,
    tempLeft: (nat, string) -> string,
    renamed: (nat, string) -> bool,
    tempRemoved: (nat, string) -> bool,
    writable: (nat, string) -> bool,
    spoiled: nat -> Option<string>)

  datatype Outcome =
    | Synced(bumped: seq<string>)
    | Refused(stuck: seq<string>)
    | Threw

  datatype Result = Result(outcome: Outcome, disk: Disk)

  const MANIFEST := ".github/skill-pins/package.json"

  const NOT_COVERED := ".github/skill-pins/not-covered.json"

  /** `sort` lists exactly the names it is given. */
  ghost predicate Sorts(w: World) { forall names, n :: n in w.sort(names) <==> n in names }

  /** What is written as JSON is read back. */
  ghost predicate RoundTrips(w: World) {
    forall deps: map<string, string>, entries: map<string, Entry> :: w.parse(w.renderPins(deps, entries)) ==
      Some(Shadow(deps, map n | n in entries :: entries[n].version))
  }

  // ---------------------------------------------------------------------------
  // Grouping
  // ---------------------------------------------------------------------------

  function Listed(pins: Pins, name: string): seq<Pin> { if name in pins then pins[name] else [] }

  function Group(npm: seq<Pin>, into: Pins): Pins {
    if npm == [] then into else Group(npm[1..], into[npm[0].name := Listed(into, npm[0].name) + [npm[0]]])
  }

  function PinsOf(scan: Scan): Pins { Group(scan.npm, map[]) }

  /** The pins of one package, in scan order. */
  function Named(npm: seq<Pin>, name: string): seq<Pin> {
    if npm == [] then [] else (if npm[0].name == name then [npm[0]] else []) + Named(npm[1..], name)
  }

  lemma {:induction false} GroupAppends(npm: seq<Pin>, into: Pins, name: string)
    ensures Listed(Group(npm, into), name) == Listed(into, name) + Named(npm, name)
  {
    if npm != [] {
      var next := into[npm[0].name := Listed(into, npm[0].name) + [npm[0]]];
      GroupAppends(npm[1..], next, name);
      if npm[0].name == name { Regroup(Listed(into, name), [npm[0]], Named(npm[1..], name)); }
    }
  }

  /** Grouping drops no pin, adds none and keeps the order: a package's group is its pins as scanned. */
  lemma GroupIsComplete(scan: Scan, name: string)
    ensures Listed(PinsOf(scan), name) == Named(scan.npm, name)
  {
    hide Group, Named;
    GroupAppends(scan.npm, map[], name);
    assert [] + Named(scan.npm, name) == Named(scan.npm, name);
  }

  /** Every group is the non-empty list of pins of its name. */
  predicate Grouped(pins: Pins, npm: seq<Pin>) {
    forall n | n in pins :: pins[n] != [] && forall k | 0 <= k < |pins[n]| :: pins[n][k].name == n && pins[n][k] in npm
  }

  lemma {:induction false} GroupIsGrouped(npm: seq<Pin>, into: Pins, all: seq<Pin>)
    requires Grouped(into, all) && forall k | 0 <= k < |npm| :: npm[k] in all
    ensures Grouped(Group(npm, into), all)
  {
    if npm != [] {
      var next := into[npm[0].name := Listed(into, npm[0].name) + [npm[0]]];
      assert npm[0] in all;
      assert Grouped(next, all);
      forall k | 0 <= k < |npm[1..]| ensures npm[1..][k] in all { assert npm[1..][k] == npm[k + 1]; }
      GroupIsGrouped(npm[1..], next, all);
    }
  }

  lemma PinsAreGrouped(scan: Scan)
    ensures Grouped(PinsOf(scan), scan.npm)
  {
    GroupIsGrouped(scan.npm, map[], scan.npm);
  }

  predicate OneVersion(list: seq<Pin>) { forall k | 0 <= k < |list| :: list[k].version == list[0].version }

  /** The scanner's own problems, and packages pinned at two versions. */
  predicate HasProblems(scan: Scan) {
    scan.problems != [] || exists n | n in PinsOf(scan) :: !OneVersion(PinsOf(scan)[n])
  }

  // ---------------------------------------------------------------------------
  // The shadow file
  // ---------------------------------------------------------------------------

  function VersionIn(pins: Pins, n: string): Option<string> {
    if n in pins && pins[n] != [] then Some(pins[n][0].version) else None
  }

  function Lookup(m: map<string, string>, n: string): Option<string> { if n in m then Some(m[n]) else None }

  datatype Verdict = Agrees | Bumped | Conflict | Orphaned | Missing | Outdated

  /** Only the shadow moved, both moved, or the shadow is stale. */
  function Classify(shadow: Shadow, pins: Pins, n: string): Verdict {
    var skill, asked, at := VersionIn(pins, n), Lookup(shadow.dependencies, n), Lookup(shadow.generatedAt, n);
    if skill == asked then Agrees
    else if n in pins && asked.Some? && at == skill then Bumped
    else if n in pins && asked.Some? && at.Some? && asked != at then Conflict
    else if n !in pins then Orphaned
    else if asked.None? then Missing
    else Outdated
  }

  function Names(w: World, shadow: Shadow, pins: Pins): seq<string> { w.sort(shadow.dependencies.Keys + pins.Keys) }

  /** The names with one of these verdicts, in order. */
  function Filter(shadow: Shadow, pins: Pins, names: seq<string>, vs: set<Verdict>): seq<string> {
    if names == [] then []
    else (if Classify(shadow, pins, names[0]) in vs then [names[0]] else []) + Filter(shadow, pins, names[1..], vs)
  }

  const BUMPED := {Bumped}

  const CONFLICT := {Conflict}

  const STALE := {Orphaned, Missing, Outdated}

  function ReadShadow(w: World, disk: Disk): Option<Shadow> {
    match disk.manifest case None => None case Some(text) => w.parse(text)
  }

  function Asked(shadow: Shadow, n: string): string { if n in shadow.dependencies then shadow.dependencies[n] else "" }

  function Dependencies(pins: Pins): map<string, string> {
    map n | n in pins && pins[n] != [] :: pins[n][0].version
  }

  function Manifest(w: World, scan: Scan): string {
    var pins := PinsOf(scan);
    w.renderPins(Dependencies(pins), map n | n in Dependencies(pins) :: Entry(pins[n][0].version, w.sources(pins[n])))
  }

  /** The generated files match the skills. */
  predicate Check(w: World, disk: Disk) {
    var scan := w.collect(disk.files);
    !HasProblems(scan) && disk.manifest == Some(Manifest(w, scan)) && disk.notCovered == Some(w.renderOther(scan.other))
  }

  // ---------------------------------------------------------------------------
  // Edits
  // ---------------------------------------------------------------------------

  /** The edited lines of each file, in the order files were first edited. */
  datatype Edits = Edits(order: seq<string>, lines: map<string, seq<string>>)

  function LinesFor(files: map<string, string>, edits: Edits, file: string): seq<string>
    requires file in files
  {
    if file in edits.lines then edits.lines[file] else SplitLines(files[file])
  }

  function EditPin(w: World, files: map<string, string>, p: Pin, to: string, edits: Edits): Option<Edits> {
    if p.file !in files then None
    else
      var lines := LinesFor(files, edits, p.file);
      if p.line == 0 || p.line > |lines| then None
      else
        match w.edit(p, lines[p.line - 1], to)
        case None => None
        case Some(next) =>
          Some(Edits(if p.file in edits.lines then edits.order else edits.order + [p.file],
                     edits.lines[p.file := lines[p.line - 1 := next]]))
  }

  function EditPins(w: World, files: map<string, string>, pins: seq<Pin>, to: string, edits: Edits): Option<Edits> {
    if pins == [] then Some(edits)
    else
      match EditPin(w, files, pins[0], to, edits)
      case None => None
      case Some(next) => EditPins(w, files, pins[1..], to, next)
  }

  function EditAll(w: World, files: map<string, string>, shadow: Shadow, pins: Pins, names: seq<string>, edits: Edits): Option<Edits> {
    if names == [] then Some(edits)
    else
      match EditPins(w, files, Listed(pins, names[0]), Asked(shadow, names[0]), edits)
      case None => None
      case Some(next) => EditAll(w, files, shadow, pins, names[1..], next)
  }

  /** Edited files are skill files, each in the order list. */
  predicate EditsOf(files: map<string, string>, edits: Edits) {
    forall k | 0 <= k < |edits.order| :: edits.order[k] in files && edits.order[k] in edits.lines
  }

  // ---------------------------------------------------------------------------
  // Writing and rolling back
  // ---------------------------------------------------------------------------

  datatype Wrote = Wrote(ok: bool, disk: Disk)

  /** Without the temporary file, unless even its removal fails. */
  function Cleaned(w: World, disk: Disk, file: string, left: string): Disk {
    disk.(temps := if w.tempRemoved(disk.writes, file) then disk.temps - {file} else disk.temps[file := left])
  }

  /** Write the new text beside the file, then rename it over the file. */
  function Replace(w: World, disk: Disk, file: string, text: string): Wrote {
    var n := disk.writes + 1;
    var d := disk.(writes := n);
    if !w.tempWritten(n, file) then Wrote(false, Cleaned(w, d, file, w.tempLeft(n, file)))
    else if !w.renamed(n, file) then Wrote(false, Cleaned(w, d, file, text))
    else Wrote(true, d.(files := d.files[file := text], temps := d.temps - {file}))
  }

  datatype Written = Written(ok: bool, disk: Disk, files: seq<string>)

  function WriteAll(w: World, disk: Disk, order: seq<string>, edits: Edits, written: seq<string>): Written
    decreases |order|
  {
    if order == [] then Written(true, disk, written)
    else
      var r := Replace(w, disk, order[0], if order[0] in edits.lines then JoinLines(edits.lines[order[0]]) else "");
      if !r.ok then Written(false, r.disk, written)
      else WriteAll(w, r.disk, order[1..], edits, written + [order[0]])
  }

  datatype Restored = Restored(stuck: seq<string>, disk: Disk)

  function Restore(w: World, disk: Disk, written: seq<string>, originals: map<string, string>): Restored
    decreases |written|
  {
    if written == [] then Restored([], disk)
    else
      var r := Replace(w, disk, written[0], if written[0] in originals then originals[written[0]] else "");
      var rest := Restore(w, r.disk, written[1..], originals);
      if r.ok then rest else Restored([written[0]] + rest.stuck, rest.disk)
  }

  /** The second scan shows the bumped packages at their new versions and everything else as before. */
  predicate Verified(before: Pins, after: Scan, shadow: Shadow, bumped: seq<string>) {
    var now := PinsOf(after);
    && !HasProblems(after)
    && (forall n | n in before ::
          |Listed(now, n)| == |before[n]|
          && forall k | 0 <= k < |Listed(now, n)| ::
               Some(Listed(now, n)[k].version) == if n in bumped then Some(Asked(shadow, n)) else VersionIn(before, n))
    && (forall n | n in now :: n in before)
  }

  function WriteGenerated(w: World, disk: Disk, scan: Scan): Wrote {
    var n := disk.writes + 1;
    if !w.writable(n, MANIFEST) then Wrote(false, disk.(manifest := w.spoiled(n), writes := n))
    else
      var d := disk.(manifest := Some(Manifest(w, scan)), writes := n + 1);
      if !w.writable(n + 1, NOT_COVERED) then Wrote(false, d.(notCovered := w.spoiled(n + 1)))
      else Wrote(true, d.(notCovered := Some(w.renderOther(scan.other))))
  }

  predicate LintBreaks(w: World, files: map<string, string>, edits: Edits) {
    exists k | 0 <= k < |edits.order| ::
      edits.order[k] in files && edits.order[k] in edits.lines
      && w.lint(edits.order[k], files[edits.order[k]], JoinLines(edits.lines[edits.order[k]])) != []
  }

  const NO_EDITS := Edits([], map[])

  /** Roll back the written files. */
  function RollBack(w: World, start: Disk, now: Disk, written: seq<string>): Result {
    var back := Restore(w, now, written, start.files);
    Result(Refused(back.stuck), back.disk)
  }

  /** The writing half: replace the files, scan again, and undo it all if the second scan is not as expected. */
  function Commit(w: World, disk: Disk, shadow: Shadow, pins: Pins, bumped: seq<string>, edits: Edits): Result {
    var wrote := WriteAll(w, disk, edits.order, edits, []);
    if !wrote.ok then RollBack(w, disk, wrote.disk, wrote.files)
    else
      var after := w.collect(wrote.disk.files);
      if !Verified(pins, after, shadow, bumped) then RollBack(w, disk, wrote.disk, wrote.files)
      else
        var done := WriteGenerated(w, wrote.disk, after);
        Result(if done.ok then Synced(bumped) else Threw, done.disk)
  }

  function Sync(w: World, disk: Disk): Result {
    var scan := w.collect(disk.files);
    var pins := PinsOf(scan);
    var refused := Result(Refused([]), disk);
    if HasProblems(scan) then refused
    else
      match ReadShadow(w, disk)
      case None => refused
      case Some(shadow) =>
        var names := Names(w, shadow, pins);
        var bumped := Filter(shadow, pins, names, BUMPED);
        if Filter(shadow, pins, names, CONFLICT) != [] then refused
        else if exists k | 0 <= k < |bumped| :: !Lint.ExactSemver(Asked(shadow, bumped[k])) then refused
        else
          match EditAll(w, disk.files, shadow, pins, bumped, NO_EDITS)
          case None => refused
          case Some(edits) =>
            if LintBreaks(w, disk.files, edits) then refused
            else Commit(w, disk, shadow, pins, bumped, edits)
  }

  // ---------------------------------------------------------------------------
  // Refused: every file has its original bytes, but for those named stuck
  // ---------------------------------------------------------------------------

  /** Only `touched` files differ, and the generated files are the same. */
  ghost predicate OnlyTouched(a: Disk, b: Disk, touched: seq<string>) {
    && b.files.Keys == a.files.Keys && b.manifest == a.manifest && b.notCovered == a.notCovered
    && forall f | f in a.files && f !in touched :: b.files[f] == a.files[f]
  }

  lemma EditPinFiles(w: World, files: map<string, string>, p: Pin, to: string, edits: Edits)
    requires EditsOf(files, edits) && EditPin(w, files, p, to, edits).Some?
    ensures EditsOf(files, EditPin(w, files, p, to, edits).value)
  {
  }

  lemma {:induction false} EditPinsFiles(w: World, files: map<string, string>, pins: seq<Pin>, to: string, edits: Edits)
    requires EditsOf(files, edits) && EditPins(w, files, pins, to, edits).Some?
    ensures EditsOf(files, EditPins(w, files, pins, to, edits).value)
  {
    hide EditPin, EditsOf;
    if pins != [] {
      EditPinFiles(w, files, pins[0], to, edits);
      EditPinsFiles(w, files, pins[1..], to, EditPin(w, files, pins[0], to, edits).value);
    }
  }

  lemma {:induction false} EditAllFiles(w: World, files: map<string, string>, shadow: Shadow, pins: Pins, names: seq<string>, edits: Edits)
    requires EditsOf(files, edits) && EditAll(w, files, shadow, pins, names, edits).Some?
    ensures EditsOf(files, EditAll(w, files, shadow, pins, names, edits).value)
  {
    hide EditPins, EditsOf;
    if names != [] {
      EditPinsFiles(w, files, Listed(pins, names[0]), Asked(shadow, names[0]), edits);
      EditAllFiles(w, files, shadow, pins, names[1..], EditPins(w, files, Listed(pins, names[0]), Asked(shadow, names[0]), edits).value);
    }
  }

  predicate AllIn(fs: seq<string>, files: map<string, string>) { forall k | 0 <= k < |fs| :: fs[k] in files }

  lemma {:induction false} WriteAllTouches(w: World, start: Disk, disk: Disk, order: seq<string>, edits: Edits, written: seq<string>)
    requires OnlyTouched(start, disk, written) && AllIn(order, start.files) && AllIn(written, start.files)
    ensures var r := WriteAll(w, disk, order, edits, written);
            OnlyTouched(start, r.disk, r.files) && AllIn(r.files, start.files)
    decreases |order|
  {
    if order != [] {
      var r := Replace(w, disk, order[0], if order[0] in edits.lines then JoinLines(edits.lines[order[0]]) else "");
      if r.ok {
        WriteAllTouches(w, start, r.disk, order[1..], edits, written + [order[0]]);
      }
    }
  }

  lemma {:induction false} RestoreUntouches(w: World, start: Disk, disk: Disk, written: seq<string>)
    requires AllIn(written, start.files) && disk.files.Keys == start.files.Keys
    requires disk.manifest == start.manifest && disk.notCovered == start.notCovered
    ensures var r := Restore(w, disk, written, start.files);
            && r.disk.files.Keys == start.files.Keys
            && r.disk.manifest == start.manifest && r.disk.notCovered == start.notCovered
            && (forall k | 0 <= k < |r.stuck| :: r.stuck[k] in written)
            && (forall f | f in start.files ::
                  f in r.stuck || r.disk.files[f] == if f in written then start.files[f] else disk.files[f])
    decreases |written|
  {
    if written != [] {
      var r := Replace(w, disk, written[0], start.files[written[0]]);
      assert written == [written[0]] + written[1..];
      RestoreUntouches(w, start, r.disk, written[1..]);
    }
  }

  lemma RollBackRestores(w: World, start: Disk, now: Disk, written: seq<string>)
    requires OnlyTouched(start, now, written) && AllIn(written, start.files)
    ensures var r := RollBack(w, start, now, written);
            OnlyTouched(start, r.disk, r.outcome.stuck)
  {
    hide Restore;
    RestoreUntouches(w, start, now, written);
  }

  lemma EditsInFiles(files: map<string, string>, edits: Edits)
    requires EditsOf(files, edits)
    ensures AllIn(edits.order, files)
  {
  }

  lemma CommitRefused(w: World, disk: Disk, shadow: Shadow, pins: Pins, bumped: seq<string>, edits: Edits)
    requires EditsOf(disk.files, edits) && Commit(w, disk, shadow, pins, bumped, edits).outcome.Refused?
    ensures var r := Commit(w, disk, shadow, pins, bumped, edits); OnlyTouched(disk, r.disk, r.outcome.stuck)
  {
    hide WriteAll, RollBack, Verified, WriteGenerated, OnlyTouched;
    EditsInFiles(disk.files, edits);
    NothingTouched(disk);
    WriteAllTouches(w, disk, disk, edits.order, edits, []);
    var wrote := WriteAll(w, disk, edits.order, edits, []);
    RollBackRestores(w, disk, wrote.disk, wrote.files);
  }

  lemma NothingTouched(disk: Disk)
    ensures OnlyTouched(disk, disk, [])
  {
  }

  /**
   * A refused sync leaves every skill file with its original bytes, whichever write
   * failed, except the files it names as stuck; the generated files are untouched.
   */
  lemma RefusedSyncKeepsFiles(w: World, disk: Disk)
    requires Sync(w, disk).outcome.Refused?
    ensures OnlyTouched(disk, Sync(w, disk).disk, Sync(w, disk).outcome.stuck)
  {
    hide EditAll, Commit, Filter, LintBreaks, OnlyTouched, EditsOf, HasProblems, PinsOf, Names;
    NothingTouched(disk);
    var pins := PinsOf(w.collect(disk.files));
    if ReadShadow(w, disk).Some? {
      var shadow := ReadShadow(w, disk).value;
      var bumped := Filter(shadow, pins, Names(w, shadow, pins), BUMPED);
      NoEditsOf(disk.files);
      if EditAll(w, disk.files, shadow, pins, bumped, NO_EDITS).Some? {
        EditAllFiles(w, disk.files, shadow, pins, bumped, NO_EDITS);
        var edits := EditAll(w, disk.files, shadow, pins, bumped, NO_EDITS).value;
        if Commit(w, disk, shadow, pins, bumped, edits).outcome.Refused? { CommitRefused(w, disk, shadow, pins, bumped, edits); }
      }
    }
  }

  lemma NoEditsOf(files: map<string, string>)
    ensures EditsOf(files, NO_EDITS)
  {
  }

  // ---------------------------------------------------------------------------
  // Synced: the same pins at the bumped versions
  // ---------------------------------------------------------------------------

  /** Only the shadow moved: the skills still have the version it was generated at. */
  predicate ShadowAhead(skill: Option<string>, asked: Option<string>, at: Option<string>) {
    skill.Some? && asked.Some? && at == skill && asked != skill
  }

  /** The skills, the shadow and the version it was generated at are three different versions. */
  predicate AllApart(skill: Option<string>, asked: Option<string>, at: Option<string>) {
    skill.Some? && asked.Some? && at.Some? && skill != asked && asked != at && skill != at
  }

  lemma ClassifyByVersions(shadow: Shadow, pins: Pins, n: string)
    requires n in pins ==> pins[n] != []
    ensures var skill, asked, at := VersionIn(pins, n), Lookup(shadow.dependencies, n), Lookup(shadow.generatedAt, n);
      && (Classify(shadow, pins, n) == Bumped <==> ShadowAhead(skill, asked, at))
      && (Classify(shadow, pins, n) == Conflict <==> AllApart(skill, asked, at))
      && (Classify(shadow, pins, n) in STALE <==> skill != asked && !ShadowAhead(skill, asked, at) && !AllApart(skill, asked, at))
  {
  }

  /** The version a package ends at: the shadow's if only the shadow moved. */
  function Wanted(shadow: Shadow, pins: Pins, n: string): Option<string> {
    var skill, asked, at := VersionIn(pins, n), Lookup(shadow.dependencies, n), Lookup(shadow.generatedAt, n);
    if ShadowAhead(skill, asked, at) then asked else skill
  }

  lemma {:induction false} FilterLists(shadow: Shadow, pins: Pins, names: seq<string>, vs: set<Verdict>, n: string)
    ensures n in Filter(shadow, pins, names, vs) <==> n in names && Classify(shadow, pins, n) in vs
  {
    hide Classify;
    if names != [] {
      FilterLists(shadow, pins, names[1..], vs, n);
      assert names == [names[0]] + names[1..];
    }
  }

  lemma BumpedIs(w: World, shadow: Shadow, pins: Pins, n: string)
    requires Sorts(w) && n in pins
    ensures n in Filter(shadow, pins, Names(w, shadow, pins), BUMPED) <==> Classify(shadow, pins, n) == Bumped
  {
    hide Classify, Filter;
    FilterLists(shadow, pins, Names(w, shadow, pins), BUMPED, n);
    assert n in shadow.dependencies.Keys + pins.Keys;
  }

  ghost predicate PinsMoved(shadow: Shadow, before: Pins, after: Pins) {
    && after.Keys == before.Keys
    && forall n | n in before ::
         |after[n]| == |before[n]| && forall k | 0 <= k < |after[n]| :: Some(after[n][k].version) == Wanted(shadow, before, n)
  }

  lemma VerifiedMoved(w: World, before: Pins, after: Scan, shadow: Shadow, bumped: seq<string>)
    requires Sorts(w) && bumped == Filter(shadow, before, Names(w, shadow, before), BUMPED)
    requires Verified(before, after, shadow, bumped) && forall n | n in before :: before[n] != []
    ensures PinsMoved(shadow, before, PinsOf(after))
  {
    hide Filter, HasProblems, PinsOf;
    var now: Pins := PinsOf(after);
    forall n: string | n in before
      ensures n in now && |now[n]| == |before[n]|
      ensures forall k: nat | k < |now[n]| :: Some(now[n][k].version) == Wanted(shadow, before, n)
    {
      BumpedIs(w, shadow, before, n);
      ClassifyByVersions(shadow, before, n);
      assert |Listed(now, n)| == |before[n]|;
    }
  }

  /** What a sync that got through did, by its stages. */
  lemma SyncStages(w: World, disk: Disk)
    requires Sync(w, disk).outcome.Synced?
    ensures !HasProblems(w.collect(disk.files)) && ReadShadow(w, disk).Some?
    ensures var pins, shadow, r := PinsOf(w.collect(disk.files)), ReadShadow(w, disk).value, Sync(w, disk);
            var after := w.collect(r.disk.files);
            && r.outcome.bumped == Filter(shadow, pins, Names(w, shadow, pins), BUMPED)
            && Verified(pins, after, shadow, r.outcome.bumped)
            && r.disk.manifest == Some(Manifest(w, after)) && r.disk.notCovered == Some(w.renderOther(after.other))
  {
    hide EditAll, Filter, LintBreaks, HasProblems, PinsOf, Names, WriteAll, Verified, Manifest, Restore;
  }

  lemma GroupsNonEmpty(scan: Scan)
    ensures forall n | n in PinsOf(scan) :: PinsOf(scan)[n] != []
  {
    hide PinsOf;
    PinsAreGrouped(scan);
  }

  /** A sync that succeeded left the same pins, as many of each, at the shadow's bumped versions and no other. */
  lemma SyncMovesExactlyTheBumps(w: World, disk: Disk)
    requires Sorts(w) && Sync(w, disk).outcome.Synced?
    ensures PinsMoved(ReadShadow(w, disk).value, PinsOf(w.collect(disk.files)), PinsOf(w.collect(Sync(w, disk).disk.files)))
  {
    hide Sync, Verified, PinsMoved, PinsOf, Filter, Names, ReadShadow;
    SyncStages(w, disk);
    var scan := w.collect(disk.files);
    GroupsNonEmpty(scan);
    VerifiedMoved(w, PinsOf(scan), w.collect(Sync(w, disk).disk.files), ReadShadow(w, disk).value, Sync(w, disk).outcome.bumped);
  }

  /** The check succeeds straight after a sync that succeeded. */
  lemma CheckAfterSync(w: World, disk: Disk)
    requires Sync(w, disk).outcome.Synced?
    ensures Check(w, Sync(w, disk).disk)
  {
    hide Sync, HasProblems, PinsOf, Filter, Names, Manifest;
    SyncStages(w, disk);
  }

  // ---------------------------------------------------------------------------
  // Synced: what became of every file
  // ---------------------------------------------------------------------------

  /** One pin taken to the version the shadow asks for. */
  datatype Move = Move(pin: Pin, to: string)

  function MovesOf(list: seq<Pin>, to: string): seq<Move> { seq(|list|, k requires 0 <= k < |list| => Move(list[k], to)) }

  /** The moves of the bumped packages, in the order they are made. */
  function Moves(shadow: Shadow, pins: Pins, bumped: seq<string>): seq<Move> {
    if bumped == [] then []
    else MovesOf(Listed(pins, bumped[0]), Asked(shadow, bumped[0])) + Moves(shadow, pins, bumped[1..])
  }

  predicate Moved(moves: seq<Move>, file: string) { exists i :: 0 <= i < |moves| && moves[i].pin.file == file }

  /** Line `k` (from 0) of a file once the moves at it are made. */
  function LineAfter(w: World, moves: seq<Move>, file: string, k: nat, line: string): string
    decreases |moves|
  {
    if moves == [] then line
    else
      var m := moves[|moves| - 1];
      var before := LineAfter(w, moves[..|moves| - 1], file, k, line);
      if m.pin.file == file && m.pin.line == k + 1 && w.edit(m.pin, before, m.to).Some? then w.edit(m.pin, before, m.to).value
      else before
  }

  function LinesAfter(w: World, moves: seq<Move>, file: string, lines: seq<string>): seq<string> {
    seq(|lines|, k requires 0 <= k < |lines| => LineAfter(w, moves, file, k, lines[k]))
  }

  /** The move at `i` finds its line and edits it as the moves before it left it. */
  predicate Makes(w: World, files: map<string, string>, moves: seq<Move>, i: nat)
    requires i < |moves|
  {
    var p := moves[i].pin;
    && p.file in files && 0 < p.line <= |SplitLines(files[p.file])|
    && w.edit(p, LineAfter(w, moves[..i], p.file, p.line - 1, SplitLines(files[p.file])[p.line - 1]), moves[i].to).Some?
  }

  /** The edited lines are those the moves made so far give. */
  ghost predicate EditedBy(w: World, files: map<string, string>, edits: Edits, done: seq<Move>) {
    && (forall i | 0 <= i < |done| :: Makes(w, files, done, i))
    && (forall f :: f in edits.lines <==> f in edits.order)
    && (forall f :: f in edits.lines <==> Moved(done, f))
    && (forall f | f in edits.lines :: f in files && edits.lines[f] == LinesAfter(w, done, f, SplitLines(files[f])))
  }

  lemma LineAfterPush(w: World, moves: seq<Move>, m: Move, file: string, k: nat, line: string)
    ensures var before := LineAfter(w, moves, file, k, line);
      LineAfter(w, moves + [m], file, k, line) ==
        if m.pin.file == file && m.pin.line == k + 1 && w.edit(m.pin, before, m.to).Some? then w.edit(m.pin, before, m.to).value else before
  {
    assert (moves + [m])[..|moves|] == moves;
  }

  /** A line no move is about is kept. */
  lemma {:induction false} LineKept(w: World, moves: seq<Move>, file: string, k: nat, line: string)
    requires forall i | 0 <= i < |moves| :: !(moves[i].pin.file == file && moves[i].pin.line == k + 1)
    ensures LineAfter(w, moves, file, k, line) == line
    decreases |moves|
  {
    if moves != [] { LineKept(w, moves[..|moves| - 1], file, k, line); }
  }

  /** A line that one move is about is that pin's edit of it. */
  lemma {:induction false} LineEdited(w: World, moves: seq<Move>, file: string, k: nat, line: string, i: nat)
    requires i < |moves| && moves[i].pin.file == file && moves[i].pin.line == k + 1 && w.edit(moves[i].pin, line, moves[i].to).Some?
    requires forall j | 0 <= j < |moves| :: j != i ==> !(moves[j].pin.file == file && moves[j].pin.line == k + 1)
    ensures LineAfter(w, moves, file, k, line) == w.edit(moves[i].pin, line, moves[i].to).value
    decreases |moves|
  {
    if i == |moves| - 1 { LineKept(w, moves[..i], file, k, line); } else { LineEdited(w, moves[..|moves| - 1], file, k, line, i); }
  }

  lemma UnmovedLines(w: World, moves: seq<Move>, file: string, lines: seq<string>)
    requires !Moved(moves, file)
    ensures LinesAfter(w, moves, file, lines) == lines
  {
    hide LineAfter;
    forall k | 0 <= k < |lines| ensures LineAfter(w, moves, file, k, lines[k]) == lines[k] {
      forall i | 0 <= i < |moves| ensures moves[i].pin.file != file {}
      LineKept(w, moves, file, k, lines[k]);
    }
  }

  lemma LinesPush(w: World, moves: seq<Move>, m: Move, file: string, lines: seq<string>)
    ensures m.pin.file != file ==> LinesAfter(w, moves + [m], file, lines) == LinesAfter(w, moves, file, lines)
    ensures m.pin.file == file && 0 < m.pin.line <= |lines| && w.edit(m.pin, LinesAfter(w, moves, file, lines)[m.pin.line - 1], m.to).Some? ==>
      LinesAfter(w, moves + [m], file, lines) ==
      LinesAfter(w, moves, file, lines)[m.pin.line - 1 := w.edit(m.pin, LinesAfter(w, moves, file, lines)[m.pin.line - 1], m.to).value]
  {
    hide LineAfter;
    forall k | 0 <= k < |lines| { LineAfterPush(w, moves, m, file, k, lines[k]); }
  }

  lemma MovedPush(moves: seq<Move>, m: Move, file: string)
    ensures Moved(moves + [m], file) <==> Moved(moves, file) || m.pin.file == file
  {
    var longer := moves + [m];
    if Moved(moves, file) {
      var i :| 0 <= i < |moves| && moves[i].pin.file == file;
      assert longer[i] == moves[i];
    }
    assert longer[|moves|] == m;
  }

  lemma MakesPush(w: World, files: map<string, string>, moves: seq<Move>, m: Move, i: nat)
    requires i < |moves| && Makes(w, files, moves, i)
    ensures Makes(w, files, moves + [m], i)
  {
    hide LineAfter, SplitLines;
    assert (moves + [m])[..i] == moves[..i];
  }

  lemma EditPinBy(w: World, files: map<string, string>, p: Pin, to: string, edits: Edits, done: seq<Move>)
    requires EditedBy(w, files, edits, done) && EditPin(w, files, p, to, edits).Some?
    ensures EditedBy(w, files, EditPin(w, files, p, to, edits).value, done + [Move(p, to)])
  {
    hide Moved, LineAfter, SplitLines, Makes, LinesAfter;
    var m, next, text := Move(p, to), EditPin(w, files, p, to, edits).value, SplitLines(files[p.file]);
    var moves := done + [m];
    if p.file !in edits.lines { UnmovedLines(w, done, p.file, text); }
    var lines := LinesFor(files, edits, p.file);
    LinesLength(w, done, p.file, text);
    forall i | 0 <= i < |moves| ensures Makes(w, files, moves, i) {
      if i < |done| { MakesPush(w, files, done, m, i); } else { LastMakes(w, files, done, m); }
    }
    forall f ensures f in next.lines <==> f in next.order ensures f in next.lines <==> Moved(moves, f) { MovedPush(done, m, f); }
    forall f | f in next.lines ensures f in files && next.lines[f] == LinesAfter(w, moves, f, SplitLines(files[f])) {
      LinesPush(w, done, m, f, SplitLines(files[f]));
    }
  }

  lemma LinesLength(w: World, moves: seq<Move>, file: string, lines: seq<string>)
    ensures |LinesAfter(w, moves, file, lines)| == |lines|
    ensures forall k | 0 <= k < |lines| :: LinesAfter(w, moves, file, lines)[k] == LineAfter(w, moves, file, k, lines[k])
  {
    hide LineAfter;
  }

  lemma LastMakes(w: World, files: map<string, string>, done: seq<Move>, m: Move)
    requires m.pin.file in files && 0 < m.pin.line <= |SplitLines(files[m.pin.file])|
    requires w.edit(m.pin, LineAfter(w, done, m.pin.file, m.pin.line - 1, SplitLines(files[m.pin.file])[m.pin.line - 1]), m.to).Some?
    ensures Makes(w, files, done + [m], |done|)
  {
    hide LineAfter, SplitLines;
    assert (done + [m])[..|done|] == done;
  }

  lemma {:induction false} EditPinsBy(w: World, files: map<string, string>, list: seq<Pin>, to: string, edits: Edits, done: seq<Move>)
    requires EditedBy(w, files, edits, done) && EditPins(w, files, list, to, edits).Some?
    ensures EditedBy(w, files, EditPins(w, files, list, to, edits).value, done + MovesOf(list, to))
  {
    hide EditedBy, EditPin;
    if list == [] {
      assert done + MovesOf(list, to) == done;
    } else {
      EditPinBy(w, files, list[0], to, edits, done);
      EditPinsBy(w, files, list[1..], to, EditPin(w, files, list[0], to, edits).value, done + [Move(list[0], to)]);
      assert done + [Move(list[0], to)] + MovesOf(list[1..], to) == done + MovesOf(list, to);
    }
  }

  lemma {:induction false} EditAllBy(w: World, files: map<string, string>, shadow: Shadow, pins: Pins, names: seq<string>, edits: Edits, done: seq<Move>)
    requires EditedBy(w, files, edits, done) && EditAll(w, files, shadow, pins, names, edits).Some?
    ensures EditedBy(w, files, EditAll(w, files, shadow, pins, names, edits).value, done + Moves(shadow, pins, names))
  {
    hide EditedBy, EditPins, MovesOf;
    if names == [] {
      assert done + Moves(shadow, pins, names) == done;
    } else {
      var list, to := Listed(pins, names[0]), Asked(shadow, names[0]);
      EditPinsBy(w, files, list, to, edits, done);
      EditAllBy(w, files, shadow, pins, names[1..], EditPins(w, files, list, to, edits).value, done + MovesOf(list, to));
      Regroup(done, MovesOf(list, to), Moves(shadow, pins, names[1..]));
    }
  }

  /** Every file written holds its edited lines; every other is as it was. */
  lemma {:induction false} WriteAllWrites(w: World, disk: Disk, order: seq<string>, edits: Edits, written: seq<string>)
    requires AllIn(order, disk.files) && WriteAll(w, disk, order, edits, written).ok
    requires forall k | 0 <= k < |order| :: order[k] in edits.lines
    ensures var r := WriteAll(w, disk, order, edits, written).disk;
      && r.files.Keys == disk.files.Keys
      && forall f | f in disk.files :: r.files[f] == if f in order then JoinLines(edits.lines[f]) else disk.files[f]
    decreases |order|
  {
    hide JoinLines;
    if order != [] {
      var r := Replace(w, disk, order[0], JoinLines(edits.lines[order[0]]));
      WriteAllWrites(w, r.disk, order[1..], edits, written + [order[0]]);
      assert order == [order[0]] + order[1..];
    }
  }

  lemma CommitWrites(w: World, disk: Disk, shadow: Shadow, pins: Pins, bumped: seq<string>, edits: Edits)
    requires EditsOf(disk.files, edits) && Commit(w, disk, shadow, pins, bumped, edits).outcome.Synced?
    ensures var r := Commit(w, disk, shadow, pins, bumped, edits).disk;
      && r.files.Keys == disk.files.Keys
      && forall f | f in disk.files ::
           r.files[f] == if f in edits.order && f in edits.lines then JoinLines(edits.lines[f]) else disk.files[f]
  {
    hide WriteAll, Verified, Restore, JoinLines;
    EditsInFiles(disk.files, edits);
    WriteAllWrites(w, disk, edits.order, edits, []);
  }

  /**
   * A sync that got through made every move of its bumped packages, one line each; a file
   * without a bumped pin has its bytes, and any other is its old lines, each with the
   * edits of its own pins and no other change.
   */
  lemma SyncedFiles(w: World, disk: Disk)
    requires Sync(w, disk).outcome.Synced?
    ensures ReadShadow(w, disk).Some?
    ensures var r := Sync(w, disk);
      var moves := Moves(ReadShadow(w, disk).value, PinsOf(w.collect(disk.files)), r.outcome.bumped);
      && r.disk.files.Keys == disk.files.Keys
      && (forall i | 0 <= i < |moves| :: Makes(w, disk.files, moves, i))
      && forall f | f in disk.files ::
           r.disk.files[f] == if Moved(moves, f) then JoinLines(LinesAfter(w, moves, f, SplitLines(disk.files[f]))) else disk.files[f]
  {
    hide EditAll, Commit, Filter, LintBreaks, HasProblems, PinsOf, Names, LinesAfter, JoinLines, SplitLines, Moved, Moves, Makes;
    var pins, shadow := PinsOf(w.collect(disk.files)), ReadShadow(w, disk).value;
    var bumped := Filter(shadow, pins, Names(w, shadow, pins), BUMPED);
    var edits := EditAll(w, disk.files, shadow, pins, bumped, NO_EDITS).value;
    NoEditsOf(disk.files);
    EditAllFiles(w, disk.files, shadow, pins, bumped, NO_EDITS);
    NothingEdited(w, disk.files);
    EditAllBy(w, disk.files, shadow, pins, bumped, NO_EDITS, []);
    assert [] + Moves(shadow, pins, bumped) == Moves(shadow, pins, bumped);
    SyncStages(w, disk);
    CommitWrites(w, disk, shadow, pins, bumped, edits);
  }

  lemma NothingEdited(w: World, files: map<string, string>)
    ensures EditedBy(w, files, NO_EDITS, [])
  {
  }

  lemma {:induction false} MovesListed(shadow: Shadow, pins: Pins, names: seq<string>, p: Pin, to: string)
    ensures Move(p, to) in Moves(shadow, pins, names) <==>
            exists k :: 0 <= k < |names| && p in Listed(pins, names[k]) && to == Asked(shadow, names[k])
  {
    hide Listed, Asked;
    if names != [] {
      var list, t := Listed(pins, names[0]), Asked(shadow, names[0]);
      var rest := names[1..];
      MovesListed(shadow, pins, rest, p, to);
      MoveIn(list, t, p, to);
      if exists k :: 0 <= k < |rest| && p in Listed(pins, rest[k]) && to == Asked(shadow, rest[k]) {
        var k :| 0 <= k < |rest| && p in Listed(pins, rest[k]) && to == Asked(shadow, rest[k]);
        assert names[k + 1] == rest[k];
      }
      if exists k :: 0 <= k < |names| && p in Listed(pins, names[k]) && to == Asked(shadow, names[k]) {
        var k :| 0 <= k < |names| && p in Listed(pins, names[k]) && to == Asked(shadow, names[k]);
        if k > 0 { assert names[k] == rest[k - 1]; }
      }
    }
  }

  lemma MoveIn(list: seq<Pin>, t: string, p: Pin, to: string)
    ensures Move(p, to) in MovesOf(list, t) <==> p in list && to == t
  {
    if p in list && to == t {
      var k :| 0 <= k < |list| && list[k] == p;
      assert MovesOf(list, t)[k] == Move(p, to);
    }
  }

  lemma {:induction false} NamedIs(npm: seq<Pin>, name: string, p: Pin)
    ensures p in Named(npm, name) <==> p in npm && p.name == name
  {
    if npm != [] {
      NamedIs(npm[1..], name, p);
      assert npm == [npm[0]] + npm[1..];
    }
  }

  /** The moves are those of every scanned pin of a bumped package, to the shadow's version, and of no other. */
  lemma MovesAreBumpedPins(w: World, shadow: Shadow, scan: Scan, p: Pin, to: string)
    requires Sorts(w)
    ensures var pins := PinsOf(scan);
            Move(p, to) in Moves(shadow, pins, Filter(shadow, pins, Names(w, shadow, pins), BUMPED)) <==>
            && p in scan.npm
            && ShadowAhead(VersionIn(pins, p.name), Lookup(shadow.dependencies, p.name), Lookup(shadow.generatedAt, p.name))
            && Some(to) == Lookup(shadow.dependencies, p.name)
  {
    hide PinsOf, Filter, Names, Classify, Moves, Listed, Named;
    var pins := PinsOf(scan);
    GroupsNonEmpty(scan);
    ClassifyByVersions(shadow, pins, p.name);
    var names := Filter(shadow, pins, Names(w, shadow, pins), BUMPED);
    MovesListed(shadow, pins, names, p, to);
    forall n ensures p in Listed(pins, n) <==> p in scan.npm && p.name == n {
      GroupIsComplete(scan, n);
      NamedIs(scan.npm, n, p);
    }
    FilterLists(shadow, pins, Names(w, shadow, pins), BUMPED, p.name);
    NamesKnown(w, shadow, pins, p.name);
    if p in scan.npm { PinnedIsKnown(shadow, scan, p); }
    if p.name in names {
      var k :| 0 <= k < |names| && names[k] == p.name;
      assert p in scan.npm ==> p in Listed(pins, names[k]);
    }
  }

  lemma PinnedIsKnown(shadow: Shadow, scan: Scan, p: Pin)
    requires p in scan.npm
    ensures Known(shadow, PinsOf(scan), p.name)
  {
    hide PinsOf;
    GroupIsComplete(scan, p.name);
    NamedIs(scan.npm, p.name, p);
  }

  // ---------------------------------------------------------------------------
  // A second sync
  // ---------------------------------------------------------------------------

  lemma CheckedAgrees(w: World, disk: Disk, n: string)
    requires RoundTrips(w) && Check(w, disk)
    ensures ReadShadow(w, disk).Some?
    ensures Classify(ReadShadow(w, disk).value, PinsOf(w.collect(disk.files)), n) == Agrees
  {
    hide PinsOf, HasProblems;
    var pins := PinsOf(w.collect(disk.files));
    GroupsNonEmpty(w.collect(disk.files));
    var entries := map m | m in Dependencies(pins) :: Entry(pins[m][0].version, w.sources(pins[m]));
    assert w.parse(w.renderPins(Dependencies(pins), entries)) ==
           Some(Shadow(Dependencies(pins), map m | m in entries :: entries[m].version));
  }

  lemma {:induction false} NothingFiltered(shadow: Shadow, pins: Pins, names: seq<string>, vs: set<Verdict>)
    requires Agrees !in vs && forall n :: Classify(shadow, pins, n) == Agrees
    ensures Filter(shadow, pins, names, vs) == []
  {
    hide Classify;
    if names != [] { NothingFiltered(shadow, pins, names[1..], vs); }
  }

  lemma UnchangedIsVerified(scan: Scan, shadow: Shadow)
    requires !HasProblems(scan)
    ensures Verified(PinsOf(scan), scan, shadow, [])
  {
    hide PinsOf;
    GroupsNonEmpty(scan);
    var pins := PinsOf(scan);
    forall n | n in pins ensures OneVersion(pins[n]) {}
  }

  /** Where the check succeeds a sync has nothing to do: no bump, no file changed, and only the generated files written again. */
  lemma CheckedSyncIsIdle(w: World, disk: Disk)
    requires RoundTrips(w) && Check(w, disk)
    ensures var r := Sync(w, disk);
            && r.disk.files == disk.files
            && r.outcome == (if w.writable(disk.writes + 1, MANIFEST) && w.writable(disk.writes + 2, NOT_COVERED) then Synced([]) else Threw)
            && (r.outcome.Synced? ==> r.disk.manifest == disk.manifest && r.disk.notCovered == disk.notCovered)
  {
    hide PinsOf, HasProblems, Verified, Classify, Names, Manifest, ReadShadow;
    var scan := w.collect(disk.files);
    var pins := PinsOf(scan);
    CheckedAgrees(w, disk, "");
    var shadow := ReadShadow(w, disk).value;
    forall n ensures Classify(shadow, pins, n) == Agrees { CheckedAgrees(w, disk, n); }
    NothingFiltered(shadow, pins, Names(w, shadow, pins), BUMPED);
    NothingFiltered(shadow, pins, Names(w, shadow, pins), CONFLICT);
    UnchangedIsVerified(scan, shadow);
    assert EditAll(w, disk.files, shadow, pins, [], NO_EDITS) == Some(NO_EDITS);
    assert !LintBreaks(w, disk.files, NO_EDITS);
  }

  /** Syncing again after a sync that succeeded bumps nothing and changes no skill file. */
  lemma SecondSyncIsIdle(w: World, disk: Disk)
    requires RoundTrips(w) && Sync(w, disk).outcome.Synced?
    ensures var first := Sync(w, disk).disk;
            var second := Sync(w, first);
            && second.disk.files == first.files
            && (second.outcome == Synced([]) || (second.outcome == Threw && !(w.writable(first.writes + 1, MANIFEST) && w.writable(first.writes + 2, NOT_COVERED))))
  {
    hide Sync, Check;
    CheckAfterSync(w, disk);
    CheckedSyncIsIdle(w, Sync(w, disk).disk);
  }

  // ---------------------------------------------------------------------------
  // Generate
  // ---------------------------------------------------------------------------

  function ShadowOrEmpty(w: World, disk: Disk): Shadow {
    match ReadShadow(w, disk) case Some(shadow) => shadow case None => Shadow(map[], map[])
  }

  /** Rewrite the generated files, unless that would drop pending bumps. */
  function Generate(w: World, disk: Disk, force: bool): Result {
    var scan := w.collect(disk.files);
    var shadow, pins := ShadowOrEmpty(w, disk), PinsOf(scan);
    if HasProblems(scan) then Result(Refused([]), disk)
    else if !force && Filter(shadow, pins, Names(w, shadow, pins), BUMPED) != [] then Result(Refused([]), disk)
    else
      var done := WriteGenerated(w, disk, scan);
      Result(if done.ok then Synced([]) else Threw, done.disk)
  }

  /** A generate that succeeded makes the check succeed, changed no skill file, and without force dropped no bump. */
  lemma GenerateThenCheck(w: World, disk: Disk, force: bool)
    requires Generate(w, disk, force).outcome.Synced?
    ensures Check(w, Generate(w, disk, force).disk) && Generate(w, disk, force).disk.files == disk.files
    ensures Sorts(w) && !force ==>
      var shadow, pins := ShadowOrEmpty(w, disk), PinsOf(w.collect(disk.files));
      forall n | n in pins :: !ShadowAhead(VersionIn(pins, n), Lookup(shadow.dependencies, n), Lookup(shadow.generatedAt, n))
  {
    hide PinsOf, HasProblems, Filter, Names, Manifest, Classify, ReadShadow;
    var shadow, pins := ShadowOrEmpty(w, disk), PinsOf(w.collect(disk.files));
    if Sorts(w) && !force {
      GroupsNonEmpty(w.collect(disk.files));
      forall n | n in pins ensures Classify(shadow, pins, n) != Bumped { BumpedIs(w, shadow, pins, n); }
      forall n | n in pins { ClassifyByVersions(shadow, pins, n); }
    }
  }

  // ---------------------------------------------------------------------------
  // The transaction on the disk
  // ---------------------------------------------------------------------------

  /** The pins by package, in scan order. */
  method GroupPins(npm: seq<Pin>) returns (pins: Pins)
    ensures pins == Group(npm, map[])
    ensures forall n :: Listed(pins, n) == Named(npm, n)
  {
    forall n ensures Listed(Group(npm, map[]), n) == Named(npm, n) {
      GroupAppends(npm, map[], n);
      assert [] + Named(npm, n) == Named(npm, n);
    }
    pins := map[];
    for i := 0 to |npm|
      invariant Group(npm[i..], pins) == Group(npm, map[])
    {
      assert npm[i..][1..] == npm[i + 1..];
      pins := pins[npm[i].name := Listed(pins, npm[i].name) + [npm[i]]];
    }
  }

  lemma FilterStep(shadow: Shadow, pins: Pins, names: seq<string>, i: nat, vs: set<Verdict>, out: seq<string>)
    requires i < |names|
    ensures out + Filter(shadow, pins, names[i..], vs) ==
            (if Classify(shadow, pins, names[i]) in vs then out + [names[i]] else out) + Filter(shadow, pins, names[i + 1..], vs)
  {
    hide Classify;
    assert names[i..][0] == names[i] && names[i..][1..] == names[i + 1..];
  }

  /** Each name in the shadow or the skills that disagrees, in sorted order, in the one list of its verdict. */
  method ClassifyAll(w: World, shadow: Shadow, pins: Pins)
      returns (bumped: seq<string>, conflicts: seq<string>, stale: seq<string>)
    ensures bumped == Filter(shadow, pins, Names(w, shadow, pins), BUMPED)
    ensures conflicts == Filter(shadow, pins, Names(w, shadow, pins), CONFLICT)
    ensures stale == Filter(shadow, pins, Names(w, shadow, pins), STALE)
    ensures Sorts(w) && (forall n | n in pins :: pins[n] != []) ==> forall n ::
      var skill, asked, at := VersionIn(pins, n), Lookup(shadow.dependencies, n), Lookup(shadow.generatedAt, n);
      && (n in bumped <==> ShadowAhead(skill, asked, at))
      && (n in conflicts <==> AllApart(skill, asked, at))
      && (n in stale <==> skill != asked && !ShadowAhead(skill, asked, at) && !AllApart(skill, asked, at))
  {
    hide Classify, Filter, Sorts, Known, Names;
    bumped, conflicts, stale := [], [], [];
    var names := Names(w, shadow, pins);
    assert names[0..] == names;
    for i := 0 to |names|
      invariant bumped + Filter(shadow, pins, names[i..], BUMPED) == Filter(shadow, pins, names, BUMPED)
      invariant conflicts + Filter(shadow, pins, names[i..], CONFLICT) == Filter(shadow, pins, names, CONFLICT)
      invariant stale + Filter(shadow, pins, names[i..], STALE) == Filter(shadow, pins, names, STALE)
    {
      FilterStep(shadow, pins, names, i, BUMPED, bumped);
      FilterStep(shadow, pins, names, i, CONFLICT, conflicts);
      FilterStep(shadow, pins, names, i, STALE, stale);
      match Classify(shadow, pins, names[i])
      case Agrees =>
      case Bumped => bumped := bumped + [names[i]];
      case Conflict => conflicts := conflicts + [names[i]];
      case _ => stale := stale + [names[i]];
    }
    NothingToFilter(shadow, pins, names[|names|..], BUMPED);
    NothingToFilter(shadow, pins, names[|names|..], CONFLICT);
    NothingToFilter(shadow, pins, names[|names|..], STALE);
    if Sorts(w) && forall n | n in pins :: pins[n] != [] {
      forall n ensures n in bumped <==> Known(shadow, pins, n) && Classify(shadow, pins, n) == Bumped
               ensures n in conflicts <==> Known(shadow, pins, n) && Classify(shadow, pins, n) == Conflict
               ensures n in stale <==> Known(shadow, pins, n) && Classify(shadow, pins, n) in STALE
               ensures Classify(shadow, pins, n) != Agrees ==> Known(shadow, pins, n)
      {
        DisagreeingIsKnown(shadow, pins, n);
        NamesKnown(w, shadow, pins, n);
        FilterLists(shadow, pins, names, BUMPED, n);
        FilterLists(shadow, pins, names, CONFLICT, n);
        FilterLists(shadow, pins, names, STALE, n);
      }
      forall n { ClassifyByVersions(shadow, pins, n); }
    }
  }

  /** Named by the shadow or pinned by a skill. */
  predicate Known(shadow: Shadow, pins: Pins, n: string) { n in shadow.dependencies || n in pins }

  lemma DisagreeingIsKnown(shadow: Shadow, pins: Pins, n: string)
    ensures Classify(shadow, pins, n) != Agrees ==> Known(shadow, pins, n)
  {
  }

  lemma NamesKnown(w: World, shadow: Shadow, pins: Pins, n: string)
    requires Sorts(w)
    ensures n in Names(w, shadow, pins) <==> Known(shadow, pins, n)
  {
    assert n in shadow.dependencies.Keys + pins.Keys <==> Known(shadow, pins, n);
  }

  lemma NothingToFilter(shadow: Shadow, pins: Pins, names: seq<string>, vs: set<Verdict>)
    requires names == []
    ensures Filter(shadow, pins, names, vs) == []
  {
  }

  /** Edit the pins' lines in memory, package by package. */
  method EditFiles(w: World, files: map<string, string>, shadow: Shadow, pins: Pins, bumped: seq<string>) returns (edits: Option<Edits>)
    ensures edits == EditAll(w, files, shadow, pins, bumped, NO_EDITS)
  {
    hide EditAll, EditPins;
    var now := NO_EDITS;
    assert bumped[0..] == bumped;
    for i := 0 to |bumped|
      invariant EditAll(w, files, shadow, pins, bumped[i..], now) == EditAll(w, files, shadow, pins, bumped, NO_EDITS)
    {
      var list, to := Listed(pins, bumped[i]), Asked(shadow, bumped[i]);
      ghost var before := now;
      EditAllStep(w, files, shadow, pins, bumped, i, now);
      assert list[0..] == list;
      for k := 0 to |list|
        invariant EditPins(w, files, list[k..], to, now) == EditPins(w, files, list, to, before)
      {
        EditPinsStep(w, files, list, k, to, now);
        var next := EditPin(w, files, list[k], to, now);
        if next.None? { return None; }
        now := next.value;
      }
      EditPinsNone(w, files, list[|list|..], to, now);
    }
    EditAllNone(w, files, shadow, pins, bumped[|bumped|..], now);
    edits := Some(now);
  }

  lemma EditPinsStep(w: World, files: map<string, string>, list: seq<Pin>, k: nat, to: string, edits: Edits)
    requires k < |list|
    ensures EditPins(w, files, list[k..], to, edits) ==
      match EditPin(w, files, list[k], to, edits) case None => None case Some(next) => EditPins(w, files, list[k + 1..], to, next)
  {
    hide EditPin;
    assert list[k..][0] == list[k] && list[k..][1..] == list[k + 1..];
  }

  lemma EditPinsNone(w: World, files: map<string, string>, list: seq<Pin>, to: string, edits: Edits)
    requires list == []
    ensures EditPins(w, files, list, to, edits) == Some(edits)
  {
  }

  lemma EditAllStep(w: World, files: map<string, string>, shadow: Shadow, pins: Pins, names: seq<string>, i: nat, edits: Edits)
    requires i < |names|
    ensures EditAll(w, files, shadow, pins, names[i..], edits) ==
      match EditPins(w, files, Listed(pins, names[i]), Asked(shadow, names[i]), edits)
      case None => None
      case Some(next) => EditAll(w, files, shadow, pins, names[i + 1..], next)
  {
    hide EditPins;
    assert names[i..][0] == names[i] && names[i..][1..] == names[i + 1..];
  }

  lemma EditAllNone(w: World, files: map<string, string>, shadow: Shadow, pins: Pins, names: seq<string>, edits: Edits)
    requires names == []
    ensures EditAll(w, files, shadow, pins, names, edits) == Some(edits)
  {
  }

  lemma RestoreStep(w: World, disk: Disk, written: seq<string>, i: nat, originals: map<string, string>, stuck: seq<string>)
    requires i < |written|
    ensures var r := Replace(w, disk, written[i], if written[i] in originals then originals[written[i]] else "");
      var all, rest := Restore(w, disk, written[i..], originals), Restore(w, r.disk, written[i + 1..], originals);
      Restored(stuck + all.stuck, all.disk) == Restored((if r.ok then stuck else stuck + [written[i]]) + rest.stuck, rest.disk)
  {
    hide Replace;
    var tail := written[i..];
    assert tail[0] == written[i] && tail[1..] == written[i + 1..];
    var r := Replace(w, disk, written[i], if written[i] in originals then originals[written[i]] else "");
    Regroup(stuck, [written[i]], Restore(w, r.disk, written[i + 1..], originals).stuck);
  }

  class Repo {
    var files: map<string, string>
    var temps: map<string, string>
    var manifest: Option<string>
    var notCovered: Option<string>
    var writes: nat

    function Now(): Disk reads this { Disk(files, temps, manifest, notCovered, writes) }

    constructor (disk: Disk)
      ensures Now() == disk
    {
      files, temps, manifest, notCovered, writes := disk.files, disk.temps, disk.manifest, disk.notCovered, disk.writes;
    }

    /**
     * Write a temporary file, then rename it over the target. Whichever step fails, every
     * file keeps its bytes, and the temporary file stays only if it cannot be removed.
     */
    method ReplaceFile(w: World, file: string, text: string) returns (ok: bool)
      modifies this
      ensures Wrote(ok, Now()) == Replace(w, old(Now()), file, text)
      ensures ok ==> files == old(files)[file := text] && file !in temps
      ensures !ok ==> files == old(files)
      ensures temps - {file} == old(temps) - {file} && manifest == old(manifest) && notCovered == old(notCovered)
      ensures file in temps ==> !ok && !w.tempRemoved(writes, file)
    {
      writes := writes + 1;
      ok := w.tempWritten(writes, file);
      temps := temps[file := if ok then text else w.tempLeft(writes, file)];
      if ok {
        ok := w.renamed(writes, file);
        if ok {
          files, temps := files[file := temps[file]], temps - {file};
          assert temps == old(temps) - {file};
          return;
        }
      }
      if w.tempRemoved(writes, file) {
        temps := temps - {file};
        assert temps == old(temps) - {file};
      }
    }

    /** Put the written files back; the ones that cannot be are stuck. */
    method RestoreFiles(w: World, written: seq<string>, originals: map<string, string>) returns (stuck: seq<string>)
      modifies this
      ensures Restored(stuck, Now()) == Restore(w, old(Now()), written, originals)
    {
      hide Replace;
      stuck := [];
      for i := 0 to |written|
        invariant var rest := Restore(w, Now(), written[i..], originals);
                  Restored(stuck + rest.stuck, rest.disk) == Restore(w, old(Now()), written, originals)
      {
        RestoreStep(w, Now(), written, i, originals, stuck);
        var ok := ReplaceFile(w, written[i], if written[i] in originals then originals[written[i]] else "");
        if !ok { stuck := stuck + [written[i]]; }
      }
    }

    /** Replace each edited file until one fails. */
    method WriteFiles(w: World, edits: Edits) returns (ok: bool, written: seq<string>)
      modifies this
      ensures Written(ok, Now(), written) == WriteAll(w, old(Now()), edits.order, edits, [])
    {
      written := [];
      for i := 0 to |edits.order|
        invariant WriteAll(w, Now(), edits.order[i..], edits, written) == WriteAll(w, old(Now()), edits.order, edits, [])
      {
        ghost var tail := edits.order[i..];
        var file := edits.order[i];
        assert tail[0] == file && tail[1..] == edits.order[i + 1..];
        ok := ReplaceFile(w, file, if file in edits.lines then JoinLines(edits.lines[file]) else "");
        if !ok { return; }
        written := written + [file];
      }
      ok := true;
    }

    method WriteGeneratedFiles(w: World, scan: Scan) returns (ok: bool)
      modifies this
      ensures Wrote(ok, Now()) == WriteGenerated(w, old(Now()), scan)
    {
      writes := writes + 1;
      if !w.writable(writes, MANIFEST) { manifest := w.spoiled(writes); return false; }
      manifest := Some(Manifest(w, scan));
      writes := writes + 1;
      if !w.writable(writes, NOT_COVERED) { notCovered := w.spoiled(writes); return false; }
      notCovered := Some(w.renderOther(scan.other));
      ok := true;
    }

    /** Edit in memory, write, scan again, and undo the writes if the second scan is not as expected. */
    method SyncPins(w: World) returns (outcome: Outcome)
      modifies this
      ensures Result(outcome, Now()) == Sync(w, old(Now()))
      ensures outcome.Refused? ==>
        && files.Keys == old(files).Keys && manifest == old(manifest) && notCovered == old(notCovered)
        && forall f | f in files && f !in outcome.stuck :: files[f] == old(files)[f]
      ensures outcome.Synced? ==> Check(w, Now())
    {
      hide HasProblems, Filter, Names, EditAll, LintBreaks, Verified, WriteAll, Restore, WriteGenerated, Check;
      var scan := w.collect(files);
      ghost var start := Now();
      if Sync(w, start).outcome.Refused? { RefusedSyncKeepsFiles(w, start); }
      if Sync(w, start).outcome.Synced? { CheckAfterSync(w, start); }
      var pins := GroupPins(scan.npm);
      if HasProblems(scan) { return Refused([]); }
      var shadow := if manifest.Some? then w.parse(manifest.value) else None;
      if shadow.None? { return Refused([]); }
      var bumped, conflicts, _ := ClassifyAll(w, shadow.value, pins);
      if conflicts != [] { return Refused([]); }
      if exists k | 0 <= k < |bumped| :: !Lint.ExactSemver(Asked(shadow.value, bumped[k])) { return Refused([]); }
      var edits := EditFiles(w, files, shadow.value, pins, bumped);
      if edits.None? { return Refused([]); }
      if LintBreaks(w, files, edits.value) { return Refused([]); }
      outcome := CommitEdits(w, shadow.value, pins, bumped, edits.value);
    }

    method CommitEdits(w: World, shadow: Shadow, pins: Pins, bumped: seq<string>, edits: Edits) returns (outcome: Outcome)
      modifies this
      ensures Result(outcome, Now()) == Commit(w, old(Now()), shadow, pins, bumped, edits)
    {
      hide Verified, WriteAll, Restore, WriteGenerated;
      var originals := files;
      var ok, written := WriteFiles(w, edits);
      if !ok {
        var stuck := RestoreFiles(w, written, originals);
        return Refused(stuck);
      }
      var after := w.collect(files);
      if !Verified(pins, after, shadow, bumped) {
        var stuck := RestoreFiles(w, written, originals);
        return Refused(stuck);
      }
      var generated := WriteGeneratedFiles(w, after);
      outcome := if generated then Synced(bumped) else Threw;
    }
  }
}
