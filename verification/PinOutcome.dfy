/** When a sync is refused and when it gets through, from the pins, the versions and the writes alone. */
module PinOutcome {
  import opened Text
  import opened PinSync
  import Lint

  // ---------------------------------------------------------------------------
  // What the versions say
  // ---------------------------------------------------------------------------

  /** The scanner's own problems, or one package at two versions. */
  predicate Troubled(scan: Scan) {
    || scan.problems != []
    || exists i, j | 0 <= i < |scan.npm| && 0 <= j < |scan.npm| ::
         scan.npm[i].name == scan.npm[j].name && scan.npm[i].version != scan.npm[j].version
  }

  predicate Pinned(scan: Scan, n: string, v: string) {
    exists k | 0 <= k < |scan.npm| :: scan.npm[k].name == n && scan.npm[k].version == v
  }

  /** The shadow was bumped and a skill still has the version it was generated at. */
  predicate OnlyShadowMoved(shadow: Shadow, scan: Scan, n: string) {
    && n in shadow.dependencies && n in shadow.generatedAt
    && shadow.dependencies[n] != shadow.generatedAt[n] && Pinned(scan, n, shadow.generatedAt[n])
  }

  /** The shadow was bumped and a skill has a third version. */
  predicate BothMoved(shadow: Shadow, scan: Scan, n: string) {
    && n in shadow.dependencies && n in shadow.generatedAt && shadow.dependencies[n] != shadow.generatedAt[n]
    && exists k | 0 <= k < |scan.npm| ::
         scan.npm[k].name == n && scan.npm[k].version != shadow.dependencies[n] && scan.npm[k].version != shadow.generatedAt[n]
  }

  lemma ListedIs(scan: Scan, n: string)
    ensures forall p :: p in Listed(PinsOf(scan), n) <==> p in scan.npm && p.name == n
    ensures n in PinsOf(scan) <==> exists p :: p in scan.npm && p.name == n
    ensures n in PinsOf(scan) ==> PinsOf(scan)[n] != []
  {
    hide PinsOf, Named;
    GroupIsComplete(scan, n);
    GroupsNonEmpty(scan);
    forall p { NamedIs(scan.npm, n, p); }
    if n in PinsOf(scan) { assert PinsOf(scan)[n][0] in Listed(PinsOf(scan), n); }
  }

  lemma TroubledIs(scan: Scan)
    ensures HasProblems(scan) <==> Troubled(scan)
  {
    hide PinsOf;
    if n :| n in PinsOf(scan) && !OneVersion(PinsOf(scan)[n]) {
      ListedIs(scan, n);
      var list := PinsOf(scan)[n];
      var k :| 0 <= k < |list| && list[k].version != list[0].version;
      assert list[k] in Listed(PinsOf(scan), n) && list[0] in Listed(PinsOf(scan), n);
      var i :| 0 <= i < |scan.npm| && scan.npm[i] == list[k];
      var j :| 0 <= j < |scan.npm| && scan.npm[j] == list[0];
    }
    if i, j :| 0 <= i < |scan.npm| && 0 <= j < |scan.npm|
               && scan.npm[i].name == scan.npm[j].name && scan.npm[i].version != scan.npm[j].version {
      ListedIs(scan, scan.npm[i].name);
      assert scan.npm[i] in Listed(PinsOf(scan), scan.npm[i].name) && scan.npm[j] in Listed(PinsOf(scan), scan.npm[i].name);
    }
  }

  /** Without trouble, a package's pins have the version of its first one. */
  lemma VersionIs(scan: Scan, n: string, v: string)
    requires !Troubled(scan)
    ensures VersionIn(PinsOf(scan), n) == Some(v) <==> Pinned(scan, n, v)
    ensures n !in PinsOf(scan) ==> VersionIn(PinsOf(scan), n) == None && !Pinned(scan, n, v)
  {
    hide PinsOf;
    ListedIs(scan, n);
    if n in PinsOf(scan) {
      var first := PinsOf(scan)[n][0];
      assert first in Listed(PinsOf(scan), n);
      var j :| 0 <= j < |scan.npm| && scan.npm[j] == first;
    }
    if Pinned(scan, n, v) {
      var k :| 0 <= k < |scan.npm| && scan.npm[k].name == n && scan.npm[k].version == v;
      assert scan.npm[k] in scan.npm;
    }
  }

  lemma ClassifyIs(shadow: Shadow, scan: Scan, n: string)
    requires !Troubled(scan)
    ensures Classify(shadow, PinsOf(scan), n) == Bumped <==> OnlyShadowMoved(shadow, scan, n)
    ensures Classify(shadow, PinsOf(scan), n) == Conflict <==> BothMoved(shadow, scan, n)
  {
    hide PinsOf, Pinned, Troubled;
    var pins: Pins := PinsOf(scan);
    ListedIs(scan, n);
    forall v { VersionIs(scan, n, v); }
    if n in pins {
      var v := pins[n][0].version;
      PinnedOnce(scan, n, v);
    } else {
      assert forall k | 0 <= k < |scan.npm| :: scan.npm[k] in scan.npm;
    }
  }

  lemma PinnedOnce(scan: Scan, n: string, v: string)
    requires !Troubled(scan) && Pinned(scan, n, v)
    ensures forall k | 0 <= k < |scan.npm| :: scan.npm[k].name == n ==> scan.npm[k].version == v
    ensures exists k | 0 <= k < |scan.npm| :: scan.npm[k].name == n && scan.npm[k].version == v
    ensures forall u :: Pinned(scan, n, u) <==> u == v
  {
  }

  // ---------------------------------------------------------------------------
  // The gates of a sync
  // ---------------------------------------------------------------------------

  function BumpsOf(w: World, shadow: Shadow, scan: Scan): seq<string> {
    Filter(shadow, PinsOf(scan), Names(w, shadow, PinsOf(scan)), BUMPED)
  }

  lemma BumpsAre(w: World, shadow: Shadow, scan: Scan, n: string)
    requires Sorts(w) && !Troubled(scan)
    ensures n in BumpsOf(w, shadow, scan) <==> OnlyShadowMoved(shadow, scan, n)
    ensures n in Filter(shadow, PinsOf(scan), Names(w, shadow, PinsOf(scan)), CONFLICT) <==> BothMoved(shadow, scan, n)
  {
    hide PinsOf, Filter, Names, Classify, Troubled;
    var pins := PinsOf(scan);
    FilterLists(shadow, pins, Names(w, shadow, pins), BUMPED, n);
    FilterLists(shadow, pins, Names(w, shadow, pins), CONFLICT, n);
    NamesKnown(w, shadow, pins, n);
    ClassifyIs(shadow, scan, n);
  }

  /** The text a moved file gets. */
  function MovedText(w: World, files: map<string, string>, moves: seq<Move>, f: string): string
    requires f in files
  {
    JoinLines(LinesAfter(w, moves, f, SplitLines(files[f])))
  }

  /** The moves of a sync: every pin of a bumped package, to the shadow's version. */
  function MovesFor(w: World, shadow: Shadow, scan: Scan): seq<Move> {
    Moves(shadow, PinsOf(scan), BumpsOf(w, shadow, scan))
  }

  ghost predicate EditsPass(w: World, files: map<string, string>, moves: seq<Move>) {
    && (forall i | 0 <= i < |moves| :: Makes(w, files, moves, i))
    && (forall f | f in files && Moved(moves, f) :: w.lint(f, files[f], MovedText(w, files, moves, f)) == [])
  }

  /** Everything a sync asks before it writes. */
  ghost predicate Passes(w: World, disk: Disk) {
    var scan := w.collect(disk.files);
    && !Troubled(scan)
    && disk.manifest.Some? && w.parse(disk.manifest.value).Some?
    && var shadow := w.parse(disk.manifest.value).value;
    && (forall n :: !BothMoved(shadow, scan, n))
    && (forall n :: OnlyShadowMoved(shadow, scan, n) ==> Lint.ExactSemver(shadow.dependencies[n]))
    && EditsPass(w, disk.files, MovesFor(w, shadow, scan))
  }

  /** The version a pin is expected at after the sync. */
  function Expected(shadow: Shadow, before: Scan, q: Pin): string {
    if OnlyShadowMoved(shadow, before, q.name) then shadow.dependencies[q.name] else q.version
  }

  /** The rescan shows as many pins of each package, at the shadow's version if only the shadow moved, else as before. */
  ghost predicate AsExpected(shadow: Shadow, before: Scan, after: Scan) {
    && !Troubled(after)
    && (forall n :: |Named(after.npm, n)| == |Named(before.npm, n)|)
    && forall p, q | p in after.npm && q in before.npm && p.name == q.name :: p.version == Expected(shadow, before, q)
  }

  /** No write fails. */
  ghost predicate Reliable(w: World) {
    && (forall n: nat, f :: w.tempWritten(n, f)) && (forall n: nat, f :: w.renamed(n, f)) && (forall n: nat, f :: w.writable(n, f))
  }

  lemma ShadowRead(w: World, disk: Disk)
    ensures ReadShadow(w, disk).Some? <==> disk.manifest.Some? && w.parse(disk.manifest.value).Some?
    ensures ReadShadow(w, disk).Some? ==> ReadShadow(w, disk) == w.parse(disk.manifest.value)
  {
  }

  // ---------------------------------------------------------------------------
  // The edits get through exactly when every move finds its line
  // ---------------------------------------------------------------------------

  lemma EditPinGets(w: World, files: map<string, string>, p: Pin, to: string, edits: Edits, done: seq<Move>, all: seq<Move>)
    requires EditedBy(w, files, edits, done) && |done| < |all| && all[..|done|] == done && all[|done|] == Move(p, to)
    requires Makes(w, files, all, |done|)
    ensures EditPin(w, files, p, to, edits).Some?
  {
    hide LineAfter, SplitLines, LinesAfter, Moved;
    var text := SplitLines(files[p.file]);
    LinesLength(w, done, p.file, text);
    if p.file !in edits.lines { UnmovedLines(w, done, p.file, text); }
  }

  lemma {:induction false} EditPinsGet(w: World, files: map<string, string>, list: seq<Pin>, to: string, edits: Edits, done: seq<Move>, all: seq<Move>)
    requires EditedBy(w, files, edits, done) && done + MovesOf(list, to) <= all
    requires forall i | 0 <= i < |all| :: Makes(w, files, all, i)
    ensures EditPins(w, files, list, to, edits).Some?
  {
    hide EditedBy, EditPin, Makes;
    if list != [] {
      assert MovesOf(list, to)[0] == Move(list[0], to);
      assert (done + MovesOf(list, to))[|done|] == Move(list[0], to);
      EditPinGets(w, files, list[0], to, edits, done, all);
      EditPinBy(w, files, list[0], to, edits, done);
      assert done + [Move(list[0], to)] + MovesOf(list[1..], to) == done + MovesOf(list, to);
      EditPinsGet(w, files, list[1..], to, EditPin(w, files, list[0], to, edits).value, done + [Move(list[0], to)], all);
    }
  }

  lemma {:induction false} EditAllGets(w: World, files: map<string, string>, shadow: Shadow, pins: Pins, names: seq<string>, edits: Edits,
                                       done: seq<Move>, all: seq<Move>)
    requires EditedBy(w, files, edits, done) && done + Moves(shadow, pins, names) == all
    requires forall i | 0 <= i < |all| :: Makes(w, files, all, i)
    ensures EditAll(w, files, shadow, pins, names, edits).Some?
  {
    hide EditedBy, EditPins, Makes, MovesOf;
    if names != [] {
      var list, to := Listed(pins, names[0]), Asked(shadow, names[0]);
      Regroup(done, MovesOf(list, to), Moves(shadow, pins, names[1..]));
      EditPinsGet(w, files, list, to, edits, done, all);
      EditPinsBy(w, files, list, to, edits, done);
      EditAllGets(w, files, shadow, pins, names[1..], EditPins(w, files, list, to, edits).value, done + MovesOf(list, to), all);
    }
  }

  /** The edits of the whole sync: they are made exactly when every move finds its line, and then they are its moves'. */
  lemma EditsAre(w: World, files: map<string, string>, shadow: Shadow, scan: Scan)
    ensures var moves, edits := MovesFor(w, shadow, scan), EditAll(w, files, shadow, PinsOf(scan), BumpsOf(w, shadow, scan), NO_EDITS);
      && (edits.Some? <==> forall i | 0 <= i < |moves| :: Makes(w, files, moves, i))
      && (edits.Some? ==> EditedBy(w, files, edits.value, moves) && EditsOf(files, edits.value))
  {
    hide PinsOf, BumpsOf, Moves, Makes, EditAll, EditsOf;
    var pins, bumped := PinsOf(scan), BumpsOf(w, shadow, scan);
    var moves := Moves(shadow, pins, bumped);
    assert [] + moves == moves;
    NothingEdited(w, files);
    NoEditsOf(files);
    if forall i | 0 <= i < |moves| :: Makes(w, files, moves, i) {
      EditAllGets(w, files, shadow, pins, bumped, NO_EDITS, [], moves);
    }
    if EditAll(w, files, shadow, pins, bumped, NO_EDITS).Some? {
      EditAllBy(w, files, shadow, pins, bumped, NO_EDITS, []);
      EditAllFiles(w, files, shadow, pins, bumped, NO_EDITS);
    }
  }

  lemma LintIs(w: World, files: map<string, string>, edits: Edits, moves: seq<Move>)
    requires EditedBy(w, files, edits, moves)
    ensures LintBreaks(w, files, edits) <==>
      exists f :: f in files && Moved(moves, f) && w.lint(f, files[f], MovedText(w, files, moves, f)) != []
  {
    hide Moved, LinesAfter, JoinLines, SplitLines, Makes;
    if f :| f in files && Moved(moves, f) && w.lint(f, files[f], MovedText(w, files, moves, f)) != [] {
      var k :| 0 <= k < |edits.order| && edits.order[k] == f;
    }
  }

  // ---------------------------------------------------------------------------
  // The rescan
  // ---------------------------------------------------------------------------

  lemma NamedLists(scan: Scan, n: string)
    ensures Listed(PinsOf(scan), n) == Named(scan.npm, n)
    ensures n in PinsOf(scan) <==> Named(scan.npm, n) != []
  {
    hide PinsOf, Named;
    GroupIsComplete(scan, n);
    GroupsNonEmpty(scan);
  }

  /** The version a package is expected at. */
  lemma WantedIs(w: World, shadow: Shadow, before: Scan, q: Pin)
    requires Sorts(w) && !Troubled(before) && q in before.npm
    ensures (if q.name in BumpsOf(w, shadow, before) then Some(Asked(shadow, q.name)) else VersionIn(PinsOf(before), q.name))
         == Some(Expected(shadow, before, q))
  {
    hide PinsOf, BumpsOf, Troubled;
    BumpsAre(w, shadow, before, q.name);
    VersionIs(before, q.name, q.version);
    var k :| 0 <= k < |before.npm| && before.npm[k] == q;
  }

  lemma VerifiedIs(w: World, shadow: Shadow, before: Scan, after: Scan)
    requires Sorts(w) && !Troubled(before)
    ensures Verified(PinsOf(before), after, shadow, BumpsOf(w, shadow, before)) <==> AsExpected(shadow, before, after)
  {
    hide PinsOf, BumpsOf, Troubled, HasProblems, VersionIn, Expected, Named;
    TroubledIs(after);
    if Verified(PinsOf(before), after, shadow, BumpsOf(w, shadow, before)) { VerifiedExpected(w, shadow, before, after); }
    if AsExpected(shadow, before, after) { ExpectedVerified(w, shadow, before, after); }
  }

  lemma VerifiedExpected(w: World, shadow: Shadow, before: Scan, after: Scan)
    requires Sorts(w) && !Troubled(before) && Verified(PinsOf(before), after, shadow, BumpsOf(w, shadow, before))
    ensures AsExpected(shadow, before, after)
  {
    hide PinsOf, BumpsOf, Troubled, HasProblems, VersionIn, Expected, Named, Asked;
    TroubledIs(after);
    var old', now := PinsOf(before), PinsOf(after);
    forall n ensures |Named(after.npm, n)| == |Named(before.npm, n)| {
      NamedLists(before, n);
      NamedLists(after, n);
    }
    forall p, q | p in after.npm && q in before.npm && p.name == q.name
      ensures p.version == Expected(shadow, before, q)
    {
      NamedLists(before, p.name);
      NamedLists(after, p.name);
      NamedIs(after.npm, p.name, p);
      NamedIs(before.npm, p.name, q);
      assert p in Listed(now, p.name);
      var k :| 0 <= k < |Listed(now, p.name)| && Listed(now, p.name)[k] == p;
      WantedIs(w, shadow, before, q);
    }
  }

  lemma ExpectedVerified(w: World, shadow: Shadow, before: Scan, after: Scan)
    requires Sorts(w) && !Troubled(before) && AsExpected(shadow, before, after)
    ensures Verified(PinsOf(before), after, shadow, BumpsOf(w, shadow, before))
  {
    hide PinsOf, BumpsOf, Troubled, HasProblems, VersionIn, Expected, Named, Asked;
    TroubledIs(after);
    var old', now: Pins := PinsOf(before), PinsOf(after);
    forall n ensures n in old' ==> |Listed(now, n)| == |old'[n]| ensures n in now ==> n in old' {
      NamedLists(before, n);
      NamedLists(after, n);
    }
    forall n, k | n in old' && 0 <= k < |Listed(now, n)|
      ensures Some(Listed(now, n)[k].version) == if n in BumpsOf(w, shadow, before) then Some(Asked(shadow, n)) else VersionIn(old', n)
    {
      var p, q := Listed(now, n)[k], old'[n][0];
      ListedIs(after, n);
      ListedIs(before, n);
      assert p in Listed(now, n) && q in Listed(old', n);
      WantedIs(w, shadow, before, q);
    }
  }

  // ---------------------------------------------------------------------------
  // The outcome
  // ---------------------------------------------------------------------------

  lemma {:induction false} ReliableWrites(w: World, disk: Disk, order: seq<string>, edits: Edits, written: seq<string>)
    requires Reliable(w)
    ensures WriteAll(w, disk, order, edits, written).ok
    decreases |order|
  {
    if order != [] {
      var r := Replace(w, disk, order[0], if order[0] in edits.lines then JoinLines(edits.lines[order[0]]) else "");
      ReliableWrites(w, r.disk, order[1..], edits, written + [order[0]]);
    }
  }

  /** Only a file whose replacement fails can be left at its new text. */
  lemma {:induction false} StuckFailed(w: World, disk: Disk, written: seq<string>, originals: map<string, string>, f: string) returns (n: nat)
    requires f in Restore(w, disk, written, originals).stuck
    ensures disk.writes < n && !(w.tempWritten(n, f) && w.renamed(n, f))
    decreases |written|
  {
    var r := Replace(w, disk, written[0], if written[0] in originals then originals[written[0]] else "");
    if !r.ok && f == written[0] { n := disk.writes + 1; } else { n := StuckFailed(w, r.disk, written[1..], originals, f); }
  }

  /** The skill files once all moves are made. */
  function AllMoved(w: World, files: map<string, string>, moves: seq<Move>): map<string, string> {
    map f | f in files :: if Moved(moves, f) then MovedText(w, files, moves, f) else files[f]
  }

  lemma ReliableCommit(w: World, disk: Disk, shadow: Shadow, pins: Pins, bumped: seq<string>, edits: Edits, moves: seq<Move>)
    requires Reliable(w) && EditedBy(w, disk.files, edits, moves) && EditsOf(disk.files, edits)
    ensures var files := AllMoved(w, disk.files, moves);
            var r := Commit(w, disk, shadow, pins, bumped, edits);
            if Verified(pins, w.collect(files), shadow, bumped) then r.outcome == Synced(bumped) && r.disk.files == files
            else r.outcome.Refused? && r.outcome.stuck == []
  {
    hide WriteAll, Verified, JoinLines, SplitLines, LinesAfter, Moved, Makes, Manifest, Restore;
    ReliableWrites(w, disk, edits.order, edits, []);
    EditsInFiles(disk.files, edits);
    WriteAllWrites(w, disk, edits.order, edits, []);
    var wrote := WriteAll(w, disk, edits.order, edits, []);
    assert wrote.disk.files == AllMoved(w, disk.files, moves);
    var back := Restore(w, wrote.disk, wrote.files, disk.files);
    if back.stuck != [] { var n := StuckFailed(w, wrote.disk, wrote.files, disk.files, back.stuck[0]); }
  }

  lemma GatesAre(w: World, disk: Disk)
    requires Sorts(w)
    ensures var scan, shadow := w.collect(disk.files), ReadShadow(w, disk);
      Passes(w, disk) <==>
        && !HasProblems(scan) && shadow.Some?
        && Filter(shadow.value, PinsOf(scan), Names(w, shadow.value, PinsOf(scan)), CONFLICT) == []
        && (forall k | 0 <= k < |BumpsOf(w, shadow.value, scan)| :: Lint.ExactSemver(Asked(shadow.value, BumpsOf(w, shadow.value, scan)[k])))
        && var edits := EditAll(w, disk.files, shadow.value, PinsOf(scan), BumpsOf(w, shadow.value, scan), NO_EDITS);
           edits.Some? && !LintBreaks(w, disk.files, edits.value)
  {
    hide PinsOf, BumpsOf, Troubled, HasProblems, Filter, Names, EditAll, LintBreaks, Makes, Moved, OnlyShadowMoved, BothMoved, EditedBy, EditsOf;
    hide Lint.ExactSemver, ReadShadow, MovedText, MovesFor, Asked;
    var scan := w.collect(disk.files);
    TroubledIs(scan);
    ShadowRead(w, disk);
    if !HasProblems(scan) && ReadShadow(w, disk).Some? {
      var shadow := ReadShadow(w, disk).value;
      forall n { BumpsAre(w, shadow, scan, n); }
      var conflicts, bumps := Filter(shadow, PinsOf(scan), Names(w, shadow, PinsOf(scan)), CONFLICT), BumpsOf(w, shadow, scan);
      assert conflicts != [] ==> conflicts[0] in conflicts;
      ExactBumps(shadow, scan, bumps);
      EditsAre(w, disk.files, shadow, scan);
      var edits := EditAll(w, disk.files, shadow, PinsOf(scan), bumps, NO_EDITS);
      if edits.Some? { LintIs(w, disk.files, edits.value, MovesFor(w, shadow, scan)); }
    }
  }

  lemma ExactBumps(shadow: Shadow, scan: Scan, bumps: seq<string>)
    requires forall n :: n in bumps <==> OnlyShadowMoved(shadow, scan, n)
    ensures (forall k | 0 <= k < |bumps| :: Lint.ExactSemver(Asked(shadow, bumps[k])))
            <==> forall n :: OnlyShadowMoved(shadow, scan, n) ==> Lint.ExactSemver(shadow.dependencies[n])
  {
    hide Lint.ExactSemver;
    if forall k | 0 <= k < |bumps| :: Lint.ExactSemver(Asked(shadow, bumps[k])) {
      forall n | OnlyShadowMoved(shadow, scan, n) ensures Lint.ExactSemver(shadow.dependencies[n]) {
        var k :| 0 <= k < |bumps| && bumps[k] == n;
      }
    } else {
      var k :| 0 <= k < |bumps| && !Lint.ExactSemver(Asked(shadow, bumps[k]));
      assert bumps[k] in bumps;
    }
  }

  /**
   * A sync refuses at once, changing nothing, exactly when something it asks for before
   * writing is not so. Otherwise, if no write fails, it moves every pin of the packages only
   * the shadow moved, and stays with that exactly when the rescan shows those moves and no other.
   */
  lemma SyncOutcome(w: World, disk: Disk)
    requires Sorts(w)
    ensures !Passes(w, disk) ==> Sync(w, disk) == Result(Refused([]), disk)
    ensures Passes(w, disk) && Reliable(w) ==>
      var scan, shadow := w.collect(disk.files), w.parse(disk.manifest.value).value;
      var files := AllMoved(w, disk.files, MovesFor(w, shadow, scan));
      var r := Sync(w, disk);
      if AsExpected(shadow, scan, w.collect(files)) then
        && r.outcome.Synced? && r.disk.files == files
        && forall n :: n in r.outcome.bumped <==> OnlyShadowMoved(shadow, scan, n)
      else r.outcome == Refused([]) && r.disk.files == disk.files
  {
    hide PinsOf, BumpsOf, Troubled, HasProblems, Filter, Names, EditAll, LintBreaks, Makes, Moved, OnlyShadowMoved, BothMoved, EditedBy, EditsOf;
    hide Lint.ExactSemver, ReadShadow, Commit, AsExpected, Passes, Reliable, Verified, AllMoved, MovesFor, Sorts;
    GatesAre(w, disk);
    SyncIs(w, disk);
    if Passes(w, disk) && Reliable(w) {
      PassesMeans(w, disk);
      var scan, shadow := w.collect(disk.files), ReadShadow(w, disk).value;
      EditsAre(w, disk.files, shadow, scan);
      var edits, bumps := EditAll(w, disk.files, shadow, PinsOf(scan), BumpsOf(w, shadow, scan), NO_EDITS), BumpsOf(w, shadow, scan);
      ReliableCommit(w, disk, shadow, PinsOf(scan), bumps, edits.value, MovesFor(w, shadow, scan));
      VerifiedIs(w, shadow, scan, w.collect(AllMoved(w, disk.files, MovesFor(w, shadow, scan))));
      forall n { BumpsAre(w, shadow, scan, n); }
      if Sync(w, disk).outcome.Refused? { RefusedSameFiles(w, disk); }
    }
  }

  lemma PassesMeans(w: World, disk: Disk)
    requires Passes(w, disk)
    ensures !Troubled(w.collect(disk.files)) && ReadShadow(w, disk) == w.parse(disk.manifest.value)
  {
    hide Troubled, BothMoved, OnlyShadowMoved, Lint.ExactSemver, EditsPass;
  }

  lemma RefusedSameFiles(w: World, disk: Disk)
    requires Sync(w, disk).outcome == Refused([])
    ensures Sync(w, disk).disk.files == disk.files
  {
    hide Sync;
    RefusedSyncKeepsFiles(w, disk);
  }

  lemma SyncIs(w: World, disk: Disk)
    ensures var scan, shadow := w.collect(disk.files), ReadShadow(w, disk);
      var go :=
        && !HasProblems(scan) && shadow.Some?
        && Filter(shadow.value, PinsOf(scan), Names(w, shadow.value, PinsOf(scan)), CONFLICT) == []
        && (forall k | 0 <= k < |BumpsOf(w, shadow.value, scan)| :: Lint.ExactSemver(Asked(shadow.value, BumpsOf(w, shadow.value, scan)[k])))
        && var edits := EditAll(w, disk.files, shadow.value, PinsOf(scan), BumpsOf(w, shadow.value, scan), NO_EDITS);
           edits.Some? && !LintBreaks(w, disk.files, edits.value);
      Sync(w, disk) ==
        if !go then Result(Refused([]), disk)
        else Commit(w, disk, shadow.value, PinsOf(scan), BumpsOf(w, shadow.value, scan),
                    EditAll(w, disk.files, shadow.value, PinsOf(scan), BumpsOf(w, shadow.value, scan), NO_EDITS).value)
  {
    hide PinsOf, HasProblems, Filter, Names, EditAll, LintBreaks, Lint.ExactSemver, ReadShadow, Commit, Asked;
  }

  /** One package that a skill, the shadow and the generated version each have at another version stops the sync. */
  lemma ConflictRefuses(w: World, disk: Disk, n: string)
    requires Sorts(w) && disk.manifest.Some? && w.parse(disk.manifest.value).Some?
    requires BothMoved(w.parse(disk.manifest.value).value, w.collect(disk.files), n)
    ensures Sync(w, disk) == Result(Refused([]), disk)
  {
    hide BothMoved, Sync, Sorts;
    SyncOutcome(w, disk);
    if Passes(w, disk) { NoConflict(w, disk, n); }
  }

  lemma NoConflict(w: World, disk: Disk, n: string)
    requires Passes(w, disk)
    ensures !BothMoved(w.parse(disk.manifest.value).value, w.collect(disk.files), n)
  {
    hide BothMoved, OnlyShadowMoved, Troubled, Lint.ExactSemver, EditsPass;
  }

  /** A refused sync names a file as stuck only if putting it back failed. */
  lemma StuckIsFailed(w: World, disk: Disk, f: string) returns (n: nat)
    requires Sync(w, disk).outcome.Refused? && f in Sync(w, disk).outcome.stuck
    ensures !(w.tempWritten(n, f) && w.renamed(n, f))
  {
    hide PinsOf, BumpsOf, HasProblems, Filter, Names, EditAll, LintBreaks, Lint.ExactSemver, ReadShadow, Asked, Verified, WriteAll, Restore;
    SyncIs(w, disk);
    var shadow, scan := ReadShadow(w, disk).value, w.collect(disk.files);
    var edits := EditAll(w, disk.files, shadow, PinsOf(scan), BumpsOf(w, shadow, scan), NO_EDITS).value;
    var wrote := WriteAll(w, disk, edits.order, edits, []);
    n := StuckFailed(w, wrote.disk, wrote.files, disk.files, f);
  }

  /** Generating rewrites the two files exactly when there is no trouble and, unless forced, no pending bump. */
  lemma GenerateOutcome(w: World, disk: Disk, force: bool)
    requires Sorts(w)
    ensures var scan, shadow := w.collect(disk.files), ShadowOrEmpty(w, disk);
      if Troubled(scan) || (!force && exists n :: OnlyShadowMoved(shadow, scan, n)) then Generate(w, disk, force) == Result(Refused([]), disk)
      else Generate(w, disk, force).outcome
           == if w.writable(disk.writes + 1, MANIFEST) && w.writable(disk.writes + 2, NOT_COVERED) then Synced([]) else Threw
  {
    hide PinsOf, BumpsOf, Troubled, HasProblems, Filter, Names, OnlyShadowMoved, BothMoved, ShadowOrEmpty, Manifest, Sorts;
    var scan, shadow := w.collect(disk.files), ShadowOrEmpty(w, disk);
    TroubledIs(scan);
    if !Troubled(scan) {
      forall n { BumpsAre(w, shadow, scan, n); }
      var bumps := Filter(shadow, PinsOf(scan), Names(w, shadow, PinsOf(scan)), BUMPED);
      assert bumps == BumpsOf(w, shadow, scan) by { BumpsFilter(w, shadow, scan); }
      assert bumps != [] ==> bumps[0] in bumps;
    }
  }

  lemma BumpsFilter(w: World, shadow: Shadow, scan: Scan)
    ensures BumpsOf(w, shadow, scan) == Filter(shadow, PinsOf(scan), Names(w, shadow, PinsOf(scan)), BUMPED)
  {
    hide PinsOf, Filter, Names;
  }

  // ---------------------------------------------------------------------------
  // The generated files
  // ---------------------------------------------------------------------------

  /** Every pinned package at its version, with the places it is pinned at. */
  ghost predicate Lists(w: World, scan: Scan, deps: map<string, string>, entries: map<string, Entry>) {
    && (forall n, v :: (n in deps && deps[n] == v) <==> Pinned(scan, n, v))
    && entries.Keys == deps.Keys && forall n | n in deps :: entries[n] == PinSync.Entry(deps[n], w.sources(Named(scan.npm, n)))
  }

  lemma ManifestIs(w: World, scan: Scan)
    requires !Troubled(scan)
    ensures exists deps, entries :: Lists(w, scan, deps, entries) && Manifest(w, scan) == w.renderPins(deps, entries)
    ensures forall deps, entries :: Lists(w, scan, deps, entries) ==> Manifest(w, scan) == w.renderPins(deps, entries)
  {
    hide PinsOf, Pinned, Troubled, Named;
    var pins: Pins := PinsOf(scan);
    var deps: map<string, string> := Dependencies(pins);
    var entries: map<string, Entry> := map n | n in Dependencies(pins) :: PinSync.Entry(pins[n][0].version, w.sources(pins[n]));
    forall n, v ensures (n in deps && deps[n] == v) <==> Pinned(scan, n, v) {
      ListedIs(scan, n);
      VersionIs(scan, n, v);
    }
    forall n | n in deps ensures entries[n] == PinSync.Entry(deps[n], w.sources(Named(scan.npm, n))) {
      ListedIs(scan, n);
      GroupIsComplete(scan, n);
    }
    assert Lists(w, scan, deps, entries);
    forall ds, es | Lists(w, scan, ds, es) ensures Manifest(w, scan) == w.renderPins(ds, es) {
      forall n ensures n in ds <==> n in deps {
        if n in ds { assert Pinned(scan, n, ds[n]); }
        if n in deps { assert Pinned(scan, n, deps[n]); }
      }
      forall n | n in ds ensures ds[n] == deps[n] { assert Pinned(scan, n, ds[n]); }
      assert ds == deps && es == entries;
    }
  }

  /**
   * The check succeeds exactly when the scan is without trouble and both generated files are what the
   * skills say: every pinned package at its version with its places, and what is not covered.
   */
  lemma CheckIs(w: World, disk: Disk)
    ensures var scan := w.collect(disk.files);
      Check(w, disk) <==>
        && !Troubled(scan) && disk.notCovered == Some(w.renderOther(scan.other))
        && exists deps, entries :: Lists(w, scan, deps, entries) && disk.manifest == Some(w.renderPins(deps, entries))
  {
    hide HasProblems, Troubled, Manifest, Lists;
    var scan := w.collect(disk.files);
    TroubledIs(scan);
    if !Troubled(scan) { ManifestIs(w, scan); }
  }
}
