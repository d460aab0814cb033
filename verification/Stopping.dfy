/** What undoing each entry takes out, where a removal stops, and what it leaves there. */
module Stopping {
  import opened Text
  import opened Directives
  import opened Engine
  import opened Journal

  // ---------------------------------------------------------------------------
  // One entry
  // ---------------------------------------------------------------------------

  /** The element has the value under the key; without a value, it has no such key. Objects and lists are never the same value. */
  predicate Carries(element: Json, key: string, value: Option<Json>) {
    match element
    case Obj(fields) => if key in fields then value == Some(fields[key]) && !fields[key].Obj? && !fields[key].Arr? else value == None
    case Arr(_) => value == None
    case _ => false
  }

  /** Nothing but the path is touched. */
  ghost predicate SameBut(before: Tree, after: Tree, path: string) {
    forall p | p != path :: (p in after <==> p in before) && (p in after ==> after[p] == before[p])
  }

  /** The list without its first carrier, or with the previous element in its place; a list without a carrier stays. */
  ghost predicate TakenOut(before: seq<Json>, after: seq<Json>, key: string, value: Option<Json>, previous: Option<Json>) {
    || (after == before && forall k | 0 <= k < |before| :: !Carries(before[k], key, value))
    || exists k | 0 <= k < |before| ::
         && Carries(before[k], key, value) && (forall j | 0 <= j < k :: !Carries(before[j], key, value))
         && after == before[..k] + (if previous.Some? then [previous.value] else []) + before[k + 1..]
  }

  /** What undoing an entry leaves, whatever became of the project since. */
  ghost predicate UndoneTo(w: World, e: Entry, before: Tree, after: Tree) {
    match e
    case Wrote(path) => path !in after && SameBut(before, after, path)
    case Appended(path, line) =>
      SameBut(before, after, path) && path in after
      && after[path] == Lines(Only(ReadLines(w, before, path), (l: string) => Trim(l) != Trim(line)))
    case EnvSet(key) =>
      SameBut(before, after, ".env") && ".env" in after
      && after[".env"] == Lines(Only(ReadLines(w, before, ".env"), (l: string) => !(key + "=" <= l)))
    case Merged(path, key, value, previous) =>
      (match ReadArray(w, before, path)
       case None => after == before
       case Some(items) =>
         SameBut(before, after, path) && path in after && after[path].Entries? && TakenOut(items, after[path].items, key, value, previous))
    case CommandRan(_, _) => after == before
  }

  lemma {:induction false} WithoutIs(lines: seq<string>, e: Entry)
    ensures WithoutLine(lines, e) == Only(lines, (l: string) => !Kills(e, l))
  {
    hide Kills;
    if lines != [] { WithoutIs(lines[1..], e); }
  }

  lemma {:induction false} OnlySame(lines: seq<string>, a: string -> bool, b: string -> bool)
    requires forall l :: a(l) == b(l)
    ensures Only(lines, a) == Only(lines, b)
  {
    if lines != [] { OnlySame(lines[1..], a, b); }
  }

  lemma CarriesIs(element: Json, key: string, value: Option<Json>)
    ensures ElementHas(element, key, value) <==> Carries(element, key, value)
  {
  }

  lemma MergeTakenOut(items: seq<Json>, key: string, value: Option<Json>, previous: Option<Json>)
    ensures TakenOut(items, UndoMerge(items, key, value, previous), key, value, previous)
  {
    hide Carries, ElementHas;
    forall k | 0 <= k < |items| ensures ElementHas(items[k], key, value) <==> Carries(items[k], key, value) {
      CarriesIs(items[k], key, value);
    }
    var at := FindElement(items, key, value);
    if at < |items| {
      assert Carries(items[at], key, value);
      if previous.Some? { assert items[at := previous.value] == items[..at] + [previous.value] + items[at + 1..]; }
      assert items[..at] + [] + items[at + 1..] == items[..at] + items[at + 1..];
    }
  }

  /** Undoing one entry takes out what the entry names and nothing else, in any project. */
  lemma EntryUndone(w: World, e: Entry, tree: Tree)
    ensures UndoneTo(w, e, tree, UndoEntry(w, e, tree))
  {
    hide ReadLines, ReadArray, Trim, TakenOut;
    match e
    case Appended(path, line) =>
      WithoutIs(ReadLines(w, tree, path), e);
      OnlySame(ReadLines(w, tree, path), (l: string) => !Kills(e, l), (l: string) => Trim(l) != Trim(line));
    case EnvSet(key) =>
      WithoutIs(ReadLines(w, tree, ".env"), e);
      OnlySame(ReadLines(w, tree, ".env"), (l: string) => !Kills(e, l), (l: string) => !(key + "=" <= l));
    case Merged(path, key, value, previous) =>
      if ReadArray(w, tree, path).Some? { MergeTakenOut(ReadArray(w, tree, path).value, key, value, previous); }
    case _ =>
  }

  // ---------------------------------------------------------------------------
  // The whole removal
  // ---------------------------------------------------------------------------

  /** The merged file is a text that is not empty and does not parse. */
  predicate Garbled(w: World, tree: Tree, path: string) {
    path in tree && tree[path].Lines? && JoinLines(tree[path].lines) != "" && w.parse(JoinLines(tree[path].lines)) == None
  }

  /** Undoing the entry throws: its merged file is garbled, or its file operation or undo command fails. */
  predicate Stuck(w: World, k: nat, e: Entry, tree: Tree) {
    match e
    case Merged(path, _, _, _) => Garbled(w, tree, path) || w.halts(k, e).Some?
    case CommandRan(_, undo) => undo.Some? && undo.value != "" && w.halts(k, e).Some?
    case _ => w.halts(k, e).Some?
  }

  /** The file whose operation failed is what the failure left of it; nothing else is touched. */
  ghost predicate LeftBehind(w: World, k: nat, e: Entry, before: Tree, after: Tree) {
    match e
    case CommandRan(_, _) => after == before
    case Merged(path, _, _, _) => if Garbled(w, before, path) then after == before else OnlyPath(before, after, path, w.halts(k, e))
    case Wrote(path) => OnlyPath(before, after, path, w.halts(k, e))
    case Appended(path, _) => OnlyPath(before, after, path, w.halts(k, e))
    case EnvSet(_) => OnlyPath(before, after, ".env", w.halts(k, e))
  }

  ghost predicate OnlyPath(before: Tree, after: Tree, path: string, left: Option<Option<File>>) {
    left.Some? && (if path in after then left.value == Some(after[path]) else left.value == None) && SameBut(before, after, path)
  }

  /** The tree once the entries from `k` on are undone, newest first. */
  function Undone(w: World, tree: Tree, journal: seq<Entry>, k: nat): Tree
    requires k <= |journal|
    decreases |journal| - k
  {
    if k == |journal| then tree else UndoEntry(w, journal[k], Undone(w, tree, journal, k + 1))
  }

  /** Entry `k` is the newest one that is stuck when its turn comes. */
  ghost predicate StopsHere(w: World, tree: Tree, journal: seq<Entry>, k: nat) {
    && k < |journal| && Stuck(w, k, journal[k], Undone(w, tree, journal, k + 1))
    && forall j | k < j < |journal| :: !Stuck(w, j, journal[j], Undone(w, tree, journal, j + 1))
  }

  lemma StuckIff(w: World, k: nat, e: Entry, tree: Tree)
    ensures Stops(w, k, e, tree) <==> Stuck(w, k, e, tree)
    ensures Stops(w, k, e, tree) ==> LeftBehind(w, k, e, tree, Halted(w, k, e, tree))
  {
  }

  lemma {:induction false} UndoneShorter(w: World, tree: Tree, journal: seq<Entry>, k: nat)
    requires journal != [] && k < |journal|
    ensures Undone(w, tree, journal, k)
         == Undone(w, UndoEntry(w, journal[|journal| - 1], tree), journal[..|journal| - 1], k)
    decreases |journal| - k
  {
    hide UndoEntry;
    if k + 1 < |journal| { UndoneShorter(w, tree, journal, k + 1); }
  }

  /** No entry is stuck when its turn comes. */
  ghost predicate Unstuck(w: World, tree: Tree, journal: seq<Entry>) {
    forall k | 0 <= k < |journal| :: !Stuck(w, k, journal[k], Undone(w, tree, journal, k + 1))
  }

  /** The newest entry goes through: the rest is a removal of the journal without it. */
  lemma StopsEarlier(w: World, tree: Tree, journal: seq<Entry>, k: nat)
    requires journal != [] && !Stuck(w, |journal| - 1, journal[|journal| - 1], tree) && StopsHere(w, tree, journal, k)
    ensures var n, next := |journal| - 1, UndoEntry(w, journal[|journal| - 1], tree);
      && k < n && StopsHere(w, next, journal[..n], k) && Undone(w, tree, journal, k + 1) == Undone(w, next, journal[..n], k + 1)
      && UndoCommands(journal[k..]) == UndoCall(journal[n]) + UndoCommands(journal[..n][k..])
  {
    hide UndoEntry, Stuck, UndoCommands, UndoCall;
    var n := |journal| - 1;
    forall j: nat | j <= n ensures Undone(w, tree, journal, j) == Undone(w, UndoEntry(w, journal[n], tree), journal[..n], j) {
      UndoneShorter(w, tree, journal, j);
    }
    CommandsLast(journal[k..]);
    assert journal[k..][..n - k] == journal[..n][k..];
  }

  lemma UnstuckEarlier(w: World, tree: Tree, journal: seq<Entry>)
    requires journal != [] && Unstuck(w, tree, journal)
    ensures var n, next := |journal| - 1, UndoEntry(w, journal[|journal| - 1], tree);
      !Stuck(w, n, journal[n], tree) && Unstuck(w, next, journal[..n]) && Undone(w, tree, journal, 0) == Undone(w, next, journal[..n], 0)
  {
    hide UndoEntry, Stuck;
    var n := |journal| - 1;
    forall j: nat | j <= n ensures Undone(w, tree, journal, j) == Undone(w, UndoEntry(w, journal[n], tree), journal[..n], j) {
      UndoneShorter(w, tree, journal, j);
    }
    assert Undone(w, tree, journal, n + 1) == tree;
  }

  /** A removal with no stuck entry undoes every entry and calls every undo command, newest first. */
  lemma {:induction false} RemovalCompletes(w: World, tree: Tree, journal: seq<Entry>)
    requires Unstuck(w, tree, journal)
    ensures Remove(w, tree, journal) == Removed(Undone(w, tree, journal, 0), true, UndoCommands(journal))
    decreases |journal|
  {
    hide UndoEntry, Stuck, Stops, UndoCall, Unstuck, Undone, UndoCommands;
    if journal == [] {
      NothingToUndo(w, tree, journal);
    } else {
      var n := |journal| - 1;
      UnstuckEarlier(w, tree, journal);
      StuckIff(w, n, journal[n], tree);
      CommandsLast(journal);
      RemovalCompletes(w, UndoEntry(w, journal[n], tree), journal[..n]);
    }
  }

  lemma NothingToUndo(w: World, tree: Tree, journal: seq<Entry>)
    requires journal == []
    ensures Undone(w, tree, journal, 0) == tree && UndoCommands(journal) == []
  {
  }

  /**
   * Otherwise a removal stops at the newest stuck entry: the later ones are undone and their commands
   * called, the file of this one is as its failure left it, and the earlier ones are not touched.
   */
  lemma {:induction false} RemovalStops(w: World, tree: Tree, journal: seq<Entry>, k: nat)
    requires StopsHere(w, tree, journal, k)
    ensures var r := Remove(w, tree, journal);
      !r.finished && LeftBehind(w, k, journal[k], Undone(w, tree, journal, k + 1), r.tree) && r.called == UndoCommands(journal[k..])
    decreases |journal|
  {
    hide UndoEntry, Stuck, LeftBehind, Halted, Stops, UndoCall, UndoCommands, StopsHere, Undone;
    var n := |journal| - 1;
    StopsInside(w, tree, journal, k);
    StuckIff(w, n, journal[n], tree);
    if Stops(w, n, journal[n], tree) {
      NewestStops(w, tree, journal, k);
      assert journal[n..] == [journal[n]];
      LastCommand(journal[n]);
    } else {
      StopsEarlier(w, tree, journal, k);
      RemovalStops(w, UndoEntry(w, journal[n], tree), journal[..n], k);
    }
  }

  /** One of the two always applies. */
  lemma {:induction false} StuckSomewhere(w: World, tree: Tree, journal: seq<Entry>, n: nat) returns (k: nat)
    requires n <= |journal| && !Unstuck(w, tree, journal)
    requires forall j | n <= j < |journal| :: !Stuck(w, j, journal[j], Undone(w, tree, journal, j + 1))
    ensures StopsHere(w, tree, journal, k)
  {
    hide Stuck, Undone;
    assert n > 0;
    k := n - 1;
    if !Stuck(w, k, journal[k], Undone(w, tree, journal, k + 1)) { k := StuckSomewhere(w, tree, journal, n - 1); }
  }

  lemma StopsInside(w: World, tree: Tree, journal: seq<Entry>, k: nat)
    requires StopsHere(w, tree, journal, k)
    ensures k < |journal|
  {
  }

  lemma NewestStops(w: World, tree: Tree, journal: seq<Entry>, k: nat)
    requires journal != [] && StopsHere(w, tree, journal, k) && Stuck(w, |journal| - 1, journal[|journal| - 1], tree)
    ensures k == |journal| - 1 && Undone(w, tree, journal, k + 1) == tree
  {
    hide Stuck, UndoEntry;
    assert Undone(w, tree, journal, |journal|) == tree;
  }

  lemma LastCommand(e: Entry)
    ensures UndoCommands([e]) == UndoCall(e)
  {
    CommandsLast([e]);
    assert [e][..0] == [];
    assert UndoCall(e) + [] == UndoCall(e);
  }

  lemma CommandsLast(journal: seq<Entry>)
    requires journal != []
    ensures UndoCommands(journal) == UndoCall(journal[|journal| - 1]) + UndoCommands(journal[..|journal| - 1])
  {
  }
}
