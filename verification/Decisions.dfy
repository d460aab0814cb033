/** Which directives a run takes up, leaves out, or hands over, in terms of the skill and the project. */
module Decisions {
  import opened Text
  import opened Directives
  import opened Vars
  import opened Engine
  import opened EngineOutcomes
  import opened Latch
  import opened Deeds

  /** A refresh takes up only what carries code: never a prompt, an operator block or an env-set, and of runs only its own. */
  predicate ForRefresh(d: Directive) {
    && d.kind !in {"prompt", "operator", "env-set"}
    && (d.kind == "run" ==> "effect" in d.attrs && d.attrs["effect"] == "refresh")
  }

  /** The run skips the directive for its mode or its guard, and does nothing else, exactly when they ask for it. */
  lemma LeftOutIff(w: World, i: nat, d: Directive, s: State)
    ensures w.mode == Refresh && !ForRefresh(d) ==> Step(w, i, d, s) == s.(skipped := s.skipped + [Skip(i, NotInRefresh)])
    ensures !(w.mode == Refresh && !ForRefresh(d)) && !GuardMet(d, s.vars) ==>
              Step(w, i, d, s) == s.(skipped := s.skipped + [Skip(i, GuardUnmet)])
    ensures !(w.mode == Refresh && !ForRefresh(d)) && GuardMet(d, s.vars) && CallerOwns(w, d) ==>
              Step(w, i, d, s) == s.(skipped := s.skipped + [Skip(i, CallerOwned)])
  {
    hide DoPrompt, DoOperator, DoStep, SelfStatus, GuardMet;
  }

  /** A run whose effect the caller does itself. */
  predicate CallerOwns(w: World, d: Directive) {
    d.kind == "run" && "effect" in d.attrs && d.attrs["effect"] in w.skipEffects
  }

  /** Nothing keeps the run from looking at what the project already has. */
  predicate LooksAt(w: World, d: Directive, s: State) {
    && (w.mode == Refresh ==> ForRefresh(d)) && GuardMet(d, s.vars) && d.kind !in {"prompt", "operator"}
    && !CallerOwns(w, d) && !(s.blocked && Gated(d))
  }

  /** The file is a readable list, and an element of it matches the object. */
  ghost predicate MatchedIn(w: World, tree: Tree, path: string, key: string, obj: Json) {
    && ReadArray(w, tree, path).Some?
    && exists j | 0 <= j < |ReadArray(w, tree, path).value| :: Matches(ReadArray(w, tree, path).value[j], obj, key)
  }

  /** The merged object parses, and an element of the file already matches it. */
  ghost predicate ElementThere(w: World, d: Directive, s: State) {
    && w.parse(JoinLines(d.body)).Some? && w.parse(JoinLines(d.body)).value != Null
    && MatchedIn(w, s.tree, if "into" in d.attrs then d.attrs["into"] else "",
                 if "key" in d.attrs then d.attrs["key"] else "", w.parse(JoinLines(d.body)).value)
  }

  /** What the directive would do is there: its files, its first line, its packages, its keys, its element. */
  ghost predicate Satisfied(w: World, d: Directive, s: State) {
    match d.kind
    case "copy" => w.mode == Install && forall k | 0 <= k < |d.body| :: DestOf(d.body[k]) == "" || DestOf(d.body[k]) in s.tree
    case "append" =>
      && "to" in d.attrs && d.attrs["to"] != ""
      && exists k | 0 <= k < |ReadLines(w, s.tree, d.attrs["to"])| ::
           Trim(ReadLines(w, s.tree, d.attrs["to"])[k]) == Trim(if d.body == [] then "" else d.body[0])
    case "dep" =>
      && w.mode == Install
      && forall k | 0 <= k < |d.body| :: w.hasDep(s.tick, DepName(d.body[k]), if "cwd" in d.attrs then d.attrs["cwd"] else "")
    case "env-set" => forall k | 0 <= k < |d.body| :: KeyAssigned(ReadLines(w, s.tree, ".env"), EnvName(d.body[k]))
    case "json-merge" => w.mode == Install && ElementThere(w, d, s)
    case _ => false
  }

  /** The engine has no way to do it: an unknown kind, or an object that does not parse. */
  predicate Unhandled(w: World, d: Directive) {
    || d.kind !in {"copy", "append", "dep", "run", "env-set", "json-merge"}
    || (d.kind == "json-merge" && (w.parse(JoinLines(d.body)).None? || w.parse(JoinLines(d.body)).value == Null))
  }

  lemma PackageName(name: string, version: string)
    requires '@' !in version
    ensures DepName(name + "@" + version) == name
  {
    var s := name + "@" + version;
    assert s[|name|] == '@';
    var at := LastIndexOf(s, '@');
    assert forall k | |name| < k < |s| :: s[k] == version[k - |name| - 1];
    assert s[..|name|] == name;
  }

  lemma ElementIs(w: World, tree: Tree, path: string, obj: Json, key: string)
    ensures ArrayHas(w, tree, path, key, Field(obj, key)) <==> MatchedIn(w, tree, path, key, obj)
  {
    hide ReadArray, Matches, ElementHas;
    if ReadArray(w, tree, path).Some? {
      var items := ReadArray(w, tree, path).value;
      var at := FindElement(items, key, Field(obj, key));
      forall j | 0 <= j < |items| ensures ElementHas(items[j], key, Field(obj, key)) <==> Matches(items[j], obj, key) {
        MatchesIs(items[j], obj, key);
      }
    }
  }

  lemma ElementThereIs(w: World, d: Directive, s: State)
    requires w.parse(JoinLines(d.body)).Some? && w.parse(JoinLines(d.body)).value != Null
    ensures ElementThere(w, d, s) <==>
            ArrayHas(w, s.tree, OrEmpty(d, "into"), OrEmpty(d, "key"), Field(w.parse(JoinLines(d.body)).value, OrEmpty(d, "key")))
  {
    hide ReadArray, JoinLines, MatchedIn, ArrayHas;
    assert OrEmpty(d, "into") == if "into" in d.attrs then d.attrs["into"] else "";
    assert OrEmpty(d, "key") == if "key" in d.attrs then d.attrs["key"] else "";
    ElementIs(w, s.tree, OrEmpty(d, "into"), w.parse(JoinLines(d.body)).value, OrEmpty(d, "key"));
  }

  lemma MergeStatusIs(w: World, d: Directive, s: State)
    requires d.kind == "json-merge"
    ensures SelfStatus(w, d, s) == ToSkip <==> w.mode == Install && ElementThere(w, d, s)
    ensures SelfStatus(w, d, s) == ToAgent <==> w.parse(JoinLines(d.body)).None? || w.parse(JoinLines(d.body)).value == Null
    ensures SelfStatus(w, d, s) != Unreadable
  {
    hide JoinLines, MatchedIn, ArrayHas, OrEmpty;
    if !(w.parse(JoinLines(d.body)).None? || w.parse(JoinLines(d.body)).value == Null) {
      ElementThereIs(w, d, s);
    }
  }

  lemma LineIsThere(w: World, tree: Tree, path: string, line: string)
    ensures FileHasLine(w, tree, path, line) <==>
            exists k | 0 <= k < |ReadLines(w, tree, path)| :: Trim(ReadLines(w, tree, path)[k]) == Trim(line)
  {
  }

  lemma DepsThere(w: World, tick: nat, d: Directive)
    ensures !DepMissing(w, tick, d) <==>
            forall k | 0 <= k < |d.body| :: w.hasDep(tick, DepName(d.body[k]), if "cwd" in d.attrs then d.attrs["cwd"] else "")
  {
    hide DepName;
    assert OrEmpty(d, "cwd") == if "cwd" in d.attrs then d.attrs["cwd"] else "";
  }

  lemma StatusIs(w: World, d: Directive, s: State)
    ensures SelfStatus(w, d, s) == ToSkip <==> Satisfied(w, d, s)
    ensures SelfStatus(w, d, s) == ToAgent <==> Unhandled(w, d)
    ensures SelfStatus(w, d, s) == Unreadable <==> d.kind == "append" && ("to" !in d.attrs || d.attrs["to"] == "")
  {
    hide ReadLines, ReadArray, JoinLines, KeyAssigned, Matches, Trim, DepName, DestOf, EnvName, EnvKeySet, ArrayHas, FileHasLine, DepMissing, ElementThere;
    assert OrEmpty(d, "cwd") == if "cwd" in d.attrs then d.attrs["cwd"] else "";
    if d.kind == "append" {
      LineIsThere(w, s.tree, OrEmpty(d, "to"), if d.body == [] then "" else d.body[0]);
    } else if d.kind == "dep" {
      DepsThere(w, s.tick, d);
    } else if d.kind == "env-set" {
      forall k | 0 <= k < |d.body|
        ensures EnvKeySet(w, s.tree, EnvName(d.body[k])) <==> KeyAssigned(ReadLines(w, s.tree, ".env"), EnvName(d.body[k]))
      {
        KeySetIs(w, s.tree, EnvName(d.body[k]));
      }
    }
    if d.kind == "json-merge" { MergeStatusIs(w, d, s); }
  }

  /**
   * A directive the run looks at is skipped as present exactly when it is satisfied, handed to
   * an agent at once exactly when the engine has no handler for it, and worked on otherwise,
   * unless the file it appends to is no file name at all.
   */
  lemma TakenUpIff(w: World, i: nat, d: Directive, s: State)
    requires LooksAt(w, d, s)
    ensures Satisfied(w, d, s) ==> Step(w, i, d, s) == s.(skipped := s.skipped + [Skip(i, AlreadyPresent)])
    ensures Unhandled(w, d) ==>
              Step(w, i, d, s) == s.(blocked := true, agentTasks := s.agentTasks + [Task(i, "no deterministic handler")])
    ensures !Satisfied(w, d, s) && !Unhandled(w, d) && !(d.kind == "append" && ("to" !in d.attrs || d.attrs["to"] == "")) ==>
              Step(w, i, d, s) == DoStep(w, i, d, s) && Reached(w, d, s)
    ensures !(Satisfied(w, d, s) && Unhandled(w, d))
  {
    hide GuardMet, DoStep, SelfStatus, Satisfied, Unhandled;
    StatusIs(w, d, s);
    if s.blocked { GatedIff(d); }
  }

  lemma GatedIff(d: Directive)
    ensures Gated(d) <==> SideEffect(Effect(d)) || Validation(Effect(d))
  {
  }
}
