/** When the work on a directive throws: never without one of the reasons written here. */
module Failures {
  import opened Text
  import opened Directives
  import opened Vars
  import opened Engine
  import opened Deeds

  // ---------------------------------------------------------------------------
  // Texts and outputs
  // ---------------------------------------------------------------------------

  /** Every name the text refers to has a value. */
  ghost predicate Answered(text: string, vars: Bindings) {
    forall i, k, name | 0 <= i <= k <= |text| && IsReference(text[i..k], name) :: name in vars
  }

  lemma AnsweredIff(text: string, vars: Bindings)
    ensures Substitute(text, vars).Text? <==> Answered(text, vars)
  {
    hide Refs, IsReference, Substitute;
    SubstituteResolves(text, vars);
    forall n | n in Refs(text) ensures exists i, k | 0 <= i <= k <= |text| :: IsReference(text[i..k], n) { MentionIff(text, n); }
    forall i, k, name | 0 <= i <= k <= |text| && IsReference(text[i..k], name) ensures name in Refs(text) { MentionIff(text, name); }
  }

  /** A capture's pairs are what stands between the commas. */
  lemma {:induction false} PairsBetweenCommas(s: string)
    ensures Join(SplitAt(s, ','), ",") == s && forall k | 0 <= k < |SplitAt(s, ',')| :: ',' !in SplitAt(s, ',')[k]
    decreases |s|
  {
    var k := IndexOf(s, ',');
    if k >= 0 {
      PairsBetweenCommas(s[k + 1..]);
      var rest := SplitAt(s[k + 1..], ',');
      SplitSome(s[k + 1..]);
      assert SplitAt(s, ',') == [s[..k]] + rest && ([s[..k]] + rest)[1..] == rest;
      assert s == s[..k] + "," + s[k + 1..];
    }
  }

  lemma SplitSome(s: string)
    ensures SplitAt(s, ',') != []
  {
  }

  /** The output fits the capture: it parses if it must, and every captured value has the declared shape. */
  ghost predicate Fits(w: World, spec: string, output: string, validate: Option<string>) {
    && (validate.Some? && validate.value != "" ==> w.validRegex(validate.value, None))
    && if '=' !in spec then Shaped(w, validate, output)
       else
         && w.parse(output).Some?
         && forall k, name, path | 0 <= k < |SplitAt(spec, ',')| && Deeds.Spells(SplitAt(spec, ',')[k], name, path) ::
              Shaped(w, validate, w.pick(w.parse(output).value, path))
  }

  ghost predicate AllShaped(w: World, validate: Option<string>, pairs: seq<string>, json: Json) {
    forall k, name, path | 0 <= k < |pairs| && Deeds.Spells(pairs[k], name, path) :: Shaped(w, validate, w.pick(json, path))
  }

  lemma ShapedFirst(w: World, validate: Option<string>, pairs: seq<string>, json: Json)
    requires pairs != [] && AllShaped(w, validate, pairs, json)
    ensures AllShaped(w, validate, pairs[1..], json)
    ensures IndexOf(pairs[0], '=') >= 1 ==> Shaped(w, validate, w.pick(json, PairPath(pairs[0])))
  {
    hide Deeds.Spells, Shaped, IndexOf, PairPath, PairName;
    PairSpells(pairs[0]);
    if IndexOf(pairs[0], '=') >= 1 { assert Deeds.Spells(pairs[0], PairName(pairs[0]), PairPath(pairs[0])); }
    forall k, name, path | 0 <= k < |pairs[1..]| && Deeds.Spells(pairs[1..][k], name, path) ensures Shaped(w, validate, w.pick(json, path)) {
      assert pairs[1..][k] == pairs[k + 1];
    }
  }

  lemma {:induction false} PairsWork(w: World, validate: Option<string>, pairs: seq<string>, json: Json, s: State)
    ensures CapturePairs(w, validate, pairs, json, s).error.None? <==> AllShaped(w, validate, pairs, json)
  {
    hide IndexOf, PairName, PairPath, AllShaped;
    if CapturePairs(w, validate, pairs, json, s).error.None? { PairsShaped(w, validate, pairs, json, s); AllShapedIs(w, validate, pairs, json); }
    if AllShaped(w, validate, pairs, json) && pairs != [] {
      ShapedFirst(w, validate, pairs, json);
      var next := if IndexOf(pairs[0], '=') < 1 then s else Capture(w, validate, PairName(pairs[0]), w.pick(json, PairPath(pairs[0])), s).s;
      PairsWork(w, validate, pairs[1..], json, next);
    }
  }

  lemma AllShapedIs(w: World, validate: Option<string>, pairs: seq<string>, json: Json)
    requires forall k, name, path :: 0 <= k < |pairs| && Deeds.Spells(pairs[k], name, path) ==> Shaped(w, validate, w.pick(json, path))
    ensures AllShaped(w, validate, pairs, json)
  {
    hide Deeds.Spells, Shaped;
  }

  lemma BindWorks(w: World, spec: string, output: string, validate: Option<string>, s: State)
    ensures BindCapture(w, spec, output, validate, s).error.None? <==> Fits(w, spec, output, validate)
  {
    hide CapturePairs, SplitAt, Deeds.Spells, AllShaped;
    if '=' in spec && w.parse(output).Some? {
      PairsWork(w, validate, SplitAt(spec, ','), w.parse(output).value, s);
      FitsAll(w, validate, SplitAt(spec, ','), w.parse(output).value);
    }
  }

  lemma FitsAll(w: World, validate: Option<string>, pairs: seq<string>, json: Json)
    ensures AllShaped(w, validate, pairs, json) <==>
            forall k, name, path | 0 <= k < |pairs| && Deeds.Spells(pairs[k], name, path) :: Shaped(w, validate, w.pick(json, path))
  {
    hide Deeds.Spells, Shaped;
  }

  // ---------------------------------------------------------------------------
  // One line
  // ---------------------------------------------------------------------------

  predicate CanWrite(w: World, path: string, s: State) { path != "" && w.writable(s.tick + 1, path) }

  predicate Succeeds(w: World, c: Command, s: State) { !w.exec(s.tick + 1, c).failed }

  /** Nothing stands in the way of one body line. */
  ghost predicate LineWorks(w: World, op: LineOp, l: string, s: State) {
    match op
    case CopyLocal => w.source(SourceOf(l)).Some? && CanWrite(w, DestOf(l), s)
    case CopyBranch(branch) => Succeeds(w, GitShow(branch, SourceOf(l), DestOf(l)), s)
    case AppendTo(path) => CanWrite(w, path, s)
    case InsertAt(path, marker) =>
      CanWrite(w, path, s)
      && exists k | 0 <= k < |ReadLines(w, s.tree, path)| :: Contains(ReadLines(w, s.tree, path)[k], "<<< " + marker)
    case Check => Answered(l, s.vars) && Succeeds(w, Shell(Filled(l, s.vars)), s)
    case RunCommand(capture, validate, _) =>
      && Answered(l, s.vars) && Succeeds(w, Shell(Filled(l, s.vars)), s)
      && (capture.Some? ==> Fits(w, capture.value, Trim(w.exec(s.tick + 1, Shell(Filled(l, s.vars))).text), validate))
    case SetEnv =>
      Answered(EnvTemplate(l), s.vars) && (KeyAssigned(ReadLines(w, s.tree, ".env"), EnvKey(l)) || CanWrite(w, ".env", s))
  }

  lemma InsertWorks(w: World, i: nat, path: string, marker: string, l: string, s: State)
    ensures DoLine(w, i, InsertAt(path, marker), l, s).error.None? <==> LineWorks(w, InsertAt(path, marker), l, s)
  {
    hide ReadLines, MarkerAt, Indent, Contains;
    var lines, mark := ReadLines(w, s.tree, path), "<<< " + marker;
    MarkerFirst(lines, mark);
    if MarkerAt(lines, mark) == |lines| {
      assert forall k | 0 <= k < |lines| :: !Contains(lines[k], mark);
    } else {
      assert Contains(lines[MarkerAt(lines, mark)], mark);
    }
  }

  lemma RunWorks(w: World, i: nat, op: LineOp, l: string, s: State)
    requires op.RunCommand? || op.Check?
    ensures DoLine(w, i, op, l, s).error.None? <==> LineWorks(w, op, l, s)
  {
    hide Substitute, BindCapture, Fits, Answered;
    AnsweredIff(l, s.vars);
    var cmd := Shell(Filled(l, s.vars));
    if op.RunCommand? && op.capture.Some? {
      BindWorks(w, op.capture.value, Trim(Answer(w, s, cmd).text), op.validate, Exec(w, i, cmd, s).s);
    }
  }

  /** A body line throws exactly when something stands in its way. */
  lemma LineWorksIff(w: World, i: nat, op: LineOp, l: string, s: State)
    ensures DoLine(w, i, op, l, s).error.None? <==> LineWorks(w, op, l, s)
  {
    hide Substitute, Answered, ReadLines, Fits, KeyAssigned, EnvKeySet, SourceOf, DestOf, EnvKey, EnvTemplate, WithLine, SplitLines;
    match op
    case InsertAt(path, marker) => InsertWorks(w, i, path, marker, l, s);
    case RunCommand(_, _, _) => RunWorks(w, i, op, l, s);
    case Check => RunWorks(w, i, op, l, s);
    case SetEnv =>
      AnsweredIff(EnvTemplate(l), s.vars);
      KeySetIs(w, s.tree, EnvKey(l));
    case _ =>
  }

  /** The state before body line `k`, when the lines before it worked. */
  function Upto(w: World, i: nat, op: LineOp, body: seq<string>, s: State, k: nat): State
    requires k <= |body|
  {
    if k == 0 then s else DoLine(w, i, op, body[k - 1], Upto(w, i, op, body, s, k - 1)).s
  }

  lemma {:induction false} UptoRest(w: World, i: nat, op: LineOp, body: seq<string>, s: State, k: nat)
    requires 0 < k <= |body|
    ensures Upto(w, i, op, body, s, k) == Upto(w, i, op, body[1..], DoLine(w, i, op, body[0], s).s, k - 1)
  {
    hide DoLine;
    if k > 1 { UptoRest(w, i, op, body, s, k - 1); }
  }

  /** A body is worked through exactly when each line works after the ones before it. */
  ghost predicate BodyWorks(w: World, i: nat, op: LineOp, body: seq<string>, s: State) {
    forall k | 0 <= k < |body| :: LineWorks(w, op, body[k], Upto(w, i, op, body, s, k))
  }

  lemma {:induction false} BodyWorksIff(w: World, i: nat, op: LineOp, body: seq<string>, s: State)
    ensures Each(w, i, op, body, s).error.None? <==> BodyWorks(w, i, op, body, s)
  {
    hide DoLine, LineWorks;
    if body != [] {
      LineWorksIff(w, i, op, body[0], s);
      var next := DoLine(w, i, op, body[0], s).s;
      BodyWorksIff(w, i, op, body[1..], next);
      forall k | 0 < k < |body| ensures Upto(w, i, op, body, s, k) == Upto(w, i, op, body[1..], next, k - 1) {
        UptoRest(w, i, op, body, s, k);
      }
      if BodyWorks(w, i, op, body[1..], next) && LineWorks(w, op, body[0], s) {
        forall k | 0 <= k < |body| ensures LineWorks(w, op, body[k], Upto(w, i, op, body, s, k)) {
          if k > 0 { assert LineWorks(w, op, body[1..][k - 1], Upto(w, i, op, body[1..], next, k - 1)); }
        }
      }
      if BodyWorks(w, i, op, body, s) {
        assert LineWorks(w, op, body[0], Upto(w, i, op, body, s, 0));
        forall k | 0 <= k < |body[1..]| ensures LineWorks(w, op, body[1..][k], Upto(w, i, op, body[1..], next, k)) {
          assert LineWorks(w, op, body[k + 1], Upto(w, i, op, body, s, k + 1));
        }
      }
    }
  }

  // ---------------------------------------------------------------------------
  // One directive
  // ---------------------------------------------------------------------------

  /** The state in which a copy's lines are worked: a branch is fetched first. */
  function Fetched(w: World, i: nat, branch: string, s: State): State {
    if branch == "" then s else Exec(w, i, GitFetch(branch), s).s
  }

  /** Nothing stands in the way of a copy. */
  ghost predicate CopyWorks(w: World, i: nat, d: Directive, s: State) {
    if "from-branch" !in d.attrs || d.attrs["from-branch"] == "" then BodyWorks(w, i, CopyLocal, d.body, s)
    else
      var branch := d.attrs["from-branch"];
      Succeeds(w, GitFetch(branch), s) && BodyWorks(w, i, CopyBranch(branch), d.body, Fetched(w, i, branch, s))
  }

  /** Nothing stands in the way of a streamed step. */
  ghost predicate StreamWorks(w: World, d: Directive, s: State) {
    && w.hasStream && Answered(JoinLines(d.body), s.vars)
    && (var out := w.stream(s.tick + 1, Filled(JoinLines(d.body), s.vars)); !out.threw && out.ok)
  }

  /** Nothing stands in the way of a merge; an element that is there already needs no write. */
  ghost predicate MergeWorks(w: World, d: Directive, s: State)
    requires "into" in d.attrs && "key" in d.attrs
  {
    var path, key, obj := d.attrs["into"], d.attrs["key"], w.parse(JoinLines(d.body));
    && obj.Some?
    && exists items :: HoldsList(w, s.tree, path, items) && (MustWrite(w.mode, items, obj.value, key) ==> CanWrite(w, path, s))
  }

  /** No element matches the object, or in a refresh the first one that does is another object. */
  ghost predicate MustWrite(mode: Mode, items: seq<Json>, obj: Json, key: string) {
    exists j: nat :: FirstMatch(items, obj, key, j) && (j == |items| || (mode == Refresh && items[j] != obj))
  }

  /** A file holds a list when it is missing or empty, when it is kept as one, or when its text parses to one. */
  ghost predicate HoldsList(w: World, tree: Tree, path: string, items: seq<Json>) {
    path != "" &&
    if path !in tree then items == []
    else match tree[path]
         case Entries(kept) => items == kept
         case Lines(lines) => if JoinLines(lines) == "" then items == [] else w.parse(JoinLines(lines)) == Some(Arr(items))
  }

  lemma ListRead(w: World, tree: Tree, path: string)
    ensures forall items :: ReadArray(w, tree, path) == Some(items) <==> HoldsList(w, tree, path, items)
  {
    hide JoinLines;
  }

  lemma CopyWorksIff(w: World, i: nat, d: Directive, s: State)
    ensures ApplyCopy(w, i, d, s).error.None? <==> CopyWorks(w, i, d, s)
  {
    hide BodyWorks, Each;
    var branch := OrEmpty(d, "from-branch");
    if branch == "" { BodyWorksIff(w, i, CopyLocal, d.body, s); } else { BodyWorksIff(w, i, CopyBranch(branch), d.body, Fetched(w, i, branch, s)); }
  }

  lemma StreamWorksIff(w: World, i: nat, d: Directive, s: State)
    ensures ApplyStream(w, i, d, s).error.None? <==> StreamWorks(w, d, s)
  {
    hide Substitute, Answered, JoinLines, CaptureFields, SplitAt, Trim;
    AnsweredIff(JoinLines(d.body), s.vars);
  }

  lemma MergeWorksIff(w: World, d: Directive, s: State)
    requires "into" in d.attrs && "key" in d.attrs
    ensures ApplyMerge(w, d, s).error.None? <==> MergeWorks(w, d, s)
  {
    hide JoinLines, ReadArray, MustWrite, HoldsList;
    var path, key := d.attrs["into"], d.attrs["key"];
    ListRead(w, s.tree, path);
    if w.parse(JoinLines(d.body)).Some? && ReadArray(w, s.tree, path).Some? {
      var obj, items := w.parse(JoinLines(d.body)).value, ReadArray(w, s.tree, path).value;
      var at := FindElement(items, key, Field(obj, key));
      MustWriteIff(w.mode, items, obj, key);
      assert HoldsList(w, s.tree, path, items);
    }
  }

  lemma MustWriteIff(mode: Mode, items: seq<Json>, obj: Json, key: string)
    ensures var at := FindElement(items, key, Field(obj, key));
      MustWrite(mode, items, obj, key) <==> at == |items| || (mode == Refresh && items[at] != obj)
  {
    hide FirstMatch;
    FoundIsFirst(items, obj, key);
    assert FirstMatch(items, obj, key, FindElement(items, key, Field(obj, key)));
  }

  lemma FoundIsFirst(items: seq<Json>, obj: Json, key: string)
    ensures forall j: nat :: FirstMatch(items, obj, key, j) <==> j == FindElement(items, key, Field(obj, key))
  {
    hide Matches, ElementHas;
    forall j | 0 <= j < |items| ensures ElementHas(items[j], key, Field(obj, key)) <==> Matches(items[j], obj, key) {
      MatchesIs(items[j], obj, key);
    }
  }

  /** Nothing stands in the way of the directive. */
  ghost predicate Works(w: World, i: nat, d: Directive, s: State)
    requires d.kind == "json-merge" ==> "into" in d.attrs && "key" in d.attrs
    requires d.kind == "append" ==> "to" in d.attrs
  {
    match d.kind
    case "copy" => CopyWorks(w, i, d, s)
    case "append" =>
      BodyWorks(w, i, if "at" in d.attrs && d.attrs["at"] != "" then InsertAt(d.attrs["to"], d.attrs["at"]) else AppendTo(d.attrs["to"]), d.body, s)
    case "dep" =>
      Succeeds(w, Shell(Managed(d, "add", d.body)), s)
    case "run" =>
      if "effect" in d.attrs && d.attrs["effect"] == "check" then BodyWorks(w, i, Check, d.body, s)
      else if "effect" in d.attrs && d.attrs["effect"] == "step" then StreamWorks(w, d, s)
      else BodyWorks(w, i, RunOp(d), d.body, s)
    case "env-set" => BodyWorks(w, i, SetEnv, d.body, s)
    case "json-merge" => MergeWorks(w, d, s)
    case _ => false
  }

  /** The work on a directive throws exactly when something stands in its way. */
  lemma WorksIff(w: World, i: nat, d: Directive, s: State)
    requires d.kind == "json-merge" ==> "into" in d.attrs && "key" in d.attrs
    requires d.kind == "append" ==> "to" in d.attrs
    ensures ApplyOne(w, i, d, s).error.None? <==> Works(w, i, d, s)
  {
    hide ApplyCopy, ApplyStream, ApplyMerge, Each, BodyWorks, CopyWorks, StreamWorks, MergeWorks, RunOp;
    match d.kind
    case "copy" => CopyWorksIff(w, i, d, s);
    case "append" => BodyWorksIff(w, i, AppendOp(d), d.body, s);
    case "dep" => ManagedIs(d);
    case "run" =>
      if Effect(d) == "check" { BodyWorksIff(w, i, Check, d.body, s); }
      else if Effect(d) == "step" { StreamWorksIff(w, i, d, s); }
      else { BodyWorksIff(w, i, RunOp(d), d.body, s); }
    case "env-set" => BodyWorksIff(w, i, SetEnv, d.body, s);
    case "json-merge" => MergeWorksIff(w, d, s);
    case _ =>
  }

  /** A step that ran and did not complete throws: its own text, when it gave one that is not blank, as a reported failure. */
  lemma StepTells(w: World, i: nat, d: Directive, s: State)
    requires d.kind == "run" && "effect" in d.attrs && d.attrs["effect"] == "step" && w.hasStream && Answered(JoinLines(d.body), s.vars)
    ensures var out, error := w.stream(s.tick + 1, Filled(JoinLines(d.body), s.vars)), ApplyOne(w, i, d, s).error;
      && (out.threw ==> error == Some(Thrown(out.message, false)))
      && (!out.threw && !out.ok && "ERROR" in out.fields && Trim(out.fields["ERROR"]) != "" ==>
            error == Some(Thrown(Trim(out.fields["ERROR"]), true)))
      && (!out.threw && !out.ok && ("ERROR" !in out.fields || Trim(out.fields["ERROR"]) == "") ==> error.Some? && !error.value.reported)
  {
    hide Substitute, Answered, JoinLines, CaptureFields, SplitAt, Trim;
    AnsweredIff(JoinLines(d.body), s.vars);
  }

  // ---------------------------------------------------------------------------
  // Operator blocks
  // ---------------------------------------------------------------------------

  /**
   * An operator block that an install reaches: after a failure it is skipped; with an unanswered
   * reference it is deferred and nobody sees it; otherwise its filled lines become a message and an
   * event, and it is applied unless the consumer refuses the event.
   */
  lemma OperatorOutcome(w: World, i: nat, d: Directive, s: State)
    requires d.kind == "operator" && w.mode == Install && GuardMet(d, s.vars)
    ensures var body, r := JoinLines(d.body), Step(w, i, d, s);
      if s.blocked then r == s.(skipped := s.skipped + [Skip(i, AfterFailure)])
      else if !Answered(body, s.vars) then Defers(i, s, r)
      else
        var text := Filled(body, s.vars);
        var shown := OperatorShown(i, text);
        && r.messages == s.messages + [text] && r.tree == s.tree && r.vars == s.vars && r.calls == s.calls && r.journal == s.journal
        && if !w.hasHandler then r.events == s.events && r.applied == s.applied + [i]
           else
             var refusal := w.handler(s.tick + 1, shown);
             r.events == s.events + [Emission(shown, refusal.None?)]
             && (if refusal.None? then r.applied == s.applied + [i] && r.agentTasks == s.agentTasks && r.deferred == s.deferred
                 else r.applied == s.applied && |r.agentTasks| + |r.deferred| == |s.agentTasks| + |s.deferred| + 1)
  {
    hide Answered, JoinLines, GuardMet, Refs, Substitute, Defers;
    AnsweredIff(JoinLines(d.body), s.vars);
    if !s.blocked && Substitute(JoinLines(d.body), s.vars).Unresolved? { OperatorDefers(w, i, d, s); }
  }

  /** One more deferral, and nothing else. */
  ghost predicate Defers(i: nat, s: State, r: State) { exists message :: r == s.(deferred := s.deferred + [Deferral(i, message)]) }

  lemma OperatorDefers(w: World, i: nat, d: Directive, s: State)
    requires d.kind == "operator" && !s.blocked && Substitute(JoinLines(d.body), s.vars).Unresolved?
    ensures Defers(i, s, DoOperator(w, i, d, s))
  {
    hide JoinLines, Substitute, Contains;
    var message := "unresolved {{" + Substitute(JoinLines(d.body), s.vars).name + "}}";
    MarkerInMessage(Substitute(JoinLines(d.body), s.vars).name);
    assert DoOperator(w, i, d, s) == s.(deferred := s.deferred + [Deferral(i, message)]);
  }

  lemma MarkerInMessage(name: string)
    ensures Contains("unresolved {{" + name + "}}", UNRESOLVED)
  {
    var s := "unresolved {{" + name + "}}";
    assert s[0..] == s && UNRESOLVED <= s;
  }
}
