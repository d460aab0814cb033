/** The static barrier policy for operator blocks, and what the engine really does next. */
module Policy {
  import opened Text
  import opened Directives
  import opened Vars
  import opened Engine
  import opened EngineOutcomes
  import Parsed

  datatype Flavor = Readiness | Completed

  datatype Decision = Decision(needsConfirm: bool, flavor: Flavor)

  /** Mutually exclusive branches: the same variable, different values. */
  predicate Incompatible(own: Option<Guard>, other: Option<Guard>) {
    own.Some? && other.Some? && own.value.name == other.value.name && own.value.value != other.value.value
  }

  /** The directive's guard, as spelled: `when:name=value`, split at the first `=`, both sides trimmed. */
  ghost predicate Guarded(d: Directive, name: string, value: string) {
    "when" in d.attrs && exists l: string, r: string ::
      d.attrs["when"] == l + "=" + r && l != "" && '=' !in l && Trim(l) == name && Trim(r) == value
  }

  lemma GuardIsSpelled(d: Directive, name: string, value: string)
    ensures GuardOf(d) == Some(Guard(name, value)) <==> Guarded(d, name, value)
  {
    hide Trim;
    if "when" in d.attrs {
      var when := d.attrs["when"];
      if GuardOf(d) == Some(Guard(name, value)) {
        var eq := IndexOf(when, '=');
        assert when == when[..eq] + "=" + when[eq + 1..];
      }
      if Guarded(d, name, value) {
        var l: string, r: string :| when == l + "=" + r && l != "" && '=' !in l && Trim(l) == name && Trim(r) == value;
        FirstEquals(when, l, r);
        assert when[..|l|] == l && when[|l| + 1..] == r;
      }
    }
  }

  lemma FirstEquals(s: string, l: string, r: string)
    requires s == l + "=" + r && '=' !in l
    ensures IndexOf(s, '=') == |l|
  {
    assert s[|l|] == '=';
    forall k | 0 <= k < |l| ensures s[k] != '=' { assert s[k] == l[k]; }
  }

  /** The engine honours a guard exactly as spelled: its variable is bound to its value. */
  lemma GuardMetIff(d: Directive, vars: Bindings)
    ensures GuardMet(d, vars) <==> forall name, value :: Guarded(d, name, value) ==> name in vars && vars[name].value == value
  {
    hide Guarded, GuardOf;
    match GuardOf(d)
    case None => forall name, value { GuardIsSpelled(d, name, value); }
    case Some(g) => forall name, value { GuardIsSpelled(d, name, value); }
  }

  /** Both are guarded by the same variable, for different values. */
  ghost predicate OtherBranch(a: Directive, b: Directive) {
    exists name, u, v :: Guarded(a, name, u) && Guarded(b, name, v) && u != v
  }

  /** `b` is the first directive after `i` that is not in another branch. */
  ghost predicate Next(ds: seq<Directive>, i: nat, b: nat)
    requires i < |ds|
  {
    i < b < |ds| && !OtherBranch(ds[i], ds[b]) && forall k | i < k < b :: OtherBranch(ds[i], ds[k])
  }

  lemma OtherBranchIs(a: Directive, b: Directive)
    ensures Incompatible(GuardOf(a), GuardOf(b)) <==> OtherBranch(a, b)
  {
    hide Guarded, GuardOf;
    if Incompatible(GuardOf(a), GuardOf(b)) {
      GuardIsSpelled(a, GuardOf(a).value.name, GuardOf(a).value.value);
      GuardIsSpelled(b, GuardOf(b).value.name, GuardOf(b).value.value);
    }
    if name, u, v :| Guarded(a, name, u) && Guarded(b, name, v) && u != v {
      GuardIsSpelled(a, name, u);
      GuardIsSpelled(b, name, v);
    }
  }

  lemma BarrierIsNext(ds: seq<Directive>, i: nat)
    requires i < |ds|
    ensures var b := Barrier(ds, i, i + 1); if b < |ds| then Next(ds, i, b) else forall k | i < k < |ds| :: OtherBranch(ds[i], ds[k])
    ensures forall b: nat :: Next(ds, i, b) ==> b == Barrier(ds, i, i + 1)
  {
    hide OtherBranch, GuardOf, Incompatible;
    forall k | i < k < |ds| ensures Incompatible(GuardOf(ds[i]), GuardOf(ds[k])) <==> OtherBranch(ds[i], ds[k]) {
      OtherBranchIs(ds[i], ds[k]);
    }
  }

  lemma NoNext(ds: seq<Directive>, i: nat, k: nat)
    requires i < |ds| && forall j | i < j < |ds| :: OtherBranch(ds[i], ds[j])
    ensures !Next(ds, i, k)
  {
    hide OtherBranch;
  }

  /** A confirmation is asked before `b`: the operator's next directive is neither an operator nor a prompt. */
  ghost predicate ConfirmsBefore(ds: seq<Directive>, i: nat, b: nat)
    requires i < |ds|
  {
    Next(ds, i, b) && ds[b].kind != "operator" && ds[b].kind != "prompt"
  }

  /** The decision for the operator at `i`, from the next directive that may run. */
  ghost predicate DecidedBy(ds: seq<Directive>, i: nat, decision: Decision)
    requires i < |ds|
  {
    && (decision.needsConfirm <==> exists b: nat :: ConfirmsBefore(ds, i, b))
    && (decision.flavor == Readiness <==>
          exists b: nat :: ConfirmsBefore(ds, i, b) && "effect" in ds[b].attrs && ds[b].attrs["effect"] == "step")
  }

  lemma DecideIs(ds: seq<Directive>, i: nat)
    requires i < |ds|
    ensures DecidedBy(ds, i, Decide(ds, i))
  {
    hide Next, Barrier, OtherBranch;
    BarrierIsNext(ds, i);
    var b := Barrier(ds, i, i + 1);
    if b < |ds| {
      assert ConfirmsBefore(ds, i, b) <==> ds[b].kind != "operator" && ds[b].kind != "prompt";
    } else {
      forall k: nat ensures !ConfirmsBefore(ds, i, k) { NoNext(ds, i, k); }
    }
  }

  /** The next directive that may run when the operator at `i` does, or the end. */
  function Barrier(ds: seq<Directive>, i: nat, j: nat): (b: nat)
    requires i < |ds| && j <= |ds|
    ensures j <= b <= |ds|
    ensures forall k | j <= k < b :: Incompatible(GuardOf(ds[i]), GuardOf(ds[k]))
    ensures b < |ds| ==> !Incompatible(GuardOf(ds[i]), GuardOf(ds[b]))
    decreases |ds| - j
  {
    if j < |ds| && Incompatible(GuardOf(ds[i]), GuardOf(ds[j])) then Barrier(ds, i, j + 1) else j
  }

  function Decide(ds: seq<Directive>, i: nat): Decision
    requires i < |ds|
  {
    var b := Barrier(ds, i, i + 1);
    if b == |ds| || ds[b].kind == "operator" || ds[b].kind == "prompt" then Decision(false, Completed)
    else Decision(true, if Attr(ds[b], "effect") == Some("step") then Readiness else Completed)
  }

  /** Decisions keyed by the operator's fence line. */
  method GatePolicy(markdown: string) returns (out: map<nat, Decision>)
    ensures var ds := Parse(markdown);
            && (forall i | 0 <= i < |ds| && ds[i].kind == "operator" :: ds[i].line in out && DecidedBy(ds, i, out[ds[i].line]))
            && forall n | n in out :: exists i | 0 <= i < |ds| :: ds[i].line == n && ds[i].kind == "operator"
  {
    hide Parse, Decide, DecidedBy;
    var ds := ParseDirectives(markdown);
    ParsedIs(markdown);
    Parsed.ParsedIsOrdered(markdown);
    out := Decisions(ds);
    forall i | 0 <= i < |ds| && ds[i].kind == "operator" ensures DecidedBy(ds, i, out[ds[i].line]) { DecideIs(ds, i); }
  }

  lemma ParsedIs(markdown: string)
    ensures Parse(markdown) == FromFences(Fences(SplitLines(markdown), 0))
  {
  }

  method Decisions(ds: seq<Directive>) returns (out: map<nat, Decision>)
    requires Parsed.Ascending(ds, 0)
    ensures forall i | 0 <= i < |ds| && ds[i].kind == "operator" :: ds[i].line in out && out[ds[i].line] == Decide(ds, i)
    ensures forall n | n in out :: exists i | 0 <= i < |ds| :: ds[i].line == n && ds[i].kind == "operator"
  {
    hide Decide;
    out := map[];
    for i := 0 to |ds|
      invariant forall k | 0 <= k < i && ds[k].kind == "operator" :: ds[k].line in out && out[ds[k].line] == Decide(ds, k)
      invariant forall n | n in out :: exists k | 0 <= k < i :: ds[k].line == n && ds[k].kind == "operator"
    {
      if ds[i].kind != "operator" { continue; }
      var decision := Gate(ds, i);
      out := out[ds[i].line := decision];
    }
  }

  /** Scan forward past incompatible branches and decide on what stops the scan. */
  method Gate(ds: seq<Directive>, i: nat) returns (decision: Decision)
    requires i < |ds|
    ensures decision == Decide(ds, i)
  {
    hide Attr, GuardOf, Incompatible;
    var own := GuardOf(ds[i]);
    var j := i + 1;
    while j < |ds| && Incompatible(own, GuardOf(ds[j]))
      invariant i + 1 <= j <= |ds|
      invariant Barrier(ds, i, j) == Barrier(ds, i, i + 1)
    {
      j := j + 1;
    }
    if j == |ds| || ds[j].kind == "operator" || ds[j].kind == "prompt" { return Decision(false, Completed); }
    decision := Decision(true, if Attr(ds[j], "effect") == Some("step") then Readiness else Completed);
  }

  /** The operator at `i` was rendered in the run. */
  predicate Executed(w: World, ds: seq<Directive>, tree: Tree, i: nat)
    requires i < |ds|
  {
    ds[i].kind == "operator" && Run(w, ds, tree, i + 1).messages != Run(w, ds, tree, i).messages
  }

  lemma OperatorKeepsVars(w: World, i: nat, d: Directive, s: State)
    requires d.kind == "operator"
    ensures Step(w, i, d, s).vars == s.vars
    ensures Step(w, i, d, s).messages != s.messages ==> w.mode == Install && GuardMet(d, s.vars)
  {
    hide DoOperator, GuardMet;
    BlockKeepsVars(w, i, d, s);
  }

  lemma BlockKeepsVars(w: World, i: nat, d: Directive, s: State)
    ensures DoOperator(w, i, d, s).vars == s.vars
  {
    hide Substitute, Contains, JoinLines;
  }

  /** An incompatible guard cannot be met while the operator's own guard is. */
  lemma IncompatibleIsUnmet(own: Directive, other: Directive, vars: Bindings)
    requires GuardMet(own, vars) && Incompatible(GuardOf(own), GuardOf(other))
    ensures !GuardMet(other, vars)
  {
  }

  lemma UnmetIsSkipped(w: World, i: nat, d: Directive, s: State)
    requires w.mode == Install && !GuardMet(d, s.vars)
    ensures Step(w, i, d, s) == Skipped(s, i, GuardUnmet)
  {
  }

  /**
   * From an executed operator to the barrier its policy picked, every directive is
   * skipped by its guard: nothing runs, is shown, is asked, or rebinds a variable.
   */
  lemma {:induction false} PolicyMatchesRun(w: World, ds: seq<Directive>, tree: Tree, i: nat, j: nat)
    requires i < |ds| && i < j <= Barrier(ds, i, i + 1) && Executed(w, ds, tree, i)
    ensures
      var after, now := Run(w, ds, tree, i + 1), Run(w, ds, tree, j);
      && now == after.(skipped := now.skipped)
      && |now.skipped| == |after.skipped| + (j - i - 1)
      && forall k | i < k < j :: now.skipped[|after.skipped| + (k - i - 1)] == Skip(k, GuardUnmet)
    decreases j
  {
    hide Run, Step, Barrier, GuardOf, Incompatible, GuardMet, Initial;
    if j > i + 1 {
      PolicyMatchesRun(w, ds, tree, i, j - 1);
      var s := Run(w, ds, tree, j - 1);
      RunUnfolds(w, ds, tree, i + 1);
      RunUnfolds(w, ds, tree, j);
      OperatorKeepsVars(w, i, ds[i], Run(w, ds, tree, i));
      IncompatibleIsUnmet(ds[i], ds[j - 1], s.vars);
      UnmetIsSkipped(w, j - 1, ds[j - 1], s);
    }
  }
}
