/** What a prompt binds, and that what is asked in secret is not given away. */
module Prompts {
  import opened Text
  import opened Directives
  import opened Vars
  import opened Engine
  import opened EngineOutcomes
  import opened Effects
  import opened LintSoundness
  import opened SameInputs
  import opened Deeds

  // ---------------------------------------------------------------------------
  // Normalizing
  // ---------------------------------------------------------------------------

  predicate AllSlashes(s: string) { forall k | 0 <= k < |s| :: s[k] == '/' }

  lemma {:induction false} SlashesStripped(s: string) returns (tail: string)
    ensures s == StripSlashes(s) + tail && AllSlashes(tail)
    ensures StripSlashes(s) != "" ==> StripSlashes(s)[|StripSlashes(s)| - 1] != '/'
  {
    tail := "";
    if s != "" && s[|s| - 1] == '/' {
      tail := SlashesStripped(s[..|s| - 1]);
      tail := tail + ['/'];
    }
  }

  lemma {:induction false} EndTrimmed(s: string) returns (tail: string)
    ensures s == TrimEnd(s) + tail && AllSpace(tail)
    ensures TrimEnd(s) != "" ==> !IsSpace(TrimEnd(s)[|TrimEnd(s)| - 1])
  {
    tail := "";
    if s != "" && IsSpace(s[|s| - 1]) {
      var last := s[|s| - 1];
      tail := EndTrimmed(s[..|s| - 1]);
      tail := tail + [last];
    }
  }

  lemma {:induction false} NoSpaceFirst(s: string)
    ensures TrimStart(s) != "" ==> !IsSpace(TrimStart(s)[0])
  {
    if s != "" && IsSpace(s[0]) { NoSpaceFirst(s[1..]); }
  }

  /** `r` is `s` without the white space around it, and nothing else is gone. */
  lemma TrimmedIs(s: string) returns (lead: string, tail: string)
    ensures s == lead + Trim(s) + tail && AllSpace(lead) && AllSpace(tail)
    ensures Trim(s) != "" ==> !IsSpace(Trim(s)[0]) && !IsSpace(Trim(s)[|Trim(s)| - 1])
  {
    hide IsSpace, TrimStart, TrimEnd;
    lead := StartTrimmed(s);
    tail := EndTrimmed(TrimStart(s));
    NoSpaceFirst(s);
    assert lead + (Trim(s) + tail) == lead + Trim(s) + tail;
    if Trim(s) != "" { assert TrimStart(s)[0] == Trim(s)[0]; }
  }

  /**
   * What each kind of `normalize:` leaves: `trim` no outer white space, having dropped only
   * white space; `rstrip-slash` no slash at the end, having dropped only slashes; `lower` the
   * platform's lower case; anything else the value itself.
   */
  lemma NormalizedIs(w: World, how: Option<string>, value: string) returns (lead: string, tail: string)
    ensures var r := Normalize(w, how, value);
      && (how == Some("trim") ==>
            value == lead + r + tail && AllSpace(lead) && AllSpace(tail)
            && (r != "" ==> !IsSpace(r[0]) && !IsSpace(r[|r| - 1])))
      && (how == Some("rstrip-slash") ==>
            value == r + tail && AllSlashes(tail) && (r != "" ==> r[|r| - 1] != '/'))
      && (how == Some("lower") ==> r == w.lower(value))
      && (how != Some("trim") && how != Some("rstrip-slash") && how != Some("lower") ==> r == value)
  {
    hide Trim, StripSlashes;
    lead, tail := "", "";
    if how == Some("trim") {
      lead, tail := TrimmedIs(value);
    } else if how == Some("rstrip-slash") {
      tail := SlashesStripped(value);
    }
  }

  // ---------------------------------------------------------------------------
  // Answers
  // ---------------------------------------------------------------------------

  /** A prompt's variable is its first argument that is not the word `secret`. */
  lemma {:induction false} FirstNameIs(args: seq<string>)
    ensures match FirstName(args)
      case None => forall k | 0 <= k < |args| :: args[k] == "secret"
      case Some(v) => exists k | 0 <= k < |args| :: args[k] == v && v != "secret" && forall j | 0 <= j < k :: args[j] == "secret"
  {
    if args != [] && args[0] == "secret" {
      FirstNameIs(args[1..]);
      if FirstName(args[1..]).Some? {
        var k :| 0 <= k < |args[1..]| && args[1..][k] == FirstName(args).value
                 && forall j | 0 <= j < k :: args[1..][j] == "secret";
        assert args[k + 1] == FirstName(args).value;
        forall j | 0 <= j < k + 1 ensures args[j] == "secret" { if j > 0 { assert args[1..][j - 1] == args[j]; } }
      } else {
        forall k | 0 <= k < |args| ensures args[k] == "secret" { if k > 0 { assert args[1..][k - 1] == args[k]; } }
      }
    }
  }

  /** The answer a prompt gets: the caller's input if there is one, else whatever is answered when asked. */
  function AnswerTo(w: World, d: Directive, s: State): Resolved {
    var key := match PromptVar(d) case Some(v) => v case None => "undefined";
    if key in w.inputs then Resolved(w.inputs[key]) else w.resolve(s.tick + 1, key)
  }

  /** The normalized value has the shape the prompt asks for. */
  predicate Accepts(w: World, d: Directive, value: string) {
    "validate" in d.attrs ==>
      && w.validRegex(d.attrs["validate"], Attr(d, "flags"))
      && w.matches(d.attrs["validate"], Attr(d, "flags"), value)
  }

  /** Nothing but variables, outcomes and the oracle counts changed. */
  predicate Asked(s: State, s': State) {
    && s'.tree == s.tree && s'.journal == s.journal && s'.calls == s.calls && s'.events == s.events
    && s'.applied == s.applied && s'.skipped == s.skipped && s'.messages == s.messages
  }

  /** The prompt was put off or handed over. */
  predicate Unanswered(s: State, s': State) {
    && s'.vars == s.vars && s'.bound == s.bound
    && |s'.deferred| + |s'.agentTasks| == |s.deferred| + |s.agentTasks| + 1
  }

  predicate BoundTo(d: Directive, i: nat, value: string, s: State, s': State) {
    && s'.bound == s.bound + [i] && s'.deferred == s.deferred && s'.agentTasks == s.agentTasks
    && s'.vars == match PromptVar(d) case Some(v) => s.vars[v := Var(value, "secret" in d.args)] case None => s.vars
  }

  lemma CatchUnanswered(w: World, i: nat, e: Thrown, s: State)
    ensures Asked(s, Catch(w, i, None, e, s)) && Unanswered(s, Catch(w, i, None, e, s))
  {
    hide Contains;
  }

  lemma BindOutcome(w: World, i: nat, d: Directive, value: string, s: State)
    ensures var s', v := BindPrompt(w, i, d, value, s), Normalize(w, Attr(d, "normalize"), value);
      Asked(s, s') && if Accepts(w, d, v) then BoundTo(d, i, v, s, s') else Unanswered(s, s')
  {
    hide Normalize, PromptVar, Catch;
    CatchUnanswered(w, i, Thrown("invalid regular expression", false), s);
  }

  lemma AskOutcome(w: World, i: nat, d: Directive, s: State)
    ensures var s', answer := DoPrompt(w, i, d, s), AnswerTo(w, d, s);
      Asked(s, s')
      && if answer.Resolved? && Accepts(w, d, Normalize(w, Attr(d, "normalize"), answer.value))
         then BoundTo(d, i, Normalize(w, Attr(d, "normalize"), answer.value), s, s')
         else Unanswered(s, s') && (answer.NoAnswer? ==> s'.agentTasks == s.agentTasks)
  {
    hide Normalize, PromptVar, Catch, BindPrompt, Accepts;
    var key := PromptKey(d);
    var s1 := s.(tick := s.tick + 1);
    if key in w.inputs { BindOutcome(w, i, d, w.inputs[key], s); }
    match w.resolve(s1.tick, key)
    case Resolved(value) => BindOutcome(w, i, d, value, s1);
    case NoAnswer =>
    case ResolveThrew(message) => CatchUnanswered(w, i, Thrown(message, false), Fault(s1));
  }

  /**
   * A prompt that is reached binds its variable exactly when it gets an answer whose
   * normalized form is accepted: to that form, marked secret as asked. Otherwise no variable
   * changes, and the prompt is deferred or handed over. Nothing else ever happens.
   */
  lemma PromptOutcome(w: World, i: nat, d: Directive, s: State)
    requires d.kind == "prompt" && w.mode == Install && GuardMet(d, s.vars)
    ensures var s', answer := Step(w, i, d, s), AnswerTo(w, d, s);
      Asked(s, s')
      && if answer.Resolved? && Accepts(w, d, Normalize(w, Attr(d, "normalize"), answer.value))
         then BoundTo(d, i, Normalize(w, Attr(d, "normalize"), answer.value), s, s')
         else Unanswered(s, s') && (answer.NoAnswer? ==> s'.agentTasks == s.agentTasks)
  {
    hide DoPrompt, GuardMet, AnswerTo, Normalize, Accepts;
    AskOutcome(w, i, d, s);
  }

  // ---------------------------------------------------------------------------
  // Secrets
  // ---------------------------------------------------------------------------

  /** Only prompts marked secret bind `name`. */
  predicate OnlySecret(ds: seq<Directive>, name: string) {
    forall k | 0 <= k < |ds| ::
      if ds[k].kind == "prompt" then PromptVar(ds[k]) == Some(name) ==> "secret" in ds[k].args else name !in WorkNames(ds[k])
  }

  lemma BoundSecret(w: World, i: nat, d: Directive, value: string, s: State, name: string)
    requires PromptVar(d) == Some(name) ==> "secret" in d.args
    requires name in s.vars ==> s.vars[name].secret
    ensures var vars := BindPrompt(w, i, d, value, s).vars; name in vars ==> vars[name].secret
  {
    hide Normalize, PromptVar;
    BindPromptValue(w, i, d, value, s, name);
  }

  lemma PromptSecret(w: World, i: nat, d: Directive, s: State, name: string)
    requires PromptVar(d) == Some(name) ==> "secret" in d.args
    requires name in s.vars ==> s.vars[name].secret
    ensures var vars := DoPrompt(w, i, d, s).vars; name in vars ==> vars[name].secret
  {
    hide BindPrompt, Catch, PromptVar;
    var s1 := s.(tick := s.tick + 1);
    if PromptKey(d) in w.inputs { BoundSecret(w, i, d, w.inputs[PromptKey(d)], s, name); }
    match w.resolve(s1.tick, PromptKey(d))
    case Resolved(value) => BoundSecret(w, i, d, value, s1, name);
    case NoAnswer =>
    case ResolveThrew(message) => CatchKeepsVars(w, i, None, Thrown(message, false), Fault(s1));
  }

  /** What only secret prompts bind is never among the variables a caller gets. */
  lemma {:induction false} SecretsStaySecret(w: World, ds: seq<Directive>, tree: Tree, n: nat, name: string)
    requires n <= |ds| && OnlySecret(ds, name)
    ensures name !in ResultVars(Run(w, ds, tree, n))
  {
    hide Step, WorkNames, PromptVar, DoPrompt, GuardMet;
    if n > 0 {
      SecretsStaySecret(w, ds, tree, n - 1, name);
      RunUnfolds(w, ds, tree, n);
      var d, s := ds[n - 1], Run(w, ds, tree, n - 1);
      if d.kind == "prompt" {
        StepPrompt(w, n - 1, d, s);
        PromptSecret(w, n - 1, d, s, name);
      } else {
        OtherKeepsName(w, n - 1, d, s, name);
      }
    }
  }
}
