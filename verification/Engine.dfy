/**
 * The skill application engine: what one directive does to the project tree,
 * the variables, the journal and the result, with every collaborator an oracle.
 */
module Engine {
  import opened Text
  import opened Directives
  import opened Vars

  // ---------------------------------------------------------------------------
  // Data
  // ---------------------------------------------------------------------------

  datatype Json =
    | Null
    | Bool(truth: bool)
    | Num(number: real)
    | Str(text: string)
    | Arr(elements: seq<Json>)
    | Obj(fields: map<string, Json>)

  /** A project file: a text as its lines, or a JSON array as its elements. */
  datatype File = Lines(lines: seq<string>) | Entries(items: seq<Json>)

  type Tree = map<string, File>

  datatype Mode = Install | Refresh

  datatype Command =
    | Shell(text: string)
    | GitFetch(branch: string)
    | GitShow(branch: string, source: string, dest: string)

  /** How a command ended: its stdout or its error text, and the files it changed. */
  datatype Ran = Ran(failed: bool, text: string, writes: Tree, removes: set<string>)

  datatype Streamed = Streamed(threw: bool, message: string, ok: bool, fields: map<string, string>)

  datatype Resolved = Resolved(value: string) | NoAnswer | ResolveThrew(message: string)

  datatype Event =
    | StepStart(index: nat, caption: Option<string>)
    | StepEnd(index: nat, caption: Option<string>, ok: bool)
    | OperatorShown(index: nat, text: string)

  /** An event handed to the consumer, and whether its handler returned. */
  datatype Emission = Emission(event: Event, accepted: bool)

  datatype Entry =
    | Wrote(path: string)
    | Appended(path: string, line: string)
    | EnvSet(key: string)
    | Merged(path: string, key: string, value: Option<Json>, previous: Option<Json>)
    | CommandRan(command: string, undo: Option<string>)

  /** A call that reached `exec` or `execStream` while directive `index` was handled. */
  datatype Call = Executed(index: nat, command: Command) | Streaming(index: nat, script: string)

  datatype SkipReason = NotInRefresh | GuardUnmet | AfterFailure | CallerOwned | AlreadyPresent

  datatype Skip = Skip(index: nat, reason: SkipReason)

  datatype Deferral = Deferral(index: nat, message: string)

  datatype Task = Task(index: nat, reason: string)

  datatype Thrown = Thrown(message: string, reported: bool)

  /**
   * Everything outside the engine. Oracles take the number of oracle calls made
   * so far, so two calls with the same arguments may be answered differently.
   */
  datatype World = World(
    mode: Mode,
    inputs: map<string, string>,
    resolve: (nat, string) -> Resolved,
    skipEffects: set<string>,
    hasHandler: bool,
    handler: (nat, Event) -> Option<string>,
    exec: (nat, Command) -> Ran,
    hasStream: bool,
    stream: (nat, string) -> Streamed,
    writable: (nat, string) -> bool,
    reason: (nat, string) -> string,
    halts: (nat, Entry) -> Option<Option<File>>,
    source: string -> Option<File>,
    hasDep: (nat, string, string) -> bool,
    caption: Directive -> Option<string>,
    parse: string -> Option<Json>,
    render: seq<Json> -> seq<string>,
    pick: (Json, string) -> string,
    lower: string -> string,
    validRegex: (string, Option<string>) -> bool,
    matches: (string, Option<string>, string) -> bool)

  datatype State = State(
    tree: Tree,
    vars: Bindings,
    applied: seq<nat>,
    skipped: seq<Skip>,
    deferred: seq<Deferral>,
    agentTasks: seq<Task>,
    bound: seq<nat>,
    messages: seq<string>,
    journal: seq<Entry>,
    events: seq<Emission>,
    calls: seq<Call>,
    blocked: bool,
    tick: nat,
    faults: nat)

  /** A state, and the exception that ended the work, if one did. */
  datatype Done = Done(s: State, error: Option<Thrown>)

  function Initial(tree: Tree): State {
    State(tree, map[], [], [], [], [], [], [], [], [], [], false, 0, 0)
  }

  /** The bindings a caller gets to see. */
  function ResultVars(s: State): map<string, string> { map n | n in s.vars && !s.vars[n].secret :: s.vars[n].value }

  predicate FullyApplied(s: State) { s.deferred == [] && s.agentTasks == [] }

  // ---------------------------------------------------------------------------
  // Reading the tree
  // ---------------------------------------------------------------------------

  function ReadLines(w: World, tree: Tree, path: string): (lines: seq<string>)
    ensures lines != []
  {
    if path !in tree then [""]
    else
      var lines := match tree[path] case Lines(l) => l case Entries(items) => w.render(items);
      if lines == [] then [""] else lines
  }

  /** The JSON array at `path`; a missing or empty file is an empty array. */
  function ReadArray(w: World, tree: Tree, path: string): Option<seq<Json>> {
    if path == "" then None
    else if path !in tree then Some([])
    else
      match tree[path]
      case Entries(items) => Some(items)
      case Lines(lines) =>
        var text := JoinLines(lines);
        if text == "" then Some([])
        else
          match w.parse(text)
          case Some(Arr(elements)) => Some(elements)
          case _ => None
  }

  predicate FileHasLine(w: World, tree: Tree, path: string, line: string) {
    exists k | 0 <= k < |ReadLines(w, tree, path)| :: Trim(ReadLines(w, tree, path)[k]) == Trim(line)
  }

  /** The key of a `KEY=value` line with a value that is not blank. */
  predicate SetsKey(line: string, key: string) {
    var l := TrimStart(line);
    var name := SkipIdent(l, 0);
    var eq := SkipSpaces(l, name);
    && IsIdent(l[..name]) && l[..name] == key
    && eq < |l| && l[eq] == '='
    && (forall k | eq < k < |l| :: !IsLineTerminator(l[k]))
    && Trim(l[eq + 1..]) != ""
  }

  predicate EnvKeySet(w: World, tree: Tree, key: string) {
    exists k | 0 <= k < |ReadLines(w, tree, ".env")| :: SetsKey(ReadLines(w, tree, ".env")[k], key)
  }

  function Field(j: Json, key: string): Option<Json> {
    if j.Obj? && key in j.fields then Some(j.fields[key]) else None
  }

  predicate IsScalar(v: Option<Json>) { v.None? || !(v.value.Arr? || v.value.Obj?) }

  /** `===` between freshly parsed values: objects are never identical. */
  predicate StrictEquals(a: Option<Json>, b: Option<Json>) { IsScalar(a) && a == b }

  predicate ElementHas(element: Json, key: string, value: Option<Json>) {
    (element.Obj? || element.Arr?) && StrictEquals(Field(element, key), value)
  }

  /** Index of the first element with `[key] === value`, or the length. */
  function FindElement(items: seq<Json>, key: string, value: Option<Json>): (k: nat)
    ensures k <= |items|
    ensures k < |items| ==> ElementHas(items[k], key, value)
    ensures forall j | 0 <= j < k :: !ElementHas(items[j], key, value)
  {
    if items == [] then 0
    else if ElementHas(items[0], key, value) then 0
    else 1 + FindElement(items[1..], key, value)
  }

  predicate ArrayHas(w: World, tree: Tree, path: string, key: string, value: Option<Json>) {
    match ReadArray(w, tree, path)
    case None => false
    case Some(items) => FindElement(items, key, value) < |items|
  }

  // ---------------------------------------------------------------------------
  // Directive attributes
  // ---------------------------------------------------------------------------

  function Effect(d: Directive): string {
    if d.kind == "run" && "effect" in d.attrs then d.attrs["effect"] else ""
  }

  /** `String(attrs[key])`: a missing attribute prints as `undefined`. */
  function Printed(d: Directive, key: string): string {
    match Attr(d, key) case Some(v) => v case None => "undefined"
  }

  function OrEmpty(d: Directive, key: string): string {
    match Attr(d, key) case Some(v) => v case None => ""
  }

  function PromptVar(d: Directive): Option<string> { FirstName(d.args) }

  function FirstName(args: seq<string>): Option<string> {
    if args == [] then None else if args[0] != "secret" then Some(args[0]) else FirstName(args[1..])
  }

  function ArrowAt(line: string): int { IndexOfText(line, "->") }

  function SourceOf(line: string): string {
    if ArrowAt(line) >= 0 then Trim(line[..ArrowAt(line)]) else Trim(line)
  }

  function DestOf(line: string): string {
    if ArrowAt(line) >= 0 && ArrowAt(line) + 2 <= |line| then
      var rest := line[ArrowAt(line) + 2..];
      Trim(if ArrowAt(rest) >= 0 then rest[..ArrowAt(rest)] else rest)
    else Trim(line)
  }

  predicate Has(tree: Tree, path: string) { path == "" || path in tree }

  function DepName(spec: string): string {
    var at := LastIndexOf(spec, '@');
    if at >= 0 then spec[..at] else if spec == "" then "" else spec[..|spec| - 1]
  }

  /** `split('=')[0].trim()`. */
  function EnvName(entry: string): string {
    var eq := IndexOf(entry, '=');
    Trim(if eq >= 0 then entry[..eq] else entry)
  }

  /** `entry.slice(0, eq).trim()` and `entry.slice(eq + 1).trim()`, also when there is no `=`. */
  function EnvKey(entry: string): string {
    var eq := IndexOf(entry, '=');
    Trim(if eq >= 0 then entry[..eq] else if entry == "" then "" else entry[..|entry| - 1])
  }

  function EnvTemplate(entry: string): string {
    var eq := IndexOf(entry, '=');
    Trim(if eq >= 0 then entry[eq + 1..] else entry)
  }

  // ---------------------------------------------------------------------------
  // Guards
  // ---------------------------------------------------------------------------

  datatype Guard = Guard(name: string, value: string)

  /** A `when:` guard; a malformed one does not guard. */
  function GuardOf(d: Directive): Option<Guard> {
    match Attr(d, "when")
    case None => None
    case Some(when) =>
      var eq := IndexOf(when, '=');
      if eq < 1 then None else Some(Guard(Trim(when[..eq]), Trim(when[eq + 1..])))
  }

  predicate GuardMet(d: Directive, vars: Bindings) {
    match GuardOf(d)
    case None => true
    case Some(g) => g.name in vars && vars[g.name].value == g.value
  }

  // ---------------------------------------------------------------------------
  // Oracle calls
  // ---------------------------------------------------------------------------

  /** Count a failure outside the engine: a command, a write, a handler, an answer, a file's content. */
  function Fault(s: State): State { s.(faults := s.faults + 1) }

  function Raise(s: State, message: string): Done { Done(s, Some(Thrown(message, false))) }

  function Emit(w: World, e: Event, s: State): Done {
    if !w.hasHandler then Done(s, None)
    else
      var n := s.tick + 1;
      match w.handler(n, e)
      case None => Done(s.(tick := n, events := s.events + [Emission(e, true)]), None)
      case Some(message) => Raise(Fault(s.(tick := n, events := s.events + [Emission(e, false)])), message)
  }

  function Answer(w: World, s: State, cmd: Command): Ran { w.exec(s.tick + 1, cmd) }

  function Exec(w: World, i: nat, cmd: Command, s: State): Done {
    var a := Answer(w, s, cmd);
    var s1 := s.(tick := s.tick + 1, tree := (s.tree + a.writes) - a.removes, calls := s.calls + [Executed(i, cmd)]);
    if a.failed then Raise(Fault(s1), a.text) else Done(s1, None)
  }

  function Write(w: World, path: string, file: File, s: State): Done {
    var n := s.tick + 1;
    if path == "" || !w.writable(n, path) then Raise(Fault(s.(tick := n)), w.reason(n, path))
    else Done(s.(tick := n, tree := s.tree[path := file]), None)
  }

  function Journal(s: State, e: Entry): State { s.(journal := s.journal + [e]) }

  /** Substitute, or raise an error that says which answer is missing. */
  function Resolve(text: string, s: State): Done {
    match Substitute(text, s.vars)
    case Text(_) => Done(s, None)
    case Unresolved(name) => Raise(s, "unresolved {{" + name + "}}")
  }

  function Filled(text: string, vars: Bindings): string {
    match Substitute(text, vars) case Text(t) => t case Unresolved(_) => ""
  }

  // ---------------------------------------------------------------------------
  // Captures
  // ---------------------------------------------------------------------------

  function Bind(s: State, name: string, value: string): State {
    s.(vars := s.vars[name := Var(value, false)])
  }

  /** Bind one captured value under the optional shape guard. */
  function Capture(w: World, validate: Option<string>, name: string, value: string, s: State): Done {
    if validate.Some? && validate.value != "" && !w.matches(validate.value, None, value)
    then Raise(Fault(s), "captured " + name + " does not match validate:" + validate.value)
    else Done(Bind(s, name, value), None)
  }

  function SplitAt(s: string, c: char): seq<string>
    decreases |s|
  {
    var k := IndexOf(s, c);
    if k < 0 then [s] else [s[..k]] + SplitAt(s[k + 1..], c)
  }

  function PairName(pair: string): string
    requires IndexOf(pair, '=') >= 1
  {
    Trim(pair[..IndexOf(pair, '=')])
  }

  function PairPath(pair: string): string
    requires IndexOf(pair, '=') >= 1
  {
    Trim(pair[IndexOf(pair, '=') + 1..])
  }

  function CapturePairs(w: World, validate: Option<string>, pairs: seq<string>, json: Json, s: State): Done {
    if pairs == [] then Done(s, None)
    else if IndexOf(pairs[0], '=') < 1 then CapturePairs(w, validate, pairs[1..], json, s)
    else
      var r := Capture(w, validate, PairName(pairs[0]), w.pick(json, PairPath(pairs[0])), s);
      if r.error.Some? then r else CapturePairs(w, validate, pairs[1..], json, r.s)
  }

  function BindCapture(w: World, spec: string, stdout: string, validate: Option<string>, s: State): Done {
    if validate.Some? && validate.value != "" && !w.validRegex(validate.value, None)
    then Raise(s, "invalid regular expression")
    else if IndexOf(spec, '=') < 0 then Capture(w, validate, spec, stdout, s)
    else
      match w.parse(stdout)
      case None => Raise(Fault(s), "capture output is not valid JSON")
      case Some(json) => CapturePairs(w, validate, SplitAt(spec, ','), json, s)
  }

  /** Bind a step's terminal fields. */
  function CaptureFields(pairs: seq<string>, fields: map<string, string>, s: State): State {
    if pairs == [] then s
    else if IndexOf(pairs[0], '=') < 1 then CaptureFields(pairs[1..], fields, s)
    else
      var path := PairPath(pairs[0]);
      var value := if path in fields then Trim(fields[path]) else "";
      CaptureFields(pairs[1..], fields, Bind(s, PairName(pairs[0]), value))
  }

  // ---------------------------------------------------------------------------
  // One body line of a directive
  // ---------------------------------------------------------------------------

  /** What is done for each body line, with the attributes it needs. */
  datatype LineOp =
    | CopyLocal
    | CopyBranch(branch: string)
    | AppendTo(path: string)
    | InsertAt(path: string, marker: string)
    | Check
    | RunCommand(capture: Option<string>, validate: Option<string>, undo: Option<string>)
    | SetEnv

  /** Add a line at the end of a text, after completing its last line. */
  function WithLine(lines: seq<string>, line: string): (r: seq<string>)
    requires lines != []
  {
    if lines[|lines| - 1] == "" then lines[..|lines| - 1] + [line, ""] else lines + [line, ""]
  }

  /** Add a text of one or more lines at the end. */
  function WithLines(lines: seq<string>, more: seq<string>): (r: seq<string>)
    requires lines != []
  {
    (if lines[|lines| - 1] == "" then lines[..|lines| - 1] else lines) + more + [""]
  }

  function MarkerAt(lines: seq<string>, close: string): (k: nat)
    ensures k <= |lines|
    ensures k < |lines| ==> Contains(lines[k], close)
  {
    if lines == [] then 0 else if Contains(lines[0], close) then 0 else 1 + MarkerAt(lines[1..], close)
  }

  function Indent(line: string): string { line[..SkipSpaces(line, 0)] }

  function DoLine(w: World, i: nat, op: LineOp, l: string, s: State): Done {
    match op
    case CopyLocal =>
      (match w.source(SourceOf(l))
       case None => Raise(Fault(s), w.reason(s.tick, SourceOf(l)))
       case Some(file) => Write(w, DestOf(l), file, s))
    case CopyBranch(branch) => Exec(w, i, GitShow(branch, SourceOf(l), DestOf(l)), s)
    case AppendTo(path) =>
      var r := Write(w, path, Lines(WithLine(ReadLines(w, s.tree, path), l)), s);
      if r.error.Some? then r else Done(Journal(r.s, Appended(path, l)), None)
    case InsertAt(path, marker) =>
      var lines := ReadLines(w, s.tree, path);
      var at := MarkerAt(lines, "<<< " + marker);
      if at == |lines| then Raise(Fault(s), "append marker \"" + marker + "\" not found in " + path)
      else
        var r := Write(w, path, Lines(lines[..at] + [Indent(lines[at]) + l] + lines[at..]), s);
        if r.error.Some? then r else Done(Journal(r.s, Appended(path, l)), None)
    case Check =>
      var r := Resolve(l, s);
      if r.error.Some? then r else Exec(w, i, Shell(Filled(l, s.vars)), s)
    case RunCommand(capture, validate, undo) =>
      var r := Resolve(l, s);
      if r.error.Some? then r
      else
        var cmd := Shell(Filled(l, s.vars));
        var ran := Exec(w, i, cmd, s);
        if ran.error.Some? then ran
        else
          var bound := if capture.Some? then BindCapture(w, capture.value, Trim(Answer(w, s, cmd).text), validate, ran.s)
                       else ran;
          if bound.error.Some? then bound else Done(Journal(bound.s, CommandRan(l, undo)), None)
    case SetEnv =>
      var r := Resolve(EnvTemplate(l), s);
      if r.error.Some? then r
      else if EnvKeySet(w, s.tree, EnvKey(l)) then Done(s, None)
      else
        var text := SplitLines(EnvKey(l) + "=" + Filled(EnvTemplate(l), s.vars));
        var wrote := Write(w, ".env", Lines(WithLines(ReadLines(w, s.tree, ".env"), text)), s);
        if wrote.error.Some? then wrote else Done(Journal(wrote.s, EnvSet(EnvKey(l))), None)
  }

  /** The lines of a body in order, until one throws. */
  function Each(w: World, i: nat, op: LineOp, body: seq<string>, s: State): Done {
    if body == [] then Done(s, None)
    else
      var r := DoLine(w, i, op, body[0], s);
      if r.error.Some? then r else Each(w, i, op, body[1..], r.s)
  }

  // ---------------------------------------------------------------------------
  // One directive
  // ---------------------------------------------------------------------------

  function WroteAll(body: seq<string>): seq<Entry> {
    if body == [] then [] else [Wrote(DestOf(body[0]))] + WroteAll(body[1..])
  }

  function ApplyCopy(w: World, i: nat, d: Directive, s: State): Done {
    var branch := OrEmpty(d, "from-branch");
    var fetched := if branch == "" then Done(s, None) else Exec(w, i, GitFetch(branch), s);
    if fetched.error.Some? then fetched
    else
      var r := Each(w, i, if branch == "" then CopyLocal else CopyBranch(branch), d.body, fetched.s);
      if r.error.Some? then r else Done(r.s.(journal := r.s.journal + WroteAll(d.body)), None)
  }

  function AppendOp(d: Directive): LineOp {
    var marker := OrEmpty(d, "at");
    if marker == "" then AppendTo(Printed(d, "to")) else InsertAt(Printed(d, "to"), marker)
  }

  function Manager(d: Directive): string { match Attr(d, "manager") case Some(m) => m case None => "pnpm" }

  function InDirectory(d: Directive): string { if OrEmpty(d, "cwd") == "" then "" else "cd " + OrEmpty(d, "cwd") + " && " }

  function DepNames(specs: seq<string>): seq<string> { seq(|specs|, k requires 0 <= k < |specs| => DepName(specs[k])) }

  function InstallText(d: Directive): string { InDirectory(d) + Manager(d) + " add " + Join(d.body, " ") }

  function UninstallText(d: Directive): string { InDirectory(d) + Manager(d) + " remove " + Join(DepNames(d.body), " ") }

  function DepCommand(d: Directive): Command { Shell(InstallText(d)) }

  function ApplyDep(w: World, i: nat, d: Directive, s: State): Done {
    var r := Exec(w, i, DepCommand(d), s);
    if r.error.Some? then r else Done(Journal(r.s, CommandRan(InstallText(d), Some(UninstallText(d)))), None)
  }

  function ApplyStream(w: World, i: nat, d: Directive, s: State): Done {
    if !w.hasStream then Raise(s, "effect:step needs a streaming exec")
    else
      var script := JoinLines(d.body);
      var r := Resolve(script, s);
      if r.error.Some? then r
      else
        var out := w.stream(s.tick + 1, Filled(script, s.vars));
        FinishStream(d, script, out, s.(tick := s.tick + 1, calls := s.calls + [Streaming(i, Filled(script, s.vars))]))
  }

  /** Classify a streamed step's end and bind its terminal fields. */
  function FinishStream(d: Directive, script: string, out: Streamed, s: State): Done {
    if out.threw then Raise(Fault(s), out.message)
    else if !out.ok then
      var message := if "ERROR" in out.fields then Trim(out.fields["ERROR"]) else "";
      Done(Fault(s), Some(Thrown(if message == "" then "the step did not complete" else message, message != "")))
    else
      var capture := OrEmpty(d, "capture");
      var bound := if capture == "" then s else CaptureFields(SplitAt(capture, ','), out.fields, s);
      Done(Journal(bound, CommandRan(script, None)), None)
  }

  function RunOp(d: Directive): LineOp {
    var capture := Attr(d, "capture");
    RunCommand(
      if capture == Some("") then None else capture,
      Attr(d, "validate"),
      if Effect(d) == "external" then Attr(d, "remove") else None)
  }

  function ApplyMerge(w: World, d: Directive, s: State): Done {
    var into, key := Printed(d, "into"), Printed(d, "key");
    match (w.parse(JoinLines(d.body)), ReadArray(w, s.tree, into))
    case (Some(obj), Some(items)) =>
      var value := Field(obj, key);
      var at := FindElement(items, key, value);
      if at == |items| then
        var r := Write(w, into, Entries(items + [obj]), s);
        if r.error.Some? then r else Done(Journal(r.s, Merged(into, key, value, None)), None)
      else if w.mode == Refresh && items[at] != obj then
        var r := Write(w, into, Entries(items[at := obj]), s);
        if r.error.Some? then r else Done(Journal(r.s, Merged(into, key, value, Some(items[at]))), None)
      else Done(s, None)
    case (None, _) => Raise(s, w.reason(s.tick, JoinLines(d.body)))
    case (Some(_), None) => Raise(Fault(s), w.reason(s.tick, into))
  }

  function ApplyOne(w: World, i: nat, d: Directive, s: State): Done {
    if d.kind == "copy" then ApplyCopy(w, i, d, s)
    else if d.kind == "append" then Each(w, i, AppendOp(d), d.body, s)
    else if d.kind == "dep" then ApplyDep(w, i, d, s)
    else if d.kind == "run" then
      if Effect(d) == "check" then Each(w, i, Check, d.body, s)
      else if Effect(d) == "step" then ApplyStream(w, i, d, s)
      else Each(w, i, RunOp(d), d.body, s)
    else if d.kind == "env-set" then Each(w, i, SetEnv, d.body, s)
    else if d.kind == "json-merge" then ApplyMerge(w, d, s)
    else Raise(s, "no handler")
  }

  // ---------------------------------------------------------------------------
  // Is a directive already satisfied?
  // ---------------------------------------------------------------------------

  datatype Status = ToSkip | ToApply | ToAgent | Unreadable

  predicate DepMissing(w: World, tick: nat, d: Directive) {
    exists k | 0 <= k < |d.body| :: !w.hasDep(tick, DepName(d.body[k]), OrEmpty(d, "cwd"))
  }

  function SelfStatus(w: World, d: Directive, s: State): Status {
    if d.kind == "copy" then
      if w.mode == Refresh || exists k | 0 <= k < |d.body| :: !Has(s.tree, DestOf(d.body[k])) then ToApply else ToSkip
    else if d.kind == "append" then
      if OrEmpty(d, "to") == "" then Unreadable
      else if FileHasLine(w, s.tree, OrEmpty(d, "to"), if d.body == [] then "" else d.body[0]) then ToSkip
      else ToApply
    else if d.kind == "dep" then
      if w.mode == Refresh || DepMissing(w, s.tick, d) then ToApply else ToSkip
    else if d.kind == "run" then ToApply
    else if d.kind == "env-set" then
      if exists k | 0 <= k < |d.body| :: !EnvKeySet(w, s.tree, EnvName(d.body[k])) then ToApply else ToSkip
    else if d.kind == "json-merge" then
      match w.parse(JoinLines(d.body))
      case None => ToAgent
      case Some(Null) => ToAgent
      case Some(obj) =>
        if w.mode == Install && ArrayHas(w, s.tree, OrEmpty(d, "into"), OrEmpty(d, "key"), Field(obj, OrEmpty(d, "key")))
        then ToSkip else ToApply
    else ToAgent
  }

  // ---------------------------------------------------------------------------
  // The directive loop
  // ---------------------------------------------------------------------------

  function Bounce(s: State, i: nat, reason: string): State {
    s.(blocked := true, agentTasks := s.agentTasks + [Task(i, reason)])
  }

  function Skipped(s: State, i: nat, reason: SkipReason): State { s.(skipped := s.skipped + [Skip(i, reason)]) }

  function Deferred(s: State, i: nat, message: string): State { s.(deferred := s.deferred + [Deferral(i, message)]) }

  function Applied(s: State, i: nat): State { s.(applied := s.applied + [i]) }

  const UNRESOLVED := "unresolved {{"

  /** The catch: close an open step, then bounce or defer. */
  function Catch(w: World, i: nat, inFlight: Option<Option<string>>, e: Thrown, s: State): State {
    var closed := match inFlight
      case None => s
      case Some(caption) => Emit(w, StepEnd(i, caption, false), s).s;
    if e.reported then Bounce(closed, i, e.message)
    else if Contains(e.message, UNRESOLVED) then Deferred(closed, i, e.message)
    else Bounce(closed, i, "engine could not apply (" + e.message + ")")
  }

  function Normalize(w: World, how: Option<string>, value: string): string {
    match how
    case Some("trim") => Trim(value)
    case Some("rstrip-slash") => StripSlashes(value)
    case Some("lower") => w.lower(value)
    case _ => value
  }

  function StripSlashes(s: string): string {
    if s != "" && s[|s| - 1] == '/' then StripSlashes(s[..|s| - 1]) else s
  }

  /** The key a prompt's answer is looked up under; a nameless prompt looks up `undefined`. */
  function PromptKey(d: Directive): string {
    match PromptVar(d) case Some(v) => v case None => "undefined"
  }

  /** Bind an acquired value after normalizing and validating it. */
  function BindPrompt(w: World, i: nat, d: Directive, value: string, s: State): State {
    var bound := Normalize(w, Attr(d, "normalize"), value);
    var validate, flags := Attr(d, "validate"), Attr(d, "flags");
    if validate.Some? && !w.validRegex(validate.value, flags) then
      Catch(w, i, None, Thrown("invalid regular expression", false), s)
    else if validate.Some? && !w.matches(validate.value, flags, bound) then
      Deferred(Fault(s), i, PromptKey(d) + ": invalid value")
    else
      var vars := match PromptVar(d)
        case None => s.vars
        case Some(v) => s.vars[v := Var(bound, "secret" in d.args)];
      s.(vars := vars, bound := s.bound + [i])
  }

  function DoPrompt(w: World, i: nat, d: Directive, s: State): State {
    var key := PromptKey(d);
    if key in w.inputs then BindPrompt(w, i, d, w.inputs[key], s)
    else
      var s1 := s.(tick := s.tick + 1);
      match w.resolve(s1.tick, key)
      case Resolved(value) => BindPrompt(w, i, d, value, s1)
      case NoAnswer => Deferred(Fault(s1), i, key)
      case ResolveThrew(message) => Catch(w, i, None, Thrown(message, false), Fault(s1))
  }

  function DoOperator(w: World, i: nat, d: Directive, s: State): State {
    if s.blocked then Skipped(s, i, AfterFailure)
    else
      var body := JoinLines(d.body);
      var r := Resolve(body, s);
      if r.error.Some? then Catch(w, i, None, r.error.value, s)
      else
        var text := Filled(body, s.vars);
        var shown := Emit(w, OperatorShown(i, text), s.(messages := s.messages + [text]));
        if shown.error.Some? then Catch(w, i, None, shown.error.value, shown.s)
        else Applied(shown.s, i)
  }

  /** The bracketed mutation. */
  function DoStep(w: World, i: nat, d: Directive, s: State): State {
    var caption := w.caption(d);
    var started := Emit(w, StepStart(i, caption), s);
    if started.error.Some? then Catch(w, i, None, started.error.value, started.s)
    else
      var r := ApplyOne(w, i, d, started.s);
      if r.error.Some? then Catch(w, i, Some(caption), r.error.value, r.s)
      else
        var ended := Emit(w, StepEnd(i, caption, true), r.s);
        if ended.error.Some? then Catch(w, i, None, ended.error.value, ended.s)
        else Applied(ended.s, i)
  }

  predicate SideEffect(effect: string) { effect == "restart" || effect == "step" || effect == "wire" }

  predicate Validation(effect: string) { effect == "build" || effect == "test" }

  predicate OutsideRefresh(d: Directive) {
    || d.kind == "prompt" || d.kind == "operator" || d.kind == "env-set"
    || (d.kind == "run" && Effect(d) != "refresh")
  }

  /** Directives other than prompts and operators. */
  function DoMutation(w: World, i: nat, d: Directive, s: State): State {
    if d.kind == "run" && "effect" in d.attrs && d.attrs["effect"] in w.skipEffects then Skipped(s, i, CallerOwned)
    else if s.blocked && (SideEffect(Effect(d)) || Validation(Effect(d))) then Bounce(s, i, "skipped: an earlier step did not complete")
    else
      match SelfStatus(w, d, s)
      case ToAgent => Bounce(s, i, "no deterministic handler")
      case ToSkip => Skipped(s, i, AlreadyPresent)
      case Unreadable => Catch(w, i, None, Thrown(w.reason(s.tick, "."), false), s)
      case ToApply => DoStep(w, i, d, s)
  }

  function Step(w: World, i: nat, d: Directive, s: State): State {
    if w.mode == Refresh && OutsideRefresh(d) then Skipped(s, i, NotInRefresh)
    else if !GuardMet(d, s.vars) then Skipped(s, i, GuardUnmet)
    else if d.kind == "prompt" then DoPrompt(w, i, d, s)
    else if d.kind == "operator" then DoOperator(w, i, d, s)
    else DoMutation(w, i, d, s)
  }

  /** The state after the first `n` directives. */
  function Run(w: World, ds: seq<Directive>, tree: Tree, n: nat): State
    requires n <= |ds|
  {
    if n == 0 then Initial(tree) else Step(w, n - 1, ds[n - 1], Run(w, ds, tree, n - 1))
  }

  // ---------------------------------------------------------------------------
  // The journal played backwards
  // ---------------------------------------------------------------------------

  function WithoutLine(lines: seq<string>, e: Entry): seq<string> {
    if lines == [] then []
    else (if Kills(e, lines[0]) then [] else [lines[0]]) + WithoutLine(lines[1..], e)
  }

  /** The lines an entry's removal deletes. */
  predicate Kills(e: Entry, line: string) {
    match e
    case Appended(_, added) => Trim(line) == Trim(added)
    case EnvSet(key) => StartsWith(line, key + "=")
    case _ => false
  }

  function UndoEntry(w: World, e: Entry, tree: Tree): Tree {
    match e
    case Wrote(path) => tree - {path}
    case Appended(path, _) => tree[path := Lines(WithoutLine(ReadLines(w, tree, path), e))]
    case EnvSet(_) => tree[".env" := Lines(WithoutLine(ReadLines(w, tree, ".env"), e))]
    case Merged(path, key, value, previous) =>
      (match ReadArray(w, tree, path)
       case None => tree
       case Some(items) => tree[path := Entries(UndoMerge(items, key, value, previous))])
    case CommandRan(_, _) => tree
  }

  function UndoMerge(items: seq<Json>, key: string, value: Option<Json>, previous: Option<Json>): seq<Json> {
    var at := FindElement(items, key, value);
    if at == |items| then items
    else if previous.Some? then items[at := previous.value]
    else items[..at] + items[at + 1..]
  }

  /** Parsing the file throws. */
  predicate Unparsed(w: World, tree: Tree, path: string) {
    path in tree && tree[path].Lines? && JoinLines(tree[path].lines) != "" && w.parse(JoinLines(tree[path].lines)).None?
  }

  /** The file an entry's removal edits. */
  function Target(e: Entry): Option<string> {
    match e
    case Wrote(path) => Some(path)
    case Appended(path, _) => Some(path)
    case EnvSet(_) => Some(".env")
    case Merged(path, _, _, _) => Some(path)
    case CommandRan(_, _) => None
  }

  /** Removing the entry touches the project or runs a command. */
  predicate Acts(e: Entry) { e.CommandRan? ==> e.undo.Some? && e.undo.value != "" }

  /** The `n`-th entry's file operation or undo command throws. */
  predicate Halts(w: World, n: nat, e: Entry) { Acts(e) && w.halts(n, e).Some? }

  predicate Stops(w: World, n: nat, e: Entry, tree: Tree) { (e.Merged? && Unparsed(w, tree, e.path)) || Halts(w, n, e) }

  /** A write that throws leaves anything in its file. */
  function Halted(w: World, n: nat, e: Entry, tree: Tree): Tree {
    if (e.Merged? && Unparsed(w, tree, e.path)) || !Halts(w, n, e) then tree
    else
      match Target(e)
      case None => tree
      case Some(path) =>
        match w.halts(n, e).value
        case None => tree - {path}
        case Some(file) => tree[path := file]
  }

  /** What a removal left, whether it reached its end, and the undo commands it called. */
  datatype Removed = Removed(tree: Tree, finished: bool, called: seq<string>)

  function UndoCall(e: Entry): seq<string> { if e.CommandRan? && Acts(e) then [e.undo.value] else [] }

  /**
   * Newest entry first, until a merged file does not parse, or a file operation or an undo
   * command throws. What undo commands do to the tree is not the engine's.
   */
  function Remove(w: World, tree: Tree, journal: seq<Entry>): Removed
    decreases |journal|
  {
    if journal == [] then Removed(tree, true, [])
    else
      var n := |journal| - 1;
      var e := journal[n];
      if Stops(w, n, e, tree) then Removed(Halted(w, n, e, tree), false, UndoCall(e))
      else
        var rest := Remove(w, UndoEntry(w, e, tree), journal[..n]);
        rest.(called := UndoCall(e) + rest.called)
  }
}
