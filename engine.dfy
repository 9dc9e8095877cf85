/**
 * The scan loop of `Query.parse`, as functions over a snapshot of its
 * variables: the remaining input, the active lexer type, the current token
 * and the token tree. The tree is a sequence of tokens in creation order;
 * the root is token 0 and each token holds the index of its parent.
 */
module Engine {
  import opened Base
  import opened Grammar
  import opened Moo

  /** Every way `buildLexers` or `parse` can fail. */
  datatype ParseError =
    | BuildFailed(lexer: string, cause: string)  // moo could not compile this lexer type
    | Rebuilt(lexer: string)                     // an earlier build already renamed this lexer type in place
    | UnknownStart(name: string)                 // the starting type is not a compiled lexer
    | SyntaxError(remaining: string, lexer: string) // no rule matches; the current token's lexer type
    | UnknownLexer(name: string)                 // a `nextlexer` or `sublexer` names no compiled lexer
    | Unbalanced                                 // an `end` rule fired at the root
    | OutOfFuel                                  // the step bound of this model ran out

  /** The starting lexer type when the caller names none. */
  const DefaultLexer: string := "selectors"

  /** The token type of the root token. */
  const RootRule: Rule := Plain("root")

  /**
   * A token of the tree: the rule that produced it, the text moo matched,
   * the accumulated text, its parent and visible children (indices), and the
   * lexer type stored with it (resumed when a descendant's `end` pops to it).
   */
  datatype Token = Token(
    tokenType: Rule,
    matched: string,
    text: string,
    parent: Option<nat>,
    children: seq<nat>,
    lexer: string)

  /** The token's own captured text: empty for a `notext` rule, else what it matched. */
  function Captured(t: Token): (c: string)
    ensures c <= t.matched
    ensures t.tokenType.noText ==> c == []
    ensures c != t.matched ==> t.tokenType.noText
  {
    if t.tokenType.noText then "" else t.matched
  }

  /** The loop variables: `remainingString`, the active lexer type, `current` and the tree. */
  datatype State = State(remaining: string, lexer: string, current: nat, tokens: seq<Token>)

  // ----- Shape of the tree -----

  /** Parents are created before their children. */
  predicate ParentsBelow(tokens: seq<Token>) {
    forall j :: 0 <= j < |tokens| && tokens[j].parent.Some? ==> tokens[j].parent.value < j
  }

  /** Token 0 is the root, the only token without a parent. */
  predicate TreeShape(tokens: seq<Token>) {
    |tokens| > 0 && ParentsBelow(tokens) &&
    forall j :: 0 <= j < |tokens| ==> (tokens[j].parent.None? <==> j == 0)
  }

  /** What the loop needs of its variables to take a step. */
  predicate StateOk(g: Registry, s: State) {
    TreeShape(s.tokens) && s.current < |s.tokens| && s.lexer in g &&
    forall j :: 0 <= j < |s.tokens| ==> s.tokens[j].lexer in g
  }

  /** `a` is a strict ancestor of token `j`. */
  function IsAncestor(tokens: seq<Token>, a: nat, j: nat): bool
    requires j < |tokens|
    decreases j
  {
    match tokens[j].parent
    case None => false
    case Some(p) => p < j && (p == a || IsAncestor(tokens, a, p))
  }

  /** The number of ancestors of token `j`. */
  function Depth(tokens: seq<Token>, j: nat): nat
    requires j < |tokens|
    decreases j
  {
    match tokens[j].parent
    case None => 0
    case Some(p) => if p < j then Depth(tokens, p) + 1 else 0
  }

  /** The captured text of the descendants of `i` among the first `k` tokens, in creation order. */
  function DescendantText(tokens: seq<Token>, i: nat, k: nat): string
    requires k <= |tokens|
    decreases k
  {
    if k <= i + 1 then ""
    else DescendantText(tokens, i, k - 1) + (if IsAncestor(tokens, i, k - 1) then Captured(tokens[k - 1]) else "")
  }

  /** The tokens among the first `k` whose parent is `i` and whose rule is not `skiptoken`, in creation order. */
  function VisibleChildren(tokens: seq<Token>, i: nat, k: nat): seq<nat>
    requires k <= |tokens|
    decreases k
  {
    if k <= i + 1 then []
    else
      var last := if tokens[k - 1].parent == Some(i) && !tokens[k - 1].tokenType.skipToken then [k - 1] else [];
      VisibleChildren(tokens, i, k - 1) + last
  }

  /** Every token's text is its own captured text followed by that of all its descendants. */
  predicate Accumulated(tokens: seq<Token>) {
    forall i :: 0 <= i < |tokens| ==> tokens[i].text == Captured(tokens[i]) + DescendantText(tokens, i, |tokens|)
  }

  /** Every token's children are exactly its visible children. */
  predicate ChildrenExact(tokens: seq<Token>) {
    forall i :: 0 <= i < |tokens| ==> tokens[i].children == VisibleChildren(tokens, i, |tokens|)
  }

  /** The root's text followed by the remaining input is the query. */
  predicate Conserved(query: string, s: State) {
    |s.tokens| > 0 && s.tokens[0].text + s.remaining == query
  }

  /** The invariant of the scan loop. */
  predicate Invariant(g: Registry, query: string, s: State) {
    StateOk(g, s) && Conserved(query, s) && Accumulated(s.tokens) && ChildrenExact(s.tokens)
  }

  // ----- One step -----

  /** Appends `text` to the text of token `t` and of each of its ancestors (the walk up `parent`). */
  function Propagate(tokens: seq<Token>, t: Option<nat>, text: string): (r: seq<Token>)
    requires ParentsBelow(tokens) && (t.Some? ==> t.value < |tokens|)
    ensures |r| == |tokens|
    ensures forall j :: 0 <= j < |tokens| ==> r[j] == tokens[j].(text := r[j].text)
    decreases if t.Some? then t.value + 1 else 0
  {
    match t
    case None => tokens
    case Some(i) =>
      var updated := tokens[i := tokens[i].(text := tokens[i].text + text)];
      assert forall j :: 0 <= j < |tokens| ==> updated[j].parent == tokens[j].parent;
      Propagate(updated, tokens[i].parent, text)
  }

  /**
   * Creating the token for a match of `len` characters of `rule`: it is linked
   * to the current token, appended to its children unless `skiptoken`, takes its
   * text and consumes it unless `notext`, and its text is added to every ancestor.
   */
  function Emit(s: State, rule: Rule, len: nat): (r: State)
    requires TreeShape(s.tokens) && s.current < |s.tokens| && len <= |s.remaining|
    ensures TreeShape(r.tokens) && |r.tokens| == |s.tokens| + 1
    ensures r.lexer == s.lexer && r.current == s.current
  {
    var n := |s.tokens|;
    var matched := s.remaining[..len];
    var stored := if rule.subLexer.Some? then rule.subLexer.value else s.lexer;
    var tokens0 := s.tokens + [Token(rule, matched, "", Some(s.current), [], stored)];
    var tokens1 :=
      if rule.skipToken then tokens0
      else tokens0[s.current := tokens0[s.current].(children := tokens0[s.current].children + [n])];
    var text := if rule.noText then "" else matched;
    var remaining := if rule.noText then s.remaining else s.remaining[len..];
    var tokens2 := tokens1[n := tokens1[n].(text := text)];
    assert forall j :: 0 <= j < n ==> tokens2[j].parent == s.tokens[j].parent;
    State(remaining, s.lexer, s.current, Propagate(tokens2, Some(s.current), text))
  }

  /** The transition flags of the rule, in the order the loop tests them: `nextlexer`, `sublexer`, `end`. */
  function Transition(g: Registry, rule: Rule, s: State, n: nat): (r: Result<State, ParseError>)
    requires ParentsBelow(s.tokens) && s.current < |s.tokens| && n < |s.tokens|
    ensures r.Ok? ==> r.value.remaining == s.remaining && r.value.tokens == s.tokens && r.value.current < |s.tokens|
    ensures r.Ok? ==> (rule.nextLexer.Some? ==> rule.nextLexer.value in g) && (rule.subLexer.Some? ==> rule.subLexer.value in g)
  {
    if rule.nextLexer.Some? && rule.nextLexer.value !in g then Err(UnknownLexer(rule.nextLexer.value))
    else if rule.subLexer.Some? && rule.subLexer.value !in g then Err(UnknownLexer(rule.subLexer.value))
    else
      var switched := if rule.nextLexer.Some? then rule.nextLexer.value else s.lexer;
      var current := if rule.subLexer.Some? then n else s.current;
      var lexer := if rule.subLexer.Some? then rule.subLexer.value else switched;
      if !rule.end then Ok(State(s.remaining, lexer, current, s.tokens))
      else
        match s.tokens[current].parent
        case None => Err(Unbalanced)
        case Some(p) => Ok(State(s.remaining, s.tokens[p].lexer, p, s.tokens))
  }

  /** One iteration of the loop. */
  function Step(g: Registry, m: PatternMatch, s: State): (r: Result<State, ParseError>)
    requires StateOk(g, s)
    ensures r.Ok? ==> StateOk(g, r.value)
    ensures r.Err? ==> r.error.SyntaxError? || r.error.UnknownLexer? || r.error == Unbalanced
  {
    match FirstMatch(m, s.lexer, g[s.lexer], s.remaining)
    case NoMatch => Err(SyntaxError(s.remaining, s.tokens[s.current].lexer))
    case Hit(rule, len) => Transition(g, rule, Emit(s, rule, len), |s.tokens|)
  }

  /** An iteration of a loop over the scan variables, defined on the states a predicate admits. */
  type StepFn = State --> Result<State, ParseError>

  /** `step` is defined on every state `ok` admits, and a successful iteration stays there. */
  ghost predicate Closes(step: StepFn, ok: State -> bool) {
    (forall x :: ok(x) ==> step.requires(x)) &&
    (forall x :: ok(x) && step(x).Ok? ==> ok(step(x).value))
  }

  /** A loop that takes iterations of `step` while input remains, for at most `fuel` iterations. */
  function Loop(step: StepFn, ok: State -> bool, s: State, fuel: nat): (r: Result<State, ParseError>)
    requires ok(s) && Closes(step, ok)
    ensures r.Ok? ==> ok(r.value) && r.value.remaining == []
    decreases fuel
  {
    if s.remaining == [] then Ok(s)
    else if fuel == 0 then Err(OutOfFuel)
    else
      match step(s)
      case Err(e) => Err(e)
      case Ok(next) => Loop(step, ok, next, fuel - 1)
  }

  /** The iteration of the scan loop under registry `g` and patterns `m`. */
  function StepOf(g: Registry, m: PatternMatch): (step: StepFn)
    ensures Closes(step, OkIn(g))
  {
    x requires StateOk(g, x) => Step(g, m, x)
  }

  /** The states on which the scan loop can take an iteration. */
  function OkIn(g: Registry): State -> bool {
    x => StateOk(g, x)
  }

  /** The scan loop, run while input remains, for at most `fuel` iterations. */
  function Run(g: Registry, m: PatternMatch, s: State, fuel: nat): (r: Result<State, ParseError>)
    requires StateOk(g, s)
    ensures r.Ok? ==> StateOk(g, r.value) && r.value.remaining == []
  {
    Loop(StepOf(g, m), OkIn(g), s, fuel)
  }

  /** `typename || 'selectors'`: the empty name stands for a missing one. */
  function StartName(typename: string): (name: string)
    ensures name != ""
    ensures typename != "" ==> name == typename
    ensures typename == "" ==> name == DefaultLexer
  {
    if typename == "" then DefaultLexer else typename
  }

  /** The root token: no parent, no text, storing the starting lexer type. */
  function Root(name: string): (root: Token)
    ensures root.parent.None? && root.lexer == name && Captured(root) == ""
    ensures TreeShape([root]) && Accumulated([root]) && ChildrenExact([root])
  {
    Token(RootRule, "", "", None, [], name)
  }

  /** The loop variables before the first iteration, or the unknown-start failure. */
  function Start(g: Registry, query: string, typename: string): (r: Result<State, ParseError>)
    ensures r.Ok? ==> Invariant(g, query, r.value)
    ensures r.Err? <==> StartName(typename) !in g
  {
    var name := StartName(typename);
    if name !in g then Err(UnknownStart(name))
    else Ok(State(query, name, 0, [Root(name)]))
  }

  /**
   * `parse` once the lexers are built: every token created, in creation order
   * (the root at index 0, `skiptoken` tokens included), or the failure. The
   * code's root token reaches only the tokens its `children` lists hold.
   */
  function ParseWith(g: Registry, m: PatternMatch, query: string, typename: string, fuel: nat): (r: Result<seq<Token>, ParseError>)
    ensures StartName(typename) !in g ==> r == Err(UnknownStart(StartName(typename)))
    ensures r.Ok? ==> TreeShape(r.value) && StartName(typename) in g
  {
    match Start(g, query, typename)
    case Err(e) => Err(e)
    case Ok(s) =>
      match Run(g, m, s, fuel)
      case Err(e) => Err(e)
      case Ok(last) => Ok(last.tokens)
  }
}
