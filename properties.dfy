/**
 * What the scan loop guarantees: the effect of one step on the tree and the
 * loop variables, the loop invariant (text conservation, ancestor
 * accumulation, visible children), depth bookkeeping and the error cases.
 */
module ScanProperties {
  import opened Base
  import opened Grammar
  import opened Moo
  import opened Engine

  // ----- Tree framing -----

  /** `a` and `b` agree on the parent, rule and match of their first `k` tokens. */
  predicate SameSkeleton(a: seq<Token>, b: seq<Token>, k: nat) {
    k <= |a| && k <= |b| &&
    forall j :: 0 <= j < k ==> a[j].parent == b[j].parent && a[j].tokenType == b[j].tokenType && a[j].matched == b[j].matched
  }

  lemma {:induction false} AncestorFrame(a: seq<Token>, b: seq<Token>, i: nat, j: nat)
    requires j < |a| && j < |b| && SameSkeleton(a, b, j + 1)
    ensures IsAncestor(a, i, j) == IsAncestor(b, i, j)
    decreases j
  {
    match a[j].parent
    case None =>
    case Some(p) =>
      if p < j {
        AncestorFrame(a, b, i, p);
      }
  }

  lemma {:induction false} DepthFrame(a: seq<Token>, b: seq<Token>, j: nat)
    requires j < |a| && j < |b| && SameSkeleton(a, b, j + 1)
    ensures Depth(a, j) == Depth(b, j)
    decreases j
  {
    match a[j].parent
    case None =>
    case Some(p) =>
      if p < j {
        DepthFrame(a, b, p);
      }
  }

  lemma {:induction false} DescendantTextFrame(a: seq<Token>, b: seq<Token>, i: nat, k: nat)
    requires SameSkeleton(a, b, k)
    ensures DescendantText(a, i, k) == DescendantText(b, i, k)
    decreases k
  {
    if k > i + 1 {
      DescendantTextFrame(a, b, i, k - 1);
      AncestorFrame(a, b, i, k - 1);
    }
  }

  lemma {:induction false} VisibleChildrenFrame(a: seq<Token>, b: seq<Token>, i: nat, k: nat)
    requires SameSkeleton(a, b, k)
    ensures VisibleChildren(a, i, k) == VisibleChildren(b, i, k)
    decreases k
  {
    if k > i + 1 {
      VisibleChildrenFrame(a, b, i, k - 1);
    }
  }

  /** Ancestors are created before their descendants. */
  lemma {:induction false} AncestorBelow(tokens: seq<Token>, a: nat, j: nat)
    requires j < |tokens| && IsAncestor(tokens, a, j)
    ensures a < j
    decreases j
  {
    var p := tokens[j].parent.value;
    if p != a {
      AncestorBelow(tokens, a, p);
    }
  }

  /** The root is an ancestor of every other token. */
  lemma {:induction false} RootIsAncestor(tokens: seq<Token>, j: nat)
    requires TreeShape(tokens) && 0 < j < |tokens|
    ensures IsAncestor(tokens, 0, j)
    decreases j
  {
    var p := tokens[j].parent.value;
    if p != 0 {
      RootIsAncestor(tokens, p);
    }
  }

  /** The depth of a token is one more than its parent's. */
  lemma DepthOfChild(tokens: seq<Token>, j: nat)
    requires TreeShape(tokens) && 0 < j < |tokens|
    ensures Depth(tokens, j) == Depth(tokens, tokens[j].parent.value) + 1
  {
  }

  // ----- The walk up the parent chain -----

  /** Propagation adds the text to token `t` and to exactly its ancestors. */
  lemma {:induction false} PropagateEffect(tokens: seq<Token>, t: nat, text: string)
    requires ParentsBelow(tokens) && t < |tokens|
    ensures var r := Propagate(tokens, Some(t), text);
      forall j :: 0 <= j < |tokens| ==>
        r[j].text == tokens[j].text + (if j == t || IsAncestor(tokens, j, t) then text else "")
    decreases t
  {
    var updated := tokens[t := tokens[t].(text := tokens[t].text + text)];
    var r := Propagate(tokens, Some(t), text);
    match tokens[t].parent
    case None =>
    case Some(p) =>
      assert SameSkeleton(tokens, updated, |tokens|);
      PropagateEffect(updated, p, text);
      forall j | 0 <= j < |tokens|
        ensures r[j].text == tokens[j].text + (if j == t || IsAncestor(tokens, j, t) then text else "")
      {
        AncestorFrame(tokens, updated, j, p);
        if IsAncestor(tokens, j, p) {
          AncestorBelow(tokens, j, p);
        }
      }
  }

  // ----- One emitted token -----

  /**
   * What creating a token does to the tree: one new token, linked to the current
   * one, holding its match, its captured text and its stored lexer type; the
   * captured text appended to the current token and all its ancestors; the new
   * index appended to the current token's children unless `skiptoken`; nothing
   * else changed; and the input consumed unless `notext`.
   */
  lemma EmitEffect(s: State, rule: Rule, len: nat)
    requires TreeShape(s.tokens) && s.current < |s.tokens| && len <= |s.remaining|
    ensures var r := Emit(s, rule, len);
      var n := |s.tokens|;
      var text := if rule.noText then "" else s.remaining[..len];
      && |r.tokens| == n + 1
      && r.tokens[n] == Token(rule, s.remaining[..len], text, Some(s.current), [],
                             if rule.subLexer.Some? then rule.subLexer.value else s.lexer)
      && (forall j :: 0 <= j < n ==> r.tokens[j] == s.tokens[j].(
            text := s.tokens[j].text + (if j == s.current || IsAncestor(s.tokens, j, s.current) then text else ""),
            children := s.tokens[j].children + (if j == s.current && !rule.skipToken then [n] else [])))
      && r.remaining == (if rule.noText then s.remaining else s.remaining[len..])
  {
    var n := |s.tokens|;
    var matched := s.remaining[..len];
    var stored := if rule.subLexer.Some? then rule.subLexer.value else s.lexer;
    var tokens0 := s.tokens + [Token(rule, matched, "", Some(s.current), [], stored)];
    var tokens1 :=
      if rule.skipToken then tokens0
      else tokens0[s.current := tokens0[s.current].(children := tokens0[s.current].children + [n])];
    var text := if rule.noText then "" else matched;
    var tokens2 := tokens1[n := tokens1[n].(text := text)];
    assert SameSkeleton(tokens2, s.tokens, n);
    PropagateEffect(tokens2, s.current, text);
    var r := Emit(s, rule, len);
    assert r.tokens == Propagate(tokens2, Some(s.current), text);
    forall j | 0 <= j < n + 1 ensures IsAncestor(tokens2, j, s.current) == IsAncestor(s.tokens, j, s.current) {
      AncestorFrame(tokens2, s.tokens, j, s.current);
    }
    if IsAncestor(tokens2, n, s.current) {
      AncestorBelow(tokens2, n, s.current);
    }
  }

  // ----- The loop invariant -----

  /** Text conservation survives a new token: the root gains exactly the text the input loses. */
  lemma EmitConserves(query: string, s: State, rule: Rule, len: nat)
    requires TreeShape(s.tokens) && s.current < |s.tokens| && len <= |s.remaining|
    requires Conserved(query, s)
    ensures Conserved(query, Emit(s, rule, len))
  {
    EmitEffect(s, rule, len);
    if s.current != 0 {
      RootIsAncestor(s.tokens, s.current);
    }
    assert s.remaining == s.remaining[..len] + s.remaining[len..];
  }

  lemma ConcatAssoc(a: string, b: string, c: string)
    ensures (a + b) + c == a + (b + c)
  {
  }

  /** An older token's text after a new token: its old text, plus the new capture when it is an ancestor of the new token. */
  lemma EmitAccumulatesAt(s: State, rule: Rule, len: nat, i: nat)
    requires TreeShape(s.tokens) && s.current < |s.tokens| && len <= |s.remaining|
    requires Accumulated(s.tokens) && i < |s.tokens|
    ensures var t := Emit(s, rule, len).tokens;
      t[i].text == Captured(t[i]) + DescendantText(t, i, |t|)
  {
    EmitEffect(s, rule, len);
    var t := Emit(s, rule, len).tokens;
    var n := |s.tokens|;
    var c := if rule.noText then "" else s.remaining[..len];
    var added := if i == s.current || IsAncestor(s.tokens, i, s.current) then c else "";
    assert t[n].parent == Some(s.current) && Captured(t[n]) == c;
    assert SameSkeleton(t, s.tokens, n);
    DescendantTextFrame(t, s.tokens, i, n);
    AncestorFrame(t, s.tokens, i, s.current);
    var own, below := Captured(s.tokens[i]), DescendantText(s.tokens, i, n);
    assert DescendantText(t, i, n + 1) == below + added;
    assert s.tokens[i].text == own + below;
    assert t[i].text == s.tokens[i].text + added;
    assert Captured(t[i]) == own;
    ConcatAssoc(own, below, added);
  }

  /** Ancestor accumulation survives a new token. */
  lemma EmitAccumulates(s: State, rule: Rule, len: nat)
    requires TreeShape(s.tokens) && s.current < |s.tokens| && len <= |s.remaining|
    requires Accumulated(s.tokens)
    ensures Accumulated(Emit(s, rule, len).tokens)
  {
    EmitEffect(s, rule, len);
    var t := Emit(s, rule, len).tokens;
    var n := |s.tokens|;
    forall i | 0 <= i < n + 1
      ensures t[i].text == Captured(t[i]) + DescendantText(t, i, n + 1)
    {
      if i < n {
        EmitAccumulatesAt(s, rule, len, i);
      }
    }
  }

  /** An older token's children after a new token: the new one is appended exactly when it is a visible child. */
  lemma EmitKeepsChildrenAt(s: State, rule: Rule, len: nat, i: nat)
    requires TreeShape(s.tokens) && s.current < |s.tokens| && len <= |s.remaining|
    requires ChildrenExact(s.tokens) && i < |s.tokens|
    ensures var t := Emit(s, rule, len).tokens;
      t[i].children == VisibleChildren(t, i, |t|)
  {
    EmitEffect(s, rule, len);
    var t := Emit(s, rule, len).tokens;
    var n := |s.tokens|;
    assert SameSkeleton(t, s.tokens, n);
    VisibleChildrenFrame(t, s.tokens, i, n);
    assert t[n].parent == Some(s.current) && t[n].tokenType == rule;
    assert VisibleChildren(t, i, n + 1) ==
      VisibleChildren(s.tokens, i, n) + (if i == s.current && !rule.skipToken then [n] else []);
    assert s.tokens[i].children == VisibleChildren(s.tokens, i, n);
  }

  /** The children lists stay exactly the visible children after a new token. */
  lemma EmitKeepsChildren(s: State, rule: Rule, len: nat)
    requires TreeShape(s.tokens) && s.current < |s.tokens| && len <= |s.remaining|
    requires ChildrenExact(s.tokens)
    ensures ChildrenExact(Emit(s, rule, len).tokens)
  {
    EmitEffect(s, rule, len);
    var t := Emit(s, rule, len).tokens;
    var n := |s.tokens|;
    forall i | 0 <= i < n + 1
      ensures t[i].children == VisibleChildren(t, i, n + 1)
    {
      if i < n {
        EmitKeepsChildrenAt(s, rule, len, i);
      }
    }
  }

  /** One iteration keeps text conservation, ancestor accumulation and the children lists exact. */
  lemma StepKeepsInvariant(g: Registry, m: PatternMatch, query: string, s: State)
    requires Invariant(g, query, s)
    ensures Step(g, m, s).Ok? ==> Invariant(g, query, Step(g, m, s).value)
  {
    var h := FirstMatch(m, s.lexer, g[s.lexer], s.remaining);
    if h.Hit? {
      EmitConserves(query, s, h.rule, h.len);
      EmitAccumulates(s, h.rule, h.len);
      EmitKeepsChildren(s, h.rule, h.len);
    }
  }

  /** The whole loop keeps the invariant; a successful run ends with the input used up. */
  lemma RunKeepsInvariant(g: Registry, m: PatternMatch, query: string, s: State, fuel: nat)
    requires Invariant(g, query, s)
    ensures Run(g, m, s, fuel).Ok? ==> Invariant(g, query, Run(g, m, s, fuel).value)
  {
    var P := (x: State) => Invariant(g, query, x);
    forall x | StateOk(g, x) && P(x) && Step(g, m, x).Ok? ensures P(Step(g, m, x).value) {
      StepKeepsInvariant(g, m, query, x);
    }
    RunInduction(g, m, P, s, fuel);
  }

  /**
   * A successful parse returns the root, whose text is the whole query; every
   * token's text is its captured text followed by all its descendants' (skipped
   * ones included), and every children list holds exactly the visible children.
   */
  lemma ParseSound(g: Registry, m: PatternMatch, query: string, typename: string, fuel: nat)
    ensures ParseWith(g, m, query, typename, fuel).Ok? ==>
      var tokens := ParseWith(g, m, query, typename, fuel).value;
      && TreeShape(tokens)
      && tokens[0].tokenType == RootRule
      && tokens[0].text == query
      && Accumulated(tokens)
      && ChildrenExact(tokens)
  {
    var start := Start(g, query, typename);
    if start.Ok? {
      RunKeepsInvariant(g, m, query, start.value, fuel);
      if Run(g, m, start.value, fuel).Ok? {
        RunKeepsRoot(g, m, start.value, fuel);
      }
    }
  }

  /** The loop never replaces the root token's rule. */
  lemma RunKeepsRoot(g: Registry, m: PatternMatch, s: State, fuel: nat)
    requires StateOk(g, s)
    ensures Run(g, m, s, fuel).Ok? ==> Run(g, m, s, fuel).value.tokens[0].tokenType == s.tokens[0].tokenType
  {
    RunExtends(g, m, s, fuel);
  }

  // ----- Transitions and failures of one iteration -----

  /** Every lexer type the rule names is compiled. */
  predicate TargetsKnown(g: Registry, rule: Rule) {
    (rule.nextLexer.Some? ==> rule.nextLexer.value in g) && (rule.subLexer.Some? ==> rule.subLexer.value in g)
  }

  /**
   * How an iteration ends. No match fails with the remaining input and the lexer
   * type of the current token; an unknown `nextlexer` or `sublexer` fails; an `end`
   * rule that pops from the root fails; every other match succeeds.
   */
  lemma StepFailures(g: Registry, m: PatternMatch, s: State)
    requires StateOk(g, s)
    ensures var h := FirstMatch(m, s.lexer, g[s.lexer], s.remaining);
      var r := Step(g, m, s);
      && (h.NoMatch? <==> r == Err(SyntaxError(s.remaining, s.tokens[s.current].lexer)))
      && (r.Err? && r.error.UnknownLexer? <==> h.Hit? && !TargetsKnown(g, h.rule))
      && (r == Err(Unbalanced) <==>
            h.Hit? && TargetsKnown(g, h.rule) && h.rule.end && h.rule.subLexer.None? && s.current == 0)
      && (r.Ok? <==> h.Hit? && TargetsKnown(g, h.rule) && !(h.rule.end && h.rule.subLexer.None? && s.current == 0))
  {
    var h := FirstMatch(m, s.lexer, g[s.lexer], s.remaining);
    if h.Hit? {
      EmitEffect(s, h.rule, h.len);
    }
  }

  /**
   * Where a successful iteration leaves the loop: `nextlexer` only switches the
   * active lexer type; `sublexer` makes the new token current with its lexer type;
   * `end` then makes the current token's parent current and resumes the lexer
   * type stored with that parent. The input and tree are those the new token left.
   */
  lemma StepTransition(g: Registry, m: PatternMatch, s: State)
    requires StateOk(g, s)
    ensures var h := FirstMatch(m, s.lexer, g[s.lexer], s.remaining);
      var r := Step(g, m, s);
      var n := |s.tokens|;
      r.Ok? ==> (h.Hit? &&
        var rule := h.rule;
        && r.value.tokens == Emit(s, rule, h.len).tokens
        && r.value.remaining == Emit(s, rule, h.len).remaining
        && (!rule.end && rule.subLexer.None? ==>
              r.value.current == s.current &&
              r.value.lexer == (if rule.nextLexer.Some? then rule.nextLexer.value else s.lexer))
        && (!rule.end && rule.subLexer.Some? ==>
              r.value.current == n && r.value.lexer == rule.subLexer.value)
        && (rule.end && rule.subLexer.None? ==>
              s.current != 0 && r.value.current == s.tokens[s.current].parent.value &&
              r.value.lexer == s.tokens[r.value.current].lexer)
        && (rule.end && rule.subLexer.Some? ==>
              r.value.current == s.current && r.value.lexer == s.tokens[s.current].lexer))
  {
    var h := FirstMatch(m, s.lexer, g[s.lexer], s.remaining);
    if h.Hit? {
      EmitEffect(s, h.rule, h.len);
    }
  }

  // ----- The new token -----

  /**
   * Consumption: a `notext` token captures nothing and leaves the input as it
   * was; any other token captures the matched prefix, which the input loses.
   */
  lemma EmitConsumes(s: State, rule: Rule, len: nat)
    requires TreeShape(s.tokens) && s.current < |s.tokens| && len <= |s.remaining|
    ensures var r := Emit(s, rule, len);
      var t := r.tokens[|s.tokens|];
      && t.matched == s.remaining[..len]
      && (rule.noText ==> t.text == "" && Captured(t) == "" && r.remaining == s.remaining)
      && (!rule.noText ==> t.text == s.remaining[..len] && Captured(t) == t.text && s.remaining == t.text + r.remaining)
  {
    EmitEffect(s, rule, len);
    assert s.remaining == s.remaining[..len] + s.remaining[len..];
  }

  /**
   * Visibility: the new token is appended to the end of the current token's
   * children exactly when its rule is not `skiptoken`; no other children list
   * changes, and the new token has none.
   */
  lemma EmitVisibility(s: State, rule: Rule, len: nat)
    requires TreeShape(s.tokens) && s.current < |s.tokens| && len <= |s.remaining|
    ensures var r := Emit(s, rule, len);
      var n := |s.tokens|;
      && r.tokens[s.current].children == s.tokens[s.current].children + (if rule.skipToken then [] else [n])
      && (forall j :: 0 <= j < n && j != s.current ==> r.tokens[j].children == s.tokens[j].children)
      && r.tokens[n].children == []
      && r.tokens[n].parent == Some(s.current)
  {
    EmitEffect(s, rule, len);
  }

  /**
   * Stored lexer type: the new token stores its `sublexer` type if it has one and
   * otherwise the type active when it was created; stored types never change.
   */
  lemma EmitStoresLexer(s: State, rule: Rule, len: nat)
    requires TreeShape(s.tokens) && s.current < |s.tokens| && len <= |s.remaining|
    ensures var r := Emit(s, rule, len);
      var n := |s.tokens|;
      && r.tokens[n].lexer == (if rule.subLexer.Some? then rule.subLexer.value else s.lexer)
      && (forall j :: 0 <= j < n ==> r.tokens[j].lexer == s.tokens[j].lexer)
  {
    EmitEffect(s, rule, len);
  }

  /** Text propagation: the captured text is appended to the current token and all its ancestors, and to no other token. */
  lemma EmitPropagates(s: State, rule: Rule, len: nat)
    requires TreeShape(s.tokens) && s.current < |s.tokens| && len <= |s.remaining|
    ensures var r := Emit(s, rule, len);
      var c := Captured(r.tokens[|s.tokens|]);
      forall j :: 0 <= j < |s.tokens| ==>
        r.tokens[j].text == s.tokens[j].text + (if j == s.current || IsAncestor(s.tokens, j, s.current) then c else "")
  {
    EmitEffect(s, rule, len);
  }

  // ----- Depth bookkeeping -----

  /** The current token's depth rises by one on `sublexer` and falls by one on `end`. */
  lemma StepDepth(g: Registry, m: PatternMatch, s: State)
    requires StateOk(g, s)
    ensures var h := FirstMatch(m, s.lexer, g[s.lexer], s.remaining);
      var r := Step(g, m, s);
      r.Ok? ==> (h.Hit? &&
        Depth(r.value.tokens, r.value.current) as int ==
          Depth(s.tokens, s.current) as int + (if h.rule.subLexer.Some? then 1 else 0) - (if h.rule.end then 1 else 0))
  {
    var h := FirstMatch(m, s.lexer, g[s.lexer], s.remaining);
    var r := Step(g, m, s);
    if h.Hit? && r.Ok? {
      StepTransition(g, m, s);
      EmitEffect(s, h.rule, h.len);
      var t := r.value.tokens;
      var n := |s.tokens|;
      assert SameSkeleton(t, s.tokens, n);
      DepthFrame(t, s.tokens, s.current);
      if h.rule.end && h.rule.subLexer.None? {
        DepthFrame(t, s.tokens, r.value.current);
      }
    }
  }

  /** The number of tokens from index `lo` on whose rule opens a context (`sublexer`). */
  function Opened(tokens: seq<Token>, lo: nat): nat
    decreases |tokens| - lo
  {
    if lo >= |tokens| then 0
    else (if tokens[lo].tokenType.subLexer.Some? then 1 else 0) + Opened(tokens, lo + 1)
  }

  /** The number of tokens from index `lo` on whose rule closes a context (`end`). */
  function Closed(tokens: seq<Token>, lo: nat): nat
    decreases |tokens| - lo
  {
    if lo >= |tokens| then 0
    else (if tokens[lo].tokenType.end then 1 else 0) + Closed(tokens, lo + 1)
  }

  /** The depth of a state's current token. */
  function CurrentDepth(s: State): nat {
    if s.current < |s.tokens| then Depth(s.tokens, s.current) else 0
  }

  /** A successful step appends exactly one token, of the matched rule, and keeps the older skeleton. */
  lemma StepExtends(g: Registry, m: PatternMatch, s: State)
    requires StateOk(g, s) && Step(g, m, s).Ok?
    ensures var h := FirstMatch(m, s.lexer, g[s.lexer], s.remaining);
      var t := Step(g, m, s).value.tokens;
      && h.Hit?
      && |t| == |s.tokens| + 1
      && SameSkeleton(t, s.tokens, |s.tokens|)
      && t[|s.tokens|].tokenType == h.rule
  {
    var h := FirstMatch(m, s.lexer, g[s.lexer], s.remaining);
    StepTransition(g, m, s);
    EmitEffect(s, h.rule, h.len);
  }

  /** A successful run only appends tokens: the skeleton of the tokens it started with is kept. */
  lemma RunExtends(g: Registry, m: PatternMatch, s: State, fuel: nat)
    requires StateOk(g, s)
    ensures var r := Run(g, m, s, fuel);
      r.Ok? ==> |s.tokens| <= |r.value.tokens| && SameSkeleton(r.value.tokens, s.tokens, |s.tokens|)
  {
    var P := (x: State) => |s.tokens| <= |x.tokens| && SameSkeleton(x.tokens, s.tokens, |s.tokens|);
    forall x | StateOk(g, x) && P(x) && Step(g, m, x).Ok? ensures P(Step(g, m, x).value) {
      StepExtends(g, m, x);
    }
    RunInduction(g, m, P, s, fuel);
  }

  /** Appending one token adds its own kind to the counts and leaves the rest as they were. */
  lemma {:induction false} CountsExtend(a: seq<Token>, b: seq<Token>, lo: nat)
    requires |a| == |b| + 1 && lo <= |b| && SameSkeleton(a, b, |b|)
    ensures Opened(a, lo) == Opened(b, lo) + (if a[|b|].tokenType.subLexer.Some? then 1 else 0)
    ensures Closed(a, lo) == Closed(b, lo) + (if a[|b|].tokenType.end then 1 else 0)
    decreases |b| - lo
  {
    if lo < |b| {
      CountsExtend(a, b, lo + 1);
    }
  }

  /** The depth of the current token is the number of `sublexer` tokens minus the number of `end` tokens. */
  predicate Balanced(s: State) {
    CurrentDepth(s) as int == Opened(s.tokens, 1) - Closed(s.tokens, 1)
  }

  /** One step keeps the depth account balanced. */
  lemma StepKeepsBalance(g: Registry, m: PatternMatch, s: State)
    requires StateOk(g, s) && Balanced(s)
    ensures Step(g, m, s).Ok? ==> Balanced(Step(g, m, s).value)
  {
    if Step(g, m, s).Ok? {
      StepExtends(g, m, s);
      StepDepth(g, m, s);
      CountsExtend(Step(g, m, s).value.tokens, s.tokens, 1);
    }
  }

  /** A run that takes a successful step continues from the step's state. */
  lemma RunUnfold(g: Registry, m: PatternMatch, s: State, fuel: nat)
    requires StateOk(g, s) && s.remaining != [] && fuel > 0 && Step(g, m, s).Ok?
    ensures Run(g, m, s, fuel) == Run(g, m, Step(g, m, s).value, fuel - 1)
  {
  }

  /** A run whose next step fails fails with that step's error. */
  lemma RunStepFails(g: Registry, m: PatternMatch, s: State, fuel: nat)
    requires StateOk(g, s) && s.remaining != [] && fuel > 0 && Step(g, m, s).Err?
    ensures Run(g, m, s, fuel) == Err(Step(g, m, s).error)
  {
  }

  /** Induction over any loop: a property that every successful iteration keeps holds when the loop ends. */
  lemma {:induction false} LoopInduction(step: StepFn, ok: State -> bool, P: State -> bool, s: State, fuel: nat)
    requires ok(s) && Closes(step, ok) && P(s)
    requires forall x :: ok(x) && P(x) && step(x).Ok? ==> P(step(x).value)
    ensures var r := Loop(step, ok, s, fuel);
      r.Ok? ==> P(r.value)
    decreases fuel
  {
    if s.remaining != [] && fuel > 0 && step(s).Ok? {
      LoopInduction(step, ok, P, step(s).value, fuel - 1);
    }
  }

  /** A failure of any loop is the failure of one of its iterations, or running out of fuel. */
  lemma {:induction false} LoopFailure(step: StepFn, ok: State -> bool, E: ParseError -> bool, s: State, fuel: nat)
    requires ok(s) && Closes(step, ok) && E(OutOfFuel)
    requires forall x :: ok(x) && step(x).Err? ==> E(step(x).error)
    ensures var r := Loop(step, ok, s, fuel);
      r.Err? ==> E(r.error)
    decreases fuel
  {
    if s.remaining != [] && fuel > 0 && step(s).Ok? {
      LoopFailure(step, ok, E, step(s).value, fuel - 1);
    }
  }

  /** Induction over the scan loop: a property of the loop variables that every successful iteration keeps holds when the loop ends. */
  lemma RunInduction(g: Registry, m: PatternMatch, P: State -> bool, s: State, fuel: nat)
    requires StateOk(g, s) && P(s)
    requires forall x :: StateOk(g, x) && P(x) && Step(g, m, x).Ok? ==> P(Step(g, m, x).value)
    ensures var r := Run(g, m, s, fuel);
      r.Ok? ==> P(r.value)
  {
    LoopInduction(StepOf(g, m), OkIn(g), P, s, fuel);
  }

  /** A failure of the scan loop is the failure of one of its iterations, or running out of fuel. */
  lemma RunFailure(g: Registry, m: PatternMatch, E: ParseError -> bool, s: State, fuel: nat)
    requires StateOk(g, s) && E(OutOfFuel)
    requires forall x :: StateOk(g, x) && Step(g, m, x).Err? ==> E(Step(g, m, x).error)
    ensures var r := Run(g, m, s, fuel);
      r.Err? ==> E(r.error)
  {
    LoopFailure(StepOf(g, m), OkIn(g), E, s, fuel);
  }

  /** The whole loop keeps the depth account balanced. */
  lemma RunKeepsBalance(g: Registry, m: PatternMatch, s: State, fuel: nat)
    requires StateOk(g, s) && Balanced(s)
    ensures Run(g, m, s, fuel).Ok? ==> Balanced(Run(g, m, s, fuel).value)
  {
    forall x | StateOk(g, x) && Balanced(x) && Step(g, m, x).Ok? ensures Balanced(Step(g, m, x).value) {
      StepKeepsBalance(g, m, x);
    }
    RunInduction(g, m, Balanced, s, fuel);
  }

  /**
   * The final depth of a successful parse is the number of `sublexer` tokens minus the
   * number of `end` tokens; in particular it is zero exactly when they balance.
   */
  lemma ParseDepth(g: Registry, m: PatternMatch, query: string, typename: string, fuel: nat)
    requires StartName(typename) in g
    ensures var r := Run(g, m, Start(g, query, typename).value, fuel);
      r.Ok? ==> Depth(r.value.tokens, r.value.current) as int == Opened(r.value.tokens, 1) - Closed(r.value.tokens, 1)
  {
    RunKeepsBalance(g, m, Start(g, query, typename).value, fuel);
  }

  // ----- Failures of the whole parse -----

  /** The loop itself never reports an unknown starting type or a build failure. */
  lemma RunErrors(g: Registry, m: PatternMatch, s: State, fuel: nat)
    requires StateOk(g, s)
    ensures var r := Run(g, m, s, fuel);
      r.Err? ==> !r.error.UnknownStart? && !r.error.BuildFailed? && !r.error.Rebuilt?
  {
    RunFailure(g, m, (e: ParseError) => !e.UnknownStart? && !e.BuildFailed? && !e.Rebuilt?, s, fuel);
  }

  /** A parse fails with an unknown starting type exactly when that type (default `selectors`) is not compiled. */
  lemma ParseUnknownStart(g: Registry, m: PatternMatch, query: string, typename: string, fuel: nat)
    ensures var r := ParseWith(g, m, query, typename, fuel);
      (r.Err? && r.error.UnknownStart?) <==> StartName(typename) !in g
    ensures StartName(typename) !in g ==> ParseWith(g, m, query, typename, fuel) == Err(UnknownStart(StartName(typename)))
  {
    var start := Start(g, query, typename);
    if start.Ok? {
      RunErrors(g, m, start.value, fuel);
    }
  }

  // ----- Well-formed grammars -----

  /** Every lexer type that a registered rule names is registered. */
  predicate RegistryClosed(g: Registry) {
    forall name, i :: name in g && 0 <= i < |g[name]| ==> TargetsKnown(g, g[name][i])
  }

  /** The registry built from a well-formed table is closed. */
  lemma WellFormedRegistryClosed(types: seq<LexerType>)
    requires WellFormed(types)
    ensures RegistryClosed(RegistryOf(types))
  {
    var g := RegistryOf(types);
    forall name, k | name in g && 0 <= k < |g[name]| ensures TargetsKnown(g, g[name][k]) {
      var i :| 0 <= i < |types| && types[i] == LexerType(name, g[name]);
      assert LexerTypeWellFormed(Names(types), types[i]);
      assert RuleWellFormed(Names(types), g[name][k]);
    }
  }

  /** With a closed registry, a step never meets an unknown lexer type. */
  lemma ClosedStepKnown(g: Registry, m: PatternMatch, s: State)
    requires RegistryClosed(g) && StateOk(g, s)
    ensures var r := Step(g, m, s);
      !(r.Err? && r.error.UnknownLexer?)
  {
    StepFailures(g, m, s);
  }

  /** With a closed registry, a run never meets an unknown lexer type. */
  lemma ClosedRunKnown(g: Registry, m: PatternMatch, s: State, fuel: nat)
    requires RegistryClosed(g) && StateOk(g, s)
    ensures var r := Run(g, m, s, fuel);
      !(r.Err? && r.error.UnknownLexer?)
  {
    forall x | StateOk(g, x) && Step(g, m, x).Err? ensures !Step(g, m, x).error.UnknownLexer? {
      ClosedStepKnown(g, m, x);
    }
    RunFailure(g, m, (e: ParseError) => !e.UnknownLexer?, s, fuel);
  }

  /** Parsing with the registry of the `lexerTypes` table never meets an unknown lexer type. */
  lemma TableParseKnown(m: PatternMatch, query: string, typename: string, fuel: nat)
    ensures var r := ParseWith(RegistryOf(LexerTypes), m, query, typename, fuel);
      !(r.Err? && r.error.UnknownLexer?)
  {
    LexerTypesWellFormed();
    WellFormedRegistryClosed(LexerTypes);
    var start := Start(RegistryOf(LexerTypes), query, typename);
    if start.Ok? {
      ClosedRunKnown(RegistryOf(LexerTypes), m, start.value, fuel);
    }
  }
}
