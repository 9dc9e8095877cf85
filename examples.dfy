/**
 * Worked scans in which the input runs out while a context is still open and
 * the parse still returns the root: one over a two-type grammar whose inner
 * lexer type has no `end` rule, one over four lexer types of the table.
 * Iterations are described by two general lemmas, for a rule that only
 * descends and for a rule with no flags.
 */
module ScanExamples {
  import opened Base
  import opened Grammar
  import opened Moo
  import opened Engine
  import opened ScanProperties

  /** What the root gains from a token of `rule` matching `len` characters of `s`' input. */
  function RootGain(s: State, rule: Rule, len: nat): string
    requires len <= |s.remaining|
  {
    if rule.noText then "" else s.remaining[..len]
  }

  /**
   * A hit of a `sublexer` rule (with no other flag) descends: the new token becomes
   * current, one level deeper, with the rule's lexer type, and the root gains its capture.
   */
  lemma DescendOnHit(g: Registry, m: PatternMatch, s: State, rule: Rule, len: nat)
    requires StateOk(g, s) && FirstMatch(m, s.lexer, g[s.lexer], s.remaining) == Hit(rule, len)
    requires rule.subLexer.Some? && rule.subLexer.value in g && rule.nextLexer.None? && !rule.end
    ensures var r := Step(g, m, s);
      && r.Ok?
      && r.value.lexer == rule.subLexer.value
      && r.value.current == |s.tokens|
      && |r.value.tokens| == |s.tokens| + 1
      && r.value.remaining == (if rule.noText then s.remaining else s.remaining[len..])
      && r.value.tokens[0].text == s.tokens[0].text + RootGain(s, rule, len)
      && Depth(r.value.tokens, r.value.current) == Depth(s.tokens, s.current) + 1
  {
    StepTransition(g, m, s);
    StepDepth(g, m, s);
    EmitEffect(s, rule, len);
    if s.current != 0 {
      RootIsAncestor(s.tokens, s.current);
    }
  }

  /** A hit of a rule with no flag stays: same current token and lexer type, and the root gains the match. */
  lemma StayOnHit(g: Registry, m: PatternMatch, s: State, rule: Rule, len: nat)
    requires StateOk(g, s) && FirstMatch(m, s.lexer, g[s.lexer], s.remaining) == Hit(rule, len)
    requires rule == Plain(rule.name)
    ensures var r := Step(g, m, s);
      && r.Ok?
      && r.value.lexer == s.lexer
      && r.value.current == s.current
      && |r.value.tokens| == |s.tokens| + 1
      && r.value.remaining == s.remaining[len..]
      && r.value.tokens[0].text == s.tokens[0].text + s.remaining[..len]
      && Depth(r.value.tokens, r.value.current) == Depth(s.tokens, s.current)
  {
    StepTransition(g, m, s);
    StepDepth(g, m, s);
    EmitEffect(s, rule, len);
    if s.current != 0 {
      RootIsAncestor(s.tokens, s.current);
    }
  }

  /** A registry in which `outer` opens `inner` on `(` and `inner` only reads `x`. */
  predicate NestedEntries(g: Registry) {
    && "outer" in g && g["outer"] == [Plain("open").(subLexer := Some("inner"))]
    && "inner" in g && g["inner"] == [Plain("x")]
  }

  /** The patterns of that grammar: each rule matches its one character. */
  function NestedPattern(lexer: string, rule: string, s: string): (r: Option<nat>)
    ensures r.Some? ==> r.value <= |s|
  {
    if |s| > 0 && ((rule == "open" && s[0] == '(') || (rule == "x" && s[0] == 'x')) then Some(1) else None
  }

  /**
   * Parsing `(x` opens the inner context and never closes it; the loop ends when
   * the input is used up and returns the root, whose text is the whole query,
   * with the current token still one level below it.
   */
  lemma UnclosedContextReturnsRoot(g: Registry)
    requires NestedEntries(g)
    ensures var s := Start(g, "(x", "outer").value;
      var r := Run(g, NestedPattern, s, 5);
      && r.Ok?
      && r.value.tokens[0].text == "(x"
      && |r.value.tokens| == 3
      && Depth(r.value.tokens, r.value.current) == 1
      && ParseWith(g, NestedPattern, "(x", "outer", 5) == Ok(r.value.tokens)
  {
    var s0 := Start(g, "(x", "outer").value;
    assert s0 == State("(x", "outer", 0, [Root("outer")]);
    OuterOpens(g, s0);
  }

  /** `outer` selects `open` on `(x`. */
  lemma OpenHit()
    ensures FirstMatch(NestedPattern, "outer", [Plain("open").(subLexer := Some("inner"))], "(x") ==
      Hit(Plain("open").(subLexer := Some("inner")), 1)
  {
  }

  /** `inner` selects `x` on `x`. */
  lemma XHit()
    ensures FirstMatch(NestedPattern, "inner", [Plain("x")], "x") == Hit(Plain("x"), 1)
  {
  }

  /** In `outer` on `(x`, the first iteration opens `inner`, which then reads `x`. */
  lemma OuterOpens(g: Registry, s: State)
    requires NestedEntries(g) && StateOk(g, s) && s.lexer == "outer" && s.remaining == "(x"
    ensures var r := Run(g, NestedPattern, s, 5);
      && r.Ok?
      && r.value.tokens[0].text == s.tokens[0].text + "(" + "x"
      && |r.value.tokens| == |s.tokens| + 2
      && Depth(r.value.tokens, r.value.current) == Depth(s.tokens, s.current) + 1
  {
    var open := Plain("open").(subLexer := Some("inner"));
    var step := Step(g, NestedPattern, s);
    assert step.Ok? && step.value.lexer == "inner" && step.value.remaining == "x" &&
      |step.value.tokens| == |s.tokens| + 1 && step.value.tokens[0].text == s.tokens[0].text + "(" &&
      Depth(step.value.tokens, step.value.current) == Depth(s.tokens, s.current) + 1 by {
      OpenHit();
      DescendOnHit(g, NestedPattern, s, open, 1);
    }
    RunUnfold(g, NestedPattern, s, 5);
    InnerReadsX(g, step.value);
  }

  /** In `inner` on `x`, one iteration consumes it and the loop ends where it is. */
  lemma InnerReadsX(g: Registry, s: State)
    requires NestedEntries(g) && StateOk(g, s) && s.lexer == "inner" && s.remaining == "x"
    ensures var r := Run(g, NestedPattern, s, 4);
      && r.Ok?
      && r.value.tokens[0].text == s.tokens[0].text + "x"
      && |r.value.tokens| == |s.tokens| + 1
      && Depth(r.value.tokens, r.value.current) == Depth(s.tokens, s.current)
  {
    var step := Step(g, NestedPattern, s);
    assert step.Ok? && step.value.remaining == [] &&
      |step.value.tokens| == |s.tokens| + 1 && step.value.tokens[0].text == s.tokens[0].text + "x" &&
      Depth(step.value.tokens, step.value.current) == Depth(s.tokens, s.current) by {
      XHit();
      StayOnHit(g, NestedPattern, s, Plain("x"), 1);
    }
    RunUnfold(g, NestedPattern, s, 4);
    assert Run(g, NestedPattern, step.value, 3) == Ok(step.value);
  }

  /**
   * The patterns of the `lexerTypes` table on the one-character query `@`: the
   * catch-all rules `selector` and `selector_element` and the `path` rule match it.
   */
  function AtPattern(lexer: string, rule: string, s: string): (r: Option<nat>)
    ensures r.Some? ==> r.value <= |s|
  {
    if |s| > 0 && s[0] == '@' && (rule == "selector" || rule == "selector_element" || rule == "path") then Some(1)
    else None
  }

  /** The four entries of the table's registry (see `TableEntry`) that the query `@` visits. */
  predicate PathEntries(g: Registry) {
    && "selectors" in g && g["selectors"] == SelectorsType.rules
    && "selector" in g && g["selector"] == SelectorType.rules
    && "selector_element" in g && g["selector_element"] == SelectorElementType.rules
    && "path" in g && g["path"] == PathType.rules
  }

  /** The registry built from the table maps the name of its `i`-th lexer type to that type's rules. */
  lemma TableEntry(i: nat)
    requires i < |LexerTypes|
    ensures LexerTypes[i].name in RegistryOf(LexerTypes)
    ensures RegistryOf(LexerTypes)[LexerTypes[i].name] == LexerTypes[i].rules
  {
    LexerTypeNamesDistinct();
    RegistryLookup(LexerTypes, i);
  }

  /** The table's registry holds the four entries the query `@` visits. */
  lemma TablePathEntries()
    ensures PathEntries(RegistryOf(LexerTypes))
  {
    TableSelectorsEntry();
    TableSelectorEntry();
    TableSelectorElementEntry();
    TablePathEntry();
  }

  lemma TableSelectorsEntry()
    ensures "selectors" in RegistryOf(LexerTypes) && RegistryOf(LexerTypes)["selectors"] == SelectorsType.rules
  {
    TableEntry(0);
  }

  lemma TableSelectorEntry()
    ensures "selector" in RegistryOf(LexerTypes) && RegistryOf(LexerTypes)["selector"] == SelectorType.rules
  {
    TableEntry(1);
  }

  lemma TableSelectorElementEntry()
    ensures "selector_element" in RegistryOf(LexerTypes) && RegistryOf(LexerTypes)["selector_element"] == SelectorElementType.rules
  {
    TableEntry(2);
  }

  lemma TablePathEntry()
    ensures "path" in RegistryOf(LexerTypes) && RegistryOf(LexerTypes)["path"] == PathType.rules
  {
    TableEntry(3);
  }

  /** Scanning `@` with the table's registry creates four tokens, ends three levels deep, and the root text is `@`. */
  lemma TablePathQueryEndsNested()
    ensures "selectors" in RegistryOf(LexerTypes)
    ensures var g := RegistryOf(LexerTypes);
      var r := Run(g, AtPattern, Start(g, "@", "").value, 5);
      && r.Ok?
      && r.value.tokens[0].text == "@"
      && |r.value.tokens| == 4
      && Depth(r.value.tokens, r.value.current) == 3
  {
    TablePathEntries();
    PathQueryEndsNested(RegistryOf(LexerTypes));
  }

  /**
   * With those entries, `@` descends through `selector` and `selector_element`
   * (both `notext`, so nothing is consumed) into `path`, which consumes it. The
   * input is then used up three levels deep, and the root is returned with the text `@`.
   */
  lemma PathQueryEndsNested(g: Registry)
    requires PathEntries(g)
    ensures var r := Run(g, AtPattern, Start(g, "@", "").value, 5);
      && r.Ok?
      && r.value.tokens[0].text == "@"
      && |r.value.tokens| == 4
      && Depth(r.value.tokens, r.value.current) == 3
  {
    var s0 := Start(g, "@", "").value;
    assert s0 == State("@", "selectors", 0, [Root("selectors")]);
    FromSelectors(g, s0);
  }

  /** On `@`, `selectors` selects its `selector` rule, after `space` fails. */
  lemma SelectorsHit()
    ensures FirstMatch(AtPattern, "selectors", SelectorsType.rules, "@") == Hit(SelectorsType.rules[1], 1)
  {
  }

  /** On `@`, `selector` selects its `selector_element` rule, after `space` and `end` fail. */
  lemma SelectorHit()
    ensures FirstMatch(AtPattern, "selector", SelectorType.rules, "@") == Hit(SelectorType.rules[2], 1)
  {
  }

  /** On `@`, `selector_element` selects its `path` rule, listed first. */
  lemma SelectorElementHit()
    ensures FirstMatch(AtPattern, "selector_element", SelectorElementType.rules, "@") == Hit(SelectorElementType.rules[0], 1)
  {
  }

  /** From `selectors` on `@`: three descents, the last consuming `@`. */
  lemma FromSelectors(g: Registry, s: State)
    requires PathEntries(g) && StateOk(g, s) && s.lexer == "selectors" && s.remaining == "@"
    ensures var r := Run(g, AtPattern, s, 5);
      && r.Ok?
      && r.value.tokens[0].text == s.tokens[0].text + "@"
      && |r.value.tokens| == |s.tokens| + 3
      && Depth(r.value.tokens, r.value.current) == Depth(s.tokens, s.current) + 3
  {
    var step := Step(g, AtPattern, s);
    assert step.Ok? && step.value.lexer == "selector" && step.value.remaining == "@" &&
      |step.value.tokens| == |s.tokens| + 1 && step.value.tokens[0].text == s.tokens[0].text &&
      Depth(step.value.tokens, step.value.current) == Depth(s.tokens, s.current) + 1 by {
      SelectorsHit();
      DescendOnHit(g, AtPattern, s, SelectorsType.rules[1], 1);
    }
    RunUnfold(g, AtPattern, s, 5);
    FromSelector(g, step.value);
  }

  /** From `selector` on `@`: two descents, the last consuming `@`. */
  lemma FromSelector(g: Registry, s: State)
    requires PathEntries(g) && StateOk(g, s) && s.lexer == "selector" && s.remaining == "@"
    ensures var r := Run(g, AtPattern, s, 4);
      && r.Ok?
      && r.value.tokens[0].text == s.tokens[0].text + "@"
      && |r.value.tokens| == |s.tokens| + 2
      && Depth(r.value.tokens, r.value.current) == Depth(s.tokens, s.current) + 2
  {
    var step := Step(g, AtPattern, s);
    assert step.Ok? && step.value.lexer == "selector_element" && step.value.remaining == "@" &&
      |step.value.tokens| == |s.tokens| + 1 && step.value.tokens[0].text == s.tokens[0].text &&
      Depth(step.value.tokens, step.value.current) == Depth(s.tokens, s.current) + 1 by {
      SelectorHit();
      DescendOnHit(g, AtPattern, s, SelectorType.rules[2], 1);
    }
    RunUnfold(g, AtPattern, s, 4);
    FromSelectorElement(g, step.value);
  }

  /** From `selector_element` on `@`: the `path` rule descends and consumes `@`, ending the input. */
  lemma FromSelectorElement(g: Registry, s: State)
    requires PathEntries(g) && StateOk(g, s) && s.lexer == "selector_element" && s.remaining == "@"
    ensures var r := Run(g, AtPattern, s, 3);
      && r.Ok?
      && r.value.tokens[0].text == s.tokens[0].text + "@"
      && |r.value.tokens| == |s.tokens| + 1
      && Depth(r.value.tokens, r.value.current) == Depth(s.tokens, s.current) + 1
  {
    var step := Step(g, AtPattern, s);
    assert step.Ok? && step.value.remaining == [] &&
      |step.value.tokens| == |s.tokens| + 1 && step.value.tokens[0].text == s.tokens[0].text + "@" &&
      Depth(step.value.tokens, step.value.current) == Depth(s.tokens, s.current) + 1 by {
      SelectorElementHit();
      DescendOnHit(g, AtPattern, s, SelectorElementType.rules[0], 1);
    }
    RunUnfold(g, AtPattern, s, 3);
    assert Run(g, AtPattern, step.value, 2) == Ok(step.value);
  }
}
