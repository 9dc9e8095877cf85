/**
 * The `Query` object of queryparser.js: it holds the table of lexer types,
 * compiles it once into the registry of lexers (`buildLexers`) and runs the
 * scan loop over a query (`parse`). The methods update the object's fields
 * and the loop variables in place; their results are proved equal to the
 * functions of the Engine module, about which the ScanProperties module
 * proves what the parser promises.
 */
module QueryParser {
  import opened Base
  import opened Grammar
  import opened Moo
  import opened Engine
  import opened ScanProperties

  /** `moo.compile` on one lexer type: `None` when it compiles, `Some(cause)` when it throws. */
  type Compiler = LexerType -> Option<string>

  /** The index of the first lexer type of the table that does not compile, if any. */
  function FirstFailure(types: seq<LexerType>, compile: Compiler): (r: Option<nat>)
    ensures r.Some? ==> r.value < |types| && compile(types[r.value]).Some?
    ensures r.Some? ==> forall k :: 0 <= k < r.value ==> compile(types[k]).None?
    ensures r.None? <==> forall k :: 0 <= k < |types| ==> compile(types[k]).None?
  {
    if types == [] then None
    else if compile(types[0]).Some? then Some(0)
    else
      match FirstFailure(types[1..], compile)
      case None =>
        assert forall k :: 1 <= k < |types| ==> types[k] == types[1..][k - 1];
        None
      case Some(i) =>
        assert forall k :: 1 <= k <= i + 1 ==> types[k] == types[1..][k - 1];
        Some(i + 1)
  }

  /** The first failure is the one the build meets: a failing type preceded only by types that compile. */
  lemma {:induction false} FirstFailureAt(types: seq<LexerType>, compile: Compiler, i: nat)
    requires i < |types| && compile(types[i]).Some?
    requires forall k :: 0 <= k < i ==> compile(types[k]).None?
    ensures FirstFailure(types, compile) == Some(i)
  {
    if i > 0 {
      assert forall k :: 0 <= k < i - 1 ==> types[1..][k] == types[k + 1];
      FirstFailureAt(types[1..], compile, i - 1);
    }
  }

  /** The registry of a build that stopped before type `i` is the registry of the types before it. */
  lemma RegistryOfPrefix(types: seq<LexerType>, i: nat)
    requires i < |types|
    ensures RegistryOf(types[..i + 1]) == RegistryOf(types[..i])[types[i].name := types[i].rules]
  {
    assert types[..i + 1][..i] == types[..i];
  }

  /** The text of a new token added to its parent and every further ancestor: the inner walk up `parent`. */
  method AddToAncestors(tokens: seq<Token>, from: Option<nat>, text: string) returns (r: seq<Token>)
    requires ParentsBelow(tokens) && (from.Some? ==> from.value < |tokens|)
    ensures r == Propagate(tokens, from, text)
  {
    r := tokens;
    var t := from;
    while t.Some?
      invariant |r| == |tokens| && ParentsBelow(r) && (t.Some? ==> t.value < |r|)
      invariant Propagate(r, t, text) == Propagate(tokens, from, text)
      decreases if t.Some? then t.value + 1 else 0
    {
      var i := t.value;
      var before := r;
      r := r[i := r[i].(text := r[i].text + text)];
      assert forall j :: 0 <= j < |r| ==> r[j].parent == before[j].parent;
      t := r[i].parent;
    }
  }

  /**
   * Creating the token for a match of `len` characters of `rule`: linked to the
   * current token, pushed on its children unless `skiptoken`, given its text and
   * consuming it unless `notext`, and its text added to every ancestor.
   */
  method NewToken(remaining: string, lexer: string, current: nat, tokens: seq<Token>, rule: Rule, len: nat)
    returns (remaining': string, tokens': seq<Token>)
    requires TreeShape(tokens) && current < |tokens| && len <= |remaining|
    ensures State(remaining', lexer, current, tokens') == Emit(State(remaining, lexer, current, tokens), rule, len)
  {
    var n := |tokens|;
    var matched := remaining[..len];
    var stored := if rule.subLexer.Some? then rule.subLexer.value else lexer;
    tokens' := tokens + [Token(rule, matched, "", Some(current), [], stored)];
    if !rule.skipToken {
      tokens' := tokens'[current := tokens'[current].(children := tokens'[current].children + [n])];
    }
    var text := "";
    remaining' := remaining;
    if !rule.noText {
      text := matched;
      remaining' := remaining[len..];
    }
    tokens' := tokens'[n := tokens'[n].(text := text)];
    assert forall j :: 0 <= j < n ==> tokens'[j].parent == tokens[j].parent;
    tokens' := AddToAncestors(tokens', Some(current), text);
  }

  /**
   * One iteration of the scan loop: the first listed rule of the active lexer type
   * that matches creates a token, then its `nextlexer`, `sublexer` and `end` flags
   * are applied in this order. The error is reported when nothing matches, when a
   * flag names a lexer type that is not compiled, or when `end` pops past the root.
   */
  method Iterate(g: Registry, m: PatternMatch, remaining: string, lexer: string, current: nat, tokens: seq<Token>)
    returns (err: Option<ParseError>, remaining': string, lexer': string, current': nat, tokens': seq<Token>)
    requires StateOk(g, State(remaining, lexer, current, tokens))
    ensures match Step(g, m, State(remaining, lexer, current, tokens))
      case Ok(next) => err.None? && next == State(remaining', lexer', current', tokens')
      case Err(e) => err == Some(e)
  {
    ghost var s := State(remaining, lexer, current, tokens);
    var h := FirstMatch(m, lexer, g[lexer], remaining);
    if h.NoMatch? {
      return Some(SyntaxError(remaining, tokens[current].lexer)), remaining, lexer, current, tokens;
    }
    var rule := h.rule;
    var n := |tokens|;
    remaining', tokens' := NewToken(remaining, lexer, current, tokens, rule, h.len);
    lexer', current' := lexer, current;
    if rule.nextLexer.Some? {
      if rule.nextLexer.value !in g {
        return Some(UnknownLexer(rule.nextLexer.value)), remaining', lexer', current', tokens';
      }
      lexer' := rule.nextLexer.value;
    }
    if rule.subLexer.Some? {
      if rule.subLexer.value !in g {
        return Some(UnknownLexer(rule.subLexer.value)), remaining', lexer', current', tokens';
      }
      current' := n;
      lexer' := rule.subLexer.value;
    }
    if rule.end {
      match tokens'[current'].parent
      case None =>
        return Some(Unbalanced), remaining', lexer', current', tokens';
      case Some(p) =>
        current' := p;
        lexer' := tokens'[p].lexer;
    }
    err := None;
  }

  /**
   * `parse` once the lexers are built: the starting lexer type (the empty name stands
   * for `'selectors'`) must be compiled; the root token stores it, and the loop runs
   * while input remains, for at most `fuel` iterations. The result is the whole tree.
   */
  method ScanQuery(g: Registry, m: PatternMatch, query: string, typename: string, fuel: nat)
    returns (r: Result<seq<Token>, ParseError>)
    ensures r == ParseWith(g, m, query, typename, fuel)
  {
    var name := StartName(typename);
    if name !in g {
      return Err(UnknownStart(name));
    }
    var remaining := query;
    var lexer := name;
    var current := 0;
    var tokens := [Root(name)];
    var steps := 0;
    ghost var s0 := State(remaining, lexer, current, tokens);
    assert Start(g, query, typename) == Ok(s0);
    assert StateOk(g, s0);
    ghost var outcome := Run(g, m, s0, fuel);
    while remaining != []
      invariant StateOk(g, State(remaining, lexer, current, tokens))
      invariant steps <= fuel
      invariant Run(g, m, State(remaining, lexer, current, tokens), fuel - steps) == outcome
      decreases fuel - steps
    {
      ghost var s := State(remaining, lexer, current, tokens);
      if steps == fuel {
        return Err(OutOfFuel);
      }
      var err;
      err, remaining, lexer, current, tokens := Iterate(g, m, remaining, lexer, current, tokens);
      if err.Some? {
        RunStepFails(g, m, s, fuel - steps);
        return Err(err.value);
      }
      RunUnfold(g, m, s, fuel - steps);
      steps := steps + 1;
    }
    return Ok(tokens);
  }

  class Query {
    /** The lexer types, keyed by name, in table order. */
    const lexerTypes: seq<LexerType>
    /** The compiled lexers, keyed by lexer type name; a compiled lexer applies its type's rules. */
    var lexers: Registry
    /** Whether `buildLexers` has completed. */
    var isBuilt: bool
    /**
     * How many leading lexer types of the table an earlier build has renamed in
     * place: it writes `name`, `lexer`, `toString` and `inspect` into each type it
     * compiles, and those keys are then taken for rules by any later build.
     */
    var renamed: nat

    /** The table's types are renamed in order, so only a prefix of the table can be renamed. */
    predicate Valid()
      reads this
    {
      renamed <= |lexerTypes|
    }

    constructor(types: seq<LexerType>)
      ensures lexerTypes == types && lexers == map[] && !isBuilt && renamed == 0
      ensures Valid()
    {
      lexerTypes := types;
      lexers := map[];
      isBuilt := false;
      renamed := 0;
    }

    /**
     * Compiles every lexer type in table order into `lexers`, renaming each type
     * in place once it compiles. The first type that does not compile stops the
     * build with an error naming it; the registry then holds the types before it
     * and the object is not marked built. A type renamed by an earlier build
     * cannot be compiled again, so any later build stops at the first type with
     * an empty registry, leaving `isBuilt` as it was.
     */
    method BuildLexers(compile: Compiler) returns (err: Option<ParseError>)
      requires Valid()
      modifies this
      ensures Valid()
      ensures old(renamed) > 0 ==>
        && err == Some(Rebuilt(lexerTypes[0].name))
        && lexers == map[] && isBuilt == old(isBuilt) && renamed == old(renamed)
      ensures old(renamed) == 0 ==> match FirstFailure(lexerTypes, compile)
        case None => err.None? && lexers == RegistryOf(lexerTypes) && isBuilt && renamed == |lexerTypes|
        case Some(i) =>
          && err == Some(BuildFailed(lexerTypes[i].name, compile(lexerTypes[i]).value))
          && lexers == RegistryOf(lexerTypes[..i])
          && isBuilt == old(isBuilt) && renamed == i
    {
      lexers := map[];
      var i := 0;
      while i < |lexerTypes|
        invariant 0 <= i <= |lexerTypes|
        invariant lexers == RegistryOf(lexerTypes[..i])
        invariant forall k :: 0 <= k < i ==> compile(lexerTypes[k]).None?
        invariant isBuilt == old(isBuilt)
        invariant i == 0 ==> renamed == old(renamed)
        invariant i > 0 ==> old(renamed) == 0 && renamed == i
      {
        var t := lexerTypes[i];
        if i < renamed {
          return Some(Rebuilt(t.name));
        }
        var cause := compile(t);
        if cause.Some? {
          FirstFailureAt(lexerTypes, compile, i);
          return Some(BuildFailed(t.name, cause.value));
        }
        RegistryOfPrefix(lexerTypes, i);
        lexers := lexers[t.name := t.rules];
        renamed := i + 1;
        i := i + 1;
      }
      assert lexerTypes[..i] == lexerTypes;
      isBuilt := true;
      return None;
    }

    /**
     * Parses `query` starting with lexer type `typename` (the empty name stands
     * for `'selectors'`), building the lexers first unless they are built. The
     * result is the token tree with the root at index 0, or the failure. At most
     * `fuel` iterations of the scan loop are taken.
     */
    method Parse(query: string, typename: string, compile: Compiler, m: PatternMatch, fuel: nat)
      returns (r: Result<seq<Token>, ParseError>)
      requires Valid()
      modifies this
      ensures Valid()
      ensures old(isBuilt) ==> isBuilt && lexers == old(lexers) && renamed == old(renamed)
      ensures !old(isBuilt) && old(renamed) > 0 ==>
        && r == Err(Rebuilt(lexerTypes[0].name))
        && !isBuilt && lexers == map[] && renamed == old(renamed)
      ensures !old(isBuilt) && old(renamed) == 0 ==> match FirstFailure(lexerTypes, compile)
        case None => isBuilt && lexers == RegistryOf(lexerTypes) && renamed == |lexerTypes|
        case Some(i) =>
          && r == Err(BuildFailed(lexerTypes[i].name, compile(lexerTypes[i]).value))
          && !isBuilt && lexers == RegistryOf(lexerTypes[..i]) && renamed == i
      ensures isBuilt ==> r == ParseWith(lexers, m, query, typename, fuel)
    {
      if !isBuilt {
        var err := BuildLexers(compile);
        if err.Some? {
          return Err(err.value);
        }
      }
      r := ScanQuery(lexers, m, query, typename, fuel);
    }
  }

  /**
   * Building an already built query again: the build fails on the first lexer
   * type, which the first build renamed, and empties the registry while the
   * query stays marked built. From then on every parse fails on its starting type.
   */
  method RebuildThenParse(q: Query, compile: Compiler, m: PatternMatch, query: string, typename: string, fuel: nat)
    returns (err: Option<ParseError>, r: Result<seq<Token>, ParseError>)
    requires q.Valid() && q.isBuilt && q.renamed > 0
    modifies q
    ensures err == Some(Rebuilt(q.lexerTypes[0].name))
    ensures q.isBuilt && q.lexers == map[]
    ensures r == Err(UnknownStart(StartName(typename)))
  {
    err := q.BuildLexers(compile);
    r := q.Parse(query, typename, compile, m, fuel);
    ParseUnknownStart(map[], m, query, typename, fuel);
  }
}
