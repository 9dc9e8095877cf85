/**
 * The interface the scan loop uses of the moo tokenizer. moo compiles a
 * lexer type's rules into one alternation and, after `reset(s)`, `next()`
 * returns the first listed rule whose pattern matches at the start of `s`.
 * The patterns themselves are not modelled: a PatternMatch says, for a
 * lexer type, one of its rules and an input, how long a prefix that rule's
 * pattern matches, if any.
 */
module Moo {
  import opened Base
  import opened Grammar

  /** A pattern test whose match is always a prefix of the input. */
  type PatternMatch = f: (string, string, string) -> Option<nat>
    | forall lexer, rule, s :: f(lexer, rule, s).Some? ==> f(lexer, rule, s).value <= |s|
    witness (lexer: string, rule: string, s: string) => None

  /** What `next()` returns: a rule and the length of its match, or nothing. */
  datatype Match = NoMatch | Hit(rule: Rule, len: nat)

  /** The first rule, in declaration order, whose pattern matches at the start of `s`. */
  function FirstMatch(m: PatternMatch, lexer: string, rules: seq<Rule>, s: string): (r: Match)
    ensures r.Hit? ==> r.len <= |s|
    ensures r.Hit? ==>
      exists i :: 0 <= i < |rules| && rules[i] == r.rule && m(lexer, rules[i].name, s) == Some(r.len) &&
        forall j :: 0 <= j < i ==> m(lexer, rules[j].name, s).None?
    ensures r.NoMatch? <==> forall i :: 0 <= i < |rules| ==> m(lexer, rules[i].name, s).None?
  {
    if rules == [] then NoMatch
    else match m(lexer, rules[0].name, s)
      case Some(len) => Hit(rules[0], len)
      case None =>
        var r := FirstMatch(m, lexer, rules[1..], s);
        assert forall i :: 0 < i < |rules| ==> rules[1..][i - 1] == rules[i];
        r
  }

  /**
   * Ordered alternatives: when rule `i` matches and no earlier rule does, rule `i`
   * is selected, whatever later rules would match (no longest-match).
   */
  lemma {:induction false} FirstListedWins(m: PatternMatch, lexer: string, rules: seq<Rule>, s: string, i: nat)
    requires i < |rules| && m(lexer, rules[i].name, s).Some?
    requires forall j :: 0 <= j < i ==> m(lexer, rules[j].name, s).None?
    ensures FirstMatch(m, lexer, rules, s) == Hit(rules[i], m(lexer, rules[i].name, s).value)
  {
    if i > 0 {
      assert m(lexer, rules[0].name, s).None?;
      assert forall j :: 0 <= j < i - 1 ==> rules[1..][j] == rules[j + 1];
      FirstListedWins(m, lexer, rules[1..], s, i - 1);
    }
  }
}
