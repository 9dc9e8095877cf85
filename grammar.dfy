/**
 * The grammar table of queryparser.js: named lexer types, each an ordered
 * list of rules. Only the rule names and their transition flags are kept;
 * the patterns live behind the matcher (module Moo).
 */
module Grammar {
  import opened Base

  /** One rule of a lexer type, with the flags the scan loop reads. */
  datatype Rule = Rule(
    name: string,
    skipToken: bool,           // `skiptoken`: the token is not appended to its parent's children
    noText: bool,              // `notext`: the match is neither captured nor consumed
    subLexer: Option<string>,  // `sublexer`: descend into this lexer type
    nextLexer: Option<string>, // `nextlexer`: switch to this lexer type in place
    end: bool)                 // `end`: pop back to the parent token and its lexer type

  /** A named lexer type: one key of the table and its rules in declaration order. */
  datatype LexerType = LexerType(name: string, rules: seq<Rule>)

  /** Compiled lexers by name (the `lexers` object of a Query). */
  type Registry = map<string, seq<Rule>>

  /** A rule with no flags set. */
  function Plain(name: string): Rule {
    Rule(name, false, false, None, None, false)
  }

  /** The names of a table, in declaration order. */
  function Names(types: seq<LexerType>): (names: seq<string>)
    ensures |names| == |types|
    ensures forall i :: 0 <= i < |types| ==> names[i] == types[i].name
  {
    if types == [] then [] else Names(types[..|types| - 1]) + [types[|types| - 1].name]
  }

  /**
   * The registry a complete build leaves behind: each key mapped to its rules,
   * filled in table order (a later key with the same name would overwrite).
   */
  function RegistryOf(types: seq<LexerType>): (reg: Registry)
    ensures forall name :: name in reg <==> name in Names(types)
    ensures forall name :: name in reg ==> exists i :: 0 <= i < |types| && types[i] == LexerType(name, reg[name])
  {
    if types == [] then map[]
    else
      var last := types[|types| - 1];
      assert forall i :: 0 <= i < |types| - 1 ==> types[..|types| - 1][i] == types[i];
      RegistryOf(types[..|types| - 1])[last.name := last.rules]
  }

  /** With distinct keys, the registry maps every key to exactly that lexer type's rules. */
  lemma {:induction false} RegistryLookup(types: seq<LexerType>, i: nat)
    requires Distinct(Names(types)) && i < |types|
    ensures RegistryOf(types)[types[i].name] == types[i].rules
  {
    var k := |types| - 1;
    if i < k {
      var prefix := types[..k];
      forall a, b | 0 <= a < b < |prefix| ensures Names(prefix)[a] != Names(prefix)[b] {
        assert prefix[a] == types[a] && prefix[b] == types[b];
        assert Names(types)[a] != Names(types)[b];
      }
      RegistryLookup(prefix, i);
      assert Names(types)[i] != Names(types)[k];
    }
  }

  predicate Distinct(names: seq<string>) {
    forall i, j :: 0 <= i < j < |names| ==> names[i] != names[j]
  }

  /** A rule transitions the grammar in one way only: never both `sublexer` and `nextlexer`. */
  predicate SingleTransition(r: Rule) {
    !(r.subLexer.Some? && r.nextLexer.Some?)
  }

  /** Every lexer type a rule names is a key of the table. */
  predicate TargetsDeclared(names: seq<string>, r: Rule) {
    (r.subLexer.Some? ==> r.subLexer.value in names) &&
    (r.nextLexer.Some? ==> r.nextLexer.value in names)
  }

  /** A `notext` rule is a dispatcher: it descends or pops, so the text it peeks is re-read elsewhere. */
  predicate NoTextDispatches(r: Rule) {
    r.noText ==> r.subLexer.Some? || r.end
  }

  /**
   * The keys `buildLexers` writes into every lexer type it compiles, after naming
   * its rules: a rule of one of these names is overwritten, so the scan loop
   * would read none of its flags.
   */
  const OverwrittenKeys: set<string> := {"name", "lexer", "toString", "inspect"}

  /** A rule keeps its flags after the build: its name is not one of `OverwrittenKeys`. */
  predicate KeepsOwnKey(r: Rule) {
    r.name !in OverwrittenKeys
  }

  predicate RuleWellFormed(names: seq<string>, r: Rule) {
    SingleTransition(r) && TargetsDeclared(names, r) && NoTextDispatches(r) && KeepsOwnKey(r)
  }

  /** Rule names are distinct (they are keys of the lexer type's object) and every rule is well formed. */
  predicate LexerTypeWellFormed(names: seq<string>, t: LexerType) {
    Distinct(seq(|t.rules|, j requires 0 <= j < |t.rules| => t.rules[j].name)) &&
    forall j :: 0 <= j < |t.rules| ==> RuleWellFormed(names, t.rules[j])
  }

  /** Keys are distinct (they are keys of a JavaScript object) and every rule is well formed. */
  predicate WellFormed(types: seq<LexerType>) {
    Distinct(Names(types)) &&
    forall i :: 0 <= i < |types| ==> LexerTypeWellFormed(Names(types), types[i])
  }

  /** The `lexerTypes` table, in declaration order, without its patterns. */
  const LexerTypes: seq<LexerType> := [
    SelectorsType,
    SelectorType,
    SelectorElementType,
    PathType,
    IdType,
    HasType,
    NotType,
    AttributeType,
    AttributeOperatorType,
    AttributeValueType,
    AttributeEndType,
    ValueOperatorType,
    ValueValueType]

  const SelectorsType: LexerType := LexerType("selectors", [
    Plain("space").(skipToken := true),
    Plain("selector").(subLexer := Some("selector"), noText := true)])

  const SelectorType: LexerType := LexerType("selector", [
    Plain("space").(skipToken := true),
    Plain("end").(end := true),
    Plain("selector_element").(subLexer := Some("selector_element"), noText := true)])

  const SelectorElementType: LexerType := LexerType("selector_element", [
    Plain("path").(subLexer := Some("path")),
    Plain("attribute").(subLexer := Some("attribute")),
    Plain("id").(subLexer := Some("id")),
    Plain("value").(subLexer := Some("value_operator")),
    Plain("has").(subLexer := Some("has")),
    Plain("not").(subLexer := Some("not")),
    Plain("empty"),
    Plain("parent"),
    Plain("end").(end := true, noText := true)])

  const PathType: LexerType := LexerType("path", [
    Plain("separator"),
    Plain("path_literal"),
    Plain("path_token"),
    Plain("path_end").(end := true, noText := true, skipToken := true)])

  const IdType: LexerType := LexerType("id", [
    Plain("id_name").(end := true)])

  const HasType: LexerType := LexerType("has", [
    Plain("end").(end := true, skipToken := true),
    Plain("space").(skipToken := true),
    Plain("has_element").(noText := true, subLexer := Some("selector_element"))])

  const NotType: LexerType := LexerType("not", [
    Plain("end").(end := true, skipToken := true),
    Plain("space").(skipToken := true),
    Plain("not_element").(noText := true, subLexer := Some("selector_element"))])

  const AttributeType: LexerType := LexerType("attribute", [
    Plain("space").(skipToken := true),
    Plain("attribute_name").(nextLexer := Some("attribute_operator"))])

  const AttributeOperatorType: LexerType := LexerType("attribute_operator", [
    Plain("space").(skipToken := true),
    Plain("operator").(nextLexer := Some("attribute_value")),
    Plain("attribute_end").(end := true, skipToken := true)])

  const AttributeValueType: LexerType := LexerType("attribute_value", [
    Plain("null").(nextLexer := Some("attribute_end")),
    Plain("string").(nextLexer := Some("attribute_end")),
    Plain("number").(nextLexer := Some("attribute_end")),
    Plain("bool").(nextLexer := Some("attribute_end"))])

  const AttributeEndType: LexerType := LexerType("attribute_end", [
    Plain("attribute_end").(end := true, skipToken := true)])

  const ValueOperatorType: LexerType := LexerType("value_operator", [
    Plain("operator").(nextLexer := Some("value_value")),
    Plain("value_end").(noText := true, end := true, skipToken := true)])

  const ValueValueType: LexerType := LexerType("value_value", [
    Plain("null").(nextLexer := Some("attribute_end")),
    Plain("string").(end := true),
    Plain("number").(end := true),
    Plain("bool").(end := true)])

  /** The keys of `lexerTypes`, in declaration order. */
  const LexerTypeNames: seq<string> := [
    "selectors", "selector", "selector_element", "path", "id", "has", "not", "attribute",
    "attribute_operator", "attribute_value", "attribute_end", "value_operator", "value_value"]

  /** The table's keys are `LexerTypeNames`. */
  lemma LexerTypeNamesAre()
    ensures Names(LexerTypes) == LexerTypeNames
  {
  }

  lemma KeysDistinct()
    ensures Distinct(LexerTypeNames)
  {
  }

  /** The keys of the table are distinct. */
  lemma LexerTypeNamesDistinct()
    ensures Names(LexerTypes) == LexerTypeNames && Distinct(LexerTypeNames)
  {
    LexerTypeNamesAre();
    KeysDistinct();
  }

  lemma SelectorsWellFormed()
    ensures LexerTypeWellFormed(LexerTypeNames, SelectorsType)
  {
  }

  lemma SelectorWellFormed()
    ensures LexerTypeWellFormed(LexerTypeNames, SelectorType)
  {
  }

  lemma SelectorElementRuleNamesDistinct()
    ensures var rules := SelectorElementType.rules;
      Distinct(seq(|rules|, j requires 0 <= j < |rules| => rules[j].name))
  {
  }

  lemma SelectorElementRulesWellFormed()
    ensures forall j :: 0 <= j < |SelectorElementType.rules| ==> RuleWellFormed(LexerTypeNames, SelectorElementType.rules[j])
  {
  }

  lemma SelectorElementWellFormed()
    ensures LexerTypeWellFormed(LexerTypeNames, SelectorElementType)
  {
    SelectorElementRuleNamesDistinct();
    SelectorElementRulesWellFormed();
  }

  lemma PathWellFormed()
    ensures LexerTypeWellFormed(LexerTypeNames, PathType)
  {
  }

  lemma IdWellFormed()
    ensures LexerTypeWellFormed(LexerTypeNames, IdType)
  {
  }

  lemma HasWellFormed()
    ensures LexerTypeWellFormed(LexerTypeNames, HasType)
  {
  }

  lemma NotWellFormed()
    ensures LexerTypeWellFormed(LexerTypeNames, NotType)
  {
  }

  lemma AttributeWellFormed()
    ensures LexerTypeWellFormed(LexerTypeNames, AttributeType)
  {
  }

  lemma AttributeOperatorWellFormed()
    ensures LexerTypeWellFormed(LexerTypeNames, AttributeOperatorType)
  {
  }

  lemma AttributeValueWellFormed()
    ensures LexerTypeWellFormed(LexerTypeNames, AttributeValueType)
  {
  }

  lemma AttributeEndWellFormed()
    ensures LexerTypeWellFormed(LexerTypeNames, AttributeEndType)
  {
  }

  lemma ValueOperatorWellFormed()
    ensures LexerTypeWellFormed(LexerTypeNames, ValueOperatorType)
  {
  }

  lemma ValueValueWellFormed()
    ensures LexerTypeWellFormed(LexerTypeNames, ValueValueType)
  {
  }

  /** Every lexer type of the table from index `lo` to `hi` (exclusive) is well formed. */
  ghost predicate WellFormedFrom(lo: nat, hi: nat)
    requires hi <= |LexerTypes|
  {
    forall i :: lo <= i < hi ==> LexerTypeWellFormed(LexerTypeNames, LexerTypes[i])
  }

  lemma WellFormedEntry(i: nat, t: LexerType)
    requires i < |LexerTypes| && LexerTypes[i] == t && LexerTypeWellFormed(LexerTypeNames, t)
    ensures WellFormedFrom(i, i + 1)
  {
  }

  lemma WellFormedAt0()
    ensures WellFormedFrom(0, 1)
  {
    SelectorsWellFormed();
    WellFormedEntry(0, SelectorsType);
  }

  lemma WellFormedAt1()
    ensures WellFormedFrom(1, 2)
  {
    SelectorWellFormed();
    WellFormedEntry(1, SelectorType);
  }

  lemma WellFormedAt2()
    ensures WellFormedFrom(2, 3)
  {
    SelectorElementWellFormed();
    WellFormedEntry(2, SelectorElementType);
  }

  lemma WellFormedAt3()
    ensures WellFormedFrom(3, 4)
  {
    PathWellFormed();
    WellFormedEntry(3, PathType);
  }

  lemma WellFormedAt4()
    ensures WellFormedFrom(4, 5)
  {
    IdWellFormed();
    WellFormedEntry(4, IdType);
  }

  lemma WellFormedAt5()
    ensures WellFormedFrom(5, 6)
  {
    HasWellFormed();
    WellFormedEntry(5, HasType);
  }

  lemma WellFormedAt6()
    ensures WellFormedFrom(6, 7)
  {
    NotWellFormed();
    WellFormedEntry(6, NotType);
  }

  lemma WellFormedAt7()
    ensures WellFormedFrom(7, 8)
  {
    AttributeWellFormed();
    WellFormedEntry(7, AttributeType);
  }

  lemma WellFormedAt8()
    ensures WellFormedFrom(8, 9)
  {
    AttributeOperatorWellFormed();
    WellFormedEntry(8, AttributeOperatorType);
  }

  lemma WellFormedAt9()
    ensures WellFormedFrom(9, 10)
  {
    AttributeValueWellFormed();
    WellFormedEntry(9, AttributeValueType);
  }

  lemma WellFormedAt10()
    ensures WellFormedFrom(10, 11)
  {
    AttributeEndWellFormed();
    WellFormedEntry(10, AttributeEndType);
  }

  lemma WellFormedAt11()
    ensures WellFormedFrom(11, 12)
  {
    ValueOperatorWellFormed();
    WellFormedEntry(11, ValueOperatorType);
  }

  lemma WellFormedAt12()
    ensures WellFormedFrom(12, 13)
  {
    ValueValueWellFormed();
    WellFormedEntry(12, ValueValueType);
  }

  /** The table as written satisfies the conventions the scan loop relies on. */
  lemma LexerTypesWellFormed()
    ensures WellFormed(LexerTypes)
  {
    LexerTypeNamesDistinct();
    WellFormedAt0();
    WellFormedAt1();
    WellFormedAt2();
    WellFormedAt3();
    WellFormedAt4();
    WellFormedAt5();
    WellFormedAt6();
    WellFormedAt7();
    WellFormedAt8();
    WellFormedAt9();
    WellFormedAt10();
    WellFormedAt11();
    WellFormedAt12();
  }
}
