/** Conditional formatting of table cells: a rule compares a cell's text with the
    rule's value(s) under one of five conditions, and a cell takes the style of the
    first rule of its column that matches. Number parsing (`parseFloat`) is a
    parameter: `None` stands for `NaN`. */
module Formatting {
  import opened Common
  import opened Text

  datatype Condition = Greater | Less | Equal | Contains | Between
                     /** A condition name outside the five the switch knows. */
                     | Other(name: string)

  datatype FontWeight = Normal | Bold

  datatype Rule = Rule(
    id: string,
    columnIndex: int,
    condition: Condition,
    value: string,
    value2: Option<string>,
    backgroundColor: Option<string>,
    textColor: Option<string>,
    fontWeight: Option<FontWeight>)

  /** The CSS properties a rule can set; `None` is an absent property. */
  datatype Style = Style(backgroundColor: Option<string>, color: Option<string>, fontWeight: Option<FontWeight>)

  const EmptyStyle := Style(None, None, None)

  /** `parseFloat`, abstracted: `None` is `NaN`. */
  type Parser = string -> Option<real>

  function Min(a: real, b: real): real { if a <= b then a else b }
  function Max(a: real, b: real): real { if a <= b then b else a }

  /** `rule.value2 ? parseFloat(rule.value2) : 0`: an absent or empty second value is zero. */
  function SecondValue(parse: Parser, rule: Rule): Option<real> {
    if rule.value2.Some? && rule.value2.value != "" then parse(rule.value2.value) else Some(0.0)
  }

  /** `evaluateConditionalRule(rule, cellValue)`. */
  predicate Evaluate(parse: Parser, rule: Rule, cell: string) {
    var n, v, v2 := parse(cell), parse(rule.value), SecondValue(parse, rule);
    match rule.condition
    case Greater => n.Some? && v.Some? && n.value > v.value
    case Less => n.Some? && v.Some? && n.value < v.value
    case Equal =>
      if n.Some? && v.Some? then n.value == v.value
      else ToLower(cell) == ToLower(rule.value)
    case Contains => Text.Contains(ToLower(cell), ToLower(rule.value))
    case Between =>
      n.Some? && v.Some? && v2.Some?
      && Min(v.value, v2.value) <= n.value && n.value <= Max(v.value, v2.value)
    case Other(_) => false
  }

  /** `greater` and `less` hold only when both sides parse, and are then strict comparisons. */
  lemma OrderNeedsNumbers(parse: Parser, rule: Rule, cell: string)
    requires rule.condition == Greater || rule.condition == Less
    ensures Evaluate(parse, rule, cell) <==>
      parse(cell).Some? && parse(rule.value).Some?
      && (if rule.condition == Greater then parse(cell).value > parse(rule.value).value
          else parse(cell).value < parse(rule.value).value)
  {
  }

  /** `equal` compares numbers when both parse and otherwise compares the lower-cased text. */
  lemma EqualFallsBackToText(parse: Parser, rule: Rule, cell: string)
    requires rule.condition == Equal
    ensures parse(cell).Some? && parse(rule.value).Some? ==>
      (Evaluate(parse, rule, cell) <==> parse(cell).value == parse(rule.value).value)
    ensures !(parse(cell).Some? && parse(rule.value).Some?) ==>
      (Evaluate(parse, rule, cell) <==> ToLower(cell) == ToLower(rule.value))
  {
  }

  /** Text equality under `equal` ignores ASCII case: a cell equal to the value up to case
      matches whenever the numeric comparison does not apply. */
  lemma EqualIgnoresCase(parse: Parser, rule: Rule, cell: string)
    requires rule.condition == Equal
    requires !(parse(cell).Some? && parse(rule.value).Some?)
    requires ToLower(cell) == ToLower(rule.value)
    ensures Evaluate(parse, rule, cell)
  {
  }

  /** `contains` never parses: its verdict is the same under every parser. */
  lemma ContainsIgnoresParsing(p1: Parser, p2: Parser, rule: Rule, cell: string)
    requires rule.condition == Contains
    ensures Evaluate(p1, rule, cell) == Evaluate(p2, rule, cell)
    ensures Evaluate(p1, rule, cell) <==> Text.Contains(ToLower(cell), ToLower(rule.value))
  {
  }

  /** A cell that holds the rule's value as a contiguous piece (after lower-casing) matches
      `contains`. */
  lemma ContainsInfix(parse: Parser, rule: Rule, before: string, after: string)
    requires rule.condition == Contains
    ensures Evaluate(parse, rule, before + rule.value + after)
  {
    var cell := before + rule.value + after;
    var lc, lv := ToLower(cell), ToLower(rule.value);
    assert lc[|before|..|before| + |lv|] == lv;
    assert OccursAt(lc, lv, |before|);
  }

  /** `between` is inclusive at both ends. */
  lemma BetweenInclusive(parse: Parser, rule: Rule, cell: string)
    requires rule.condition == Between
    requires parse(rule.value).Some? && SecondValue(parse, rule).Some?
    requires parse(cell) == parse(rule.value) || parse(cell) == SecondValue(parse, rule)
    ensures Evaluate(parse, rule, cell)
  {
  }

  /** `between` does not care which bound is given first. */
  lemma BetweenSymmetric(parse: Parser, rule: Rule, cell: string)
    requires rule.condition == Between
    requires rule.value != "" && rule.value2.Some? && rule.value2.value != ""
    ensures Evaluate(parse, rule, cell)
        == Evaluate(parse, rule.(value := rule.value2.value, value2 := Some(rule.value)), cell)
  {
  }

  /** A missing second value makes `between` the range from zero to the first value. */
  lemma BetweenMissingSecondIsZero(parse: Parser, rule: Rule, cell: string)
    requires rule.condition == Between && rule.value2.None?
    ensures Evaluate(parse, rule, cell) <==>
      parse(cell).Some? && parse(rule.value).Some?
      && Min(parse(rule.value).value, 0.0) <= parse(cell).value <= Max(parse(rule.value).value, 0.0)
  {
  }

  /** A condition the switch does not know never matches. */
  lemma UnknownConditionNeverMatches(parse: Parser, rule: Rule, cell: string)
    requires rule.condition.Other?
    ensures !Evaluate(parse, rule, cell)
  {
  }

  /** Whether `rule` styles the cell at column `column` holding `cell`. */
  predicate Applies(parse: Parser, rule: Rule, cell: string, column: int) {
    rule.columnIndex == column && Evaluate(parse, rule, cell)
  }

  /** A string-valued style property is copied only when it is truthy (present and non-empty). */
  predicate Truthy(s: Option<string>) {
    s.Some? && s.value != ""
  }

  /** The style a matching rule contributes: only the properties it defines. */
  function RuleStyle(rule: Rule): (st: Style)
    ensures st.backgroundColor.Some? <==> Truthy(rule.backgroundColor)
    ensures st.color.Some? <==> Truthy(rule.textColor)
    ensures st.fontWeight == rule.fontWeight
    ensures st.backgroundColor.Some? ==> st.backgroundColor == rule.backgroundColor
    ensures st.color.Some? ==> st.color == rule.textColor
  {
    Style(if Truthy(rule.backgroundColor) then rule.backgroundColor else None,
          if Truthy(rule.textColor) then rule.textColor else None,
          rule.fontWeight)
  }

  /** `getCellStyleFromRules(rules, cellValue, columnIndex)`: the first rule of the column that
      matches sets the properties it defines; later matches are ignored, and with no match the
      style is empty. */
  method GetCellStyle(parse: Parser, rules: seq<Rule>, cell: string, column: int) returns (style: Style)
    ensures (forall k :: 0 <= k < |rules| ==> !Applies(parse, rules[k], cell, column)) ==> style == EmptyStyle
    ensures forall k :: 0 <= k < |rules| && Applies(parse, rules[k], cell, column)
                        && (forall j :: 0 <= j < k ==> !Applies(parse, rules[j], cell, column))
                        ==> style == RuleStyle(rules[k])
  {
    style := EmptyStyle;
    var i := 0;
    while i < |rules|
      invariant 0 <= i <= |rules|
      invariant forall j :: 0 <= j < i ==> !Applies(parse, rules[j], cell, column)
      invariant style == EmptyStyle
    {
      var rule := rules[i];
      if rule.columnIndex == column && Evaluate(parse, rule, cell) {
        if Truthy(rule.backgroundColor) {
          style := style.(backgroundColor := rule.backgroundColor);
        }
        if Truthy(rule.textColor) {
          style := style.(color := rule.textColor);
        }
        if rule.fontWeight.Some? {
          style := style.(fontWeight := rule.fontWeight);
        }
        return;
      }
      i := i + 1;
    }
  }
}
