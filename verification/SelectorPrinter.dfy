/** Printing a label selector for the selector column (`printer.rs` `selector_string`). */
module SelectorPrinter {
  import opened JsonValue
  import opened Text
  import opened TextOrder
  import opened SelectorParser

  /** One `matchExpressions` entry; what it lacks, or holds under another type, is None. */
  datatype Expression = Expression(key: Option<string>, operator: Option<string>, values: seq<string>)

  /** `matchLabels` in the order its keys are walked. */
  datatype LabelSelector = LabelSelector(matchLabels: seq<(string, string)>, matchExpressions: seq<Expression>)

  // ---- ordered collections ----------------------------------------------------------

  function Insert<T>(sorted: seq<(string, T)>, x: (string, T)): seq<(string, T)> {
    if sorted == [] || Less(x.0, sorted[0].0) then [x] + sorted else [sorted[0]] + Insert(sorted[1..], x)
  }

  /** The stable sort by key. */
  function SortByKey<T>(pairs: seq<(string, T)>): seq<(string, T)> {
    if pairs == [] then [] else Insert(SortByKey(pairs[..|pairs| - 1]), pairs[|pairs| - 1])
  }

  function InsertValue(sorted: seq<string>, v: string): seq<string> {
    if sorted == [] || Less(v, sorted[0]) then [v] + sorted
    else if v == sorted[0] then sorted
    else [sorted[0]] + InsertValue(sorted[1..], v)
  }

  /** The values as a `BTreeSet` walks them. */
  function AsSet(values: seq<string>): seq<string> {
    if values == [] then [] else InsertValue(AsSet(values[..|values| - 1]), values[|values| - 1])
  }

  // ---- printing ---------------------------------------------------------------------

  function SetText(key: string, op: string, values: string): string {
    key + " " + op + " " + ("(" + values + ")")
  }

  function Render(r: Requirement): string {
    match r
    case Equals(k, v) => k + "=" + v
    case NotEquals(k, v) => k + "!=" + v
    case In(k, vs) => SetText(k, "in", Join(vs, ","))
    case NotIn(k, vs) => SetText(k, "notin", Join(vs, ","))
    case Exists(k) => k
    case NotExists(k) => "!" + k
  }

  /** What an expression requires, its values made a set; none when it has no key or no
      operator it knows. */
  function Required(e: Expression): Option<Requirement> {
    if e.key.None? || e.operator.None? then None
    else if e.operator.value == "In" then Some(In(e.key.value, AsSet(e.values)))
    else if e.operator.value == "NotIn" then Some(NotIn(e.key.value, AsSet(e.values)))
    else if e.operator.value == "Exists" then Some(Exists(e.key.value))
    else if e.operator.value == "DoesNotExist" then Some(NotExists(e.key.value))
    else None
  }

  function LabelRequirements(labels: seq<(string, string)>): seq<(string, Requirement)> {
    seq(|labels|, i requires 0 <= i < |labels| => (labels[i].0, Equals(labels[i].0, labels[i].1)))
  }

  predicate Printable(es: seq<Expression>) {
    forall i | 0 <= i < |es| :: Required(es[i]).Some?
  }

  function ExpressionRequirements(es: seq<Expression>): seq<(string, Requirement)>
    requires Printable(es)
  {
    seq(|es|, i requires 0 <= i < |es| => (es[i].key.value, Required(es[i]).value))
  }

  /** What the selector requires, in the order it is printed. */
  function Requirements(s: LabelSelector): seq<(string, Requirement)>
    requires Printable(s.matchExpressions)
  {
    SortByKey(LabelRequirements(s.matchLabels) + ExpressionRequirements(s.matchExpressions))
  }

  function Rendered(pairs: seq<(string, Requirement)>): seq<(string, string)> {
    seq(|pairs|, i requires 0 <= i < |pairs| => (pairs[i].0, Render(pairs[i].1)))
  }

  function Texts<T>(pairs: seq<(string, T)>): seq<T> {
    seq(|pairs|, i requires 0 <= i < |pairs| => pairs[i].1)
  }

  function Print(selector: Option<LabelSelector>): Option<string> {
    if selector.None? then Some("")
    else if !Printable(selector.value.matchExpressions) then None
    else Some(Join(Texts(Rendered(Requirements(selector.value))), ","))
  }

  // ---- the sort does not look at what it carries ---------------------------------------

  lemma {:induction false} RenderedInsert(sorted: seq<(string, Requirement)>, x: (string, Requirement))
    ensures Rendered(Insert(sorted, x)) == Insert(Rendered(sorted), (x.0, Render(x.1)))
  {
    if sorted != [] && !Less(x.0, sorted[0].0) {
      RenderedInsert(sorted[1..], x);
      assert Rendered(sorted)[1..] == Rendered(sorted[1..]);
    }
  }

  lemma {:induction false} RenderedSort(pairs: seq<(string, Requirement)>)
    ensures Rendered(SortByKey(pairs)) == SortByKey(Rendered(pairs))
  {
    if pairs != [] {
      var n := |pairs| - 1;
      RenderedSort(pairs[..n]);
      RenderedInsert(SortByKey(pairs[..n]), pairs[n]);
      assert Rendered(pairs)[..n] == Rendered(pairs[..n]);
    }
  }

  /** One expression's key and text; none when the printer gives up on the selector. */
  method RenderExpression(e: Expression) returns (pair: Option<(string, string)>)
    ensures pair == if Required(e).None? then None else Some((e.key.value, Render(Required(e).value)))
  {
    if e.key.None? || e.operator.None? {
      return None;
    }
    var key := e.key.value;
    var values := Join(AsSet(e.values), ",");
    match e.operator.value {
      case "In" =>
        assert key + " in (" + values + ")" == SetText(key, "in", values);
        return Some((key, key + " in (" + values + ")"));
      case "NotIn" =>
        assert key + " notin (" + values + ")" == SetText(key, "notin", values);
        return Some((key, key + " notin (" + values + ")"));
      case "Exists" => return Some((key, key));
      case "DoesNotExist" => return Some((key, "!" + key));
      case _ => return None;
    }
  }

  method SelectorString(selector: Option<LabelSelector>) returns (text: Option<string>)
    ensures text == Print(selector)
  {
    if selector.None? {
      return Some("");
    }
    var labels, expressions := selector.value.matchLabels, selector.value.matchExpressions;
    var requirements: seq<(string, string)> := [];
    for i := 0 to |labels|
      invariant requirements == Rendered(LabelRequirements(labels[..i]))
    {
      var (k, v) := labels[i];
      requirements := requirements + [(k, k + "=" + v)];
    }
    ghost var given := requirements;
    assert labels[..|labels|] == labels;
    for i := 0 to |expressions|
      invariant Printable(expressions[..i])
      invariant requirements == given + Rendered(ExpressionRequirements(expressions[..i]))
    {
      var pair := RenderExpression(expressions[i]);
      if pair.None? {
        assert !Printable(expressions);
        return None;
      }
      requirements := requirements + [pair.value];
    }
    assert expressions[..|expressions|] == expressions;
    ghost var pairs := LabelRequirements(labels) + ExpressionRequirements(expressions);
    assert Rendered(pairs) == requirements;
    RenderedSort(pairs);
    return Some(Join(Texts(SortByKey(requirements)), ","));
  }
}
