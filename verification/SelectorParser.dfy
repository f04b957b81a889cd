/** Reading a label selector (`params.rs` `split_top_level`, `parse_label_selector`,
    `parse_label_clause`), and what a requirement asks of an object's labels. */
module SelectorParser {
  import opened JsonValue
  import opened Text

  datatype Requirement =
    | Equals(key: string, value: string)
    | NotEquals(key: string, value: string)
    | In(key: string, values: seq<string>)
    | NotIn(key: string, values: seq<string>)
    | Exists(key: string)
    | NotExists(key: string)

  datatype Malformed = EmptyKey | Unterminated | ExtraTokens | NoSetOperator

  /** The labels of an object; a label that is not a string is as good as absent. */
  type Labels = map<string, string>

  predicate Satisfied(r: Requirement, labels: Labels) {
    match r
    case Equals(k, v) => k in labels && labels[k] == v
    case NotEquals(k, v) => !(k in labels && labels[k] == v)
    case In(k, vs) => k in labels && labels[k] in vs
    case NotIn(k, vs) => !(k in labels && labels[k] in vs)
    case Exists(k) => k in labels
    case NotExists(k) => k !in labels
  }

  ghost predicate Matches(requirements: seq<Requirement>, labels: Labels) {
    forall r | r in requirements :: Satisfied(r, labels)
  }

  // ---- clauses ---------------------------------------------------------------------

  function Depth(c: char, depth: int): int {
    if c == '(' then depth + 1 else if c == ')' then depth - 1 else depth
  }

  /** The clauses of a text, read from within a clause that so far is `current`. */
  function Clauses(s: string, depth: int, current: string): (out: seq<string>)
    ensures out != []
  {
    if s == [] then [current]
    else if s[0] == ',' && depth == 0 then [current] + Clauses(s[1..], depth, "")
    else Clauses(s[1..], Depth(s[0], depth), current + [s[0]])
  }

  method SplitTopLevel(s: string) returns (out: seq<string>)
    ensures out == Clauses(s, 0, "")
  {
    out := [];
    var depth, current := 0, "";
    assert s[0..] == s;
    for i := 0 to |s|
      invariant out + Clauses(s[i..], depth, current) == Clauses(s, 0, "")
    {
      assert s[i..][0] == s[i] && s[i..][1..] == s[i + 1..];
      if s[i] == '(' {
        depth, current := depth + 1, current + [s[i]];
      } else if s[i] == ')' {
        depth, current := depth - 1, current + [s[i]];
      } else if s[i] == ',' && depth == 0 {
        assert out + ([current] + Clauses(s[i + 1..], depth, "")) == out + [current] + Clauses(s[i + 1..], depth, "");
        out, current := out + [current], "";
      } else {
        current := current + [s[i]];
      }
    }
    out := out + [current];
  }

  function NonEmpty(parts: seq<string>): seq<string> {
    if parts == [] then []
    else (if Trim(parts[0]) == "" then [] else [Trim(parts[0])]) + NonEmpty(parts[1..])
  }

  function TrimKey(key: string): Result<string, Malformed> {
    if Trim(key) == "" then Err(EmptyKey) else Ok(Trim(key))
  }

  function SetRequirement(words: seq<string>, values: seq<string>): Result<Requirement, Malformed> {
    if words == [] then Err(EmptyKey)
    else if |words| > 2 then Err(ExtraTokens)
    else if |words| == 2 && words[1] == "in" then Ok(In(words[0], values))
    else if |words| == 2 && words[1] == "notin" then Ok(NotIn(words[0], values))
    else Err(NoSetOperator)
  }

  function ParseSet(c: string, at: nat): Result<Requirement, Malformed>
    requires at < |c|
  {
    var close := FindLast(c, ')');
    if close.None? || close.value <= at then Err(Unterminated)
    else
      SetRequirement(Words(Trim(c[..at])), NonEmpty(Split(c[at + 1..close.value], ',')))
  }

  function ParseEquality(c: string): Result<Requirement, Malformed> {
    var unequal, doubled, single := FindPair(c, '!', '='), FindPair(c, '=', '='), Find(c, '=');
    if unequal < |c| then
      var key := TrimKey(c[..unequal]);
      if key.Err? then Err(key.error) else Ok(NotEquals(key.value, Trim(c[unequal + 2..])))
    else if doubled < |c| then
      var key := TrimKey(c[..doubled]);
      if key.Err? then Err(key.error) else Ok(Equals(key.value, Trim(c[doubled + 2..])))
    else if single < |c| then
      var key := TrimKey(c[..single]);
      if key.Err? then Err(key.error) else Ok(Equals(key.value, Trim(c[single + 1..])))
    else Ok(Exists(c))
  }

  /** A non-empty clause. */
  function ParseClause(c: string): Result<Requirement, Malformed>
    requires c != ""
  {
    if c[0] == '!' then
      if Trim(c[1..]) == "" then Err(EmptyKey) else Ok(NotExists(Trim(c[1..])))
    else if Find(c, '(') < |c| then ParseSet(c, Find(c, '('))
    else ParseEquality(c)
  }

  function Joined(out: seq<Requirement>, rest: Result<seq<Requirement>, Malformed>)
    : Result<seq<Requirement>, Malformed>
  {
    if rest.Err? then rest else Ok(out + rest.value)
  }

  function ParseClauses(clauses: seq<string>): Result<seq<Requirement>, Malformed> {
    if clauses == [] then Ok([])
    else if Trim(clauses[0]) == "" then ParseClauses(clauses[1..])
    else
      var first := ParseClause(Trim(clauses[0]));
      if first.Err? then Err(first.error) else Joined([first.value], ParseClauses(clauses[1..]))
  }

  function Parse(s: string): Result<seq<Requirement>, Malformed> {
    if s == "" then Ok([]) else ParseClauses(Clauses(s, 0, ""))
  }

  lemma JoinedStep(out: seq<Requirement>, r: Requirement, rest: Result<seq<Requirement>, Malformed>)
    ensures Joined(out, Joined([r], rest)) == Joined(out + [r], rest)
    ensures Joined([], rest) == rest
  {
    if rest.Ok? {
      assert out + ([r] + rest.value) == out + [r] + rest.value;
      assert [] + rest.value == rest.value;
    }
  }

  method ParseLabelSelector(s: string) returns (r: Result<seq<Requirement>, Malformed>)
    ensures r == Parse(s)
  {
    if s == "" {
      return Ok([]);
    }
    var clauses := SplitTopLevel(s);
    var out := [];
    ghost var target := ParseClauses(clauses);
    assert clauses[0..] == clauses;
    JoinedStep([], Exists(""), target);
    for i := 0 to |clauses|
      invariant Joined(out, ParseClauses(clauses[i..])) == target
    {
      assert clauses[i..][0] == clauses[i] && clauses[i..][1..] == clauses[i + 1..];
      var clause := Trim(clauses[i]);
      if clause != "" {
        var parsed := ParseClause(clause);
        if parsed.Err? {
          return Err(parsed.error);
        }
        JoinedStep(out, parsed.value, ParseClauses(clauses[i + 1..]));
        out := out + [parsed.value];
      }
    }
    assert clauses[|clauses|..] == [] && out + [] == out;
    return Ok(out);
  }
}
