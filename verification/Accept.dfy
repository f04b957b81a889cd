/** Reading and ranking an `Accept` header (`accept.rs`). A weight is a real number, read
    from its text by `read`, which may refuse it. */
module Accept {
  import opened JsonValue
  import opened Text
  import opened Ranking

  datatype Served = Json | Yaml | Protobuf

  datatype Range = Range(kind: string, subtype: string, q: real)

  type Weights = string -> Option<real>

  // ---- parsing -----------------------------------------------------------------------

  /** The text before the first separator, and what follows it, if anything does. */
  function Cut(s: string, sep: char): (r: (string, Option<string>))
    ensures r.1.Some? ==> |r.1.value| < |s|
  {
    var at := Find(s, sep);
    if at + 1 < |s| then (s[..at], Some(s[at + 1..])) else (s[..at], None)
  }

  function TrimBlanks(s: string): string {
    if s != "" && s[0] == ' ' then TrimBlanks(s[1..])
    else if s != "" && s[|s| - 1] == ' ' then TrimBlanks(s[..|s| - 1])
    else s
  }

  /** The weight after one parameter: a `q` with exactly one value sets it, to 0 when the
      value is not a number. */
  function Weigh(param: string, q: real, read: Weights): real {
    var (token, value) := Cut(param, '=');
    if value.None? || Cut(value.value, '=').1.Some? || TrimBlanks(token) != "q" then q
    else
      var weight := read(Cut(value.value, '=').0);
      if weight.Some? then weight.value else 0.0
  }

  function WeighAll(params: Option<string>, q: real, read: Weights): real
    decreases if params.Some? then |params.value| + 1 else 0
  {
    if params.None? then q
    else
      var (param, next) := Cut(params.value, ';');
      WeighAll(next, Weigh(param, q, read), read)
  }

  function Subtype(kind: string, rest: Option<string>): Option<string> {
    if rest.None? then if kind == "*" then Some("*") else None
    else
      var (subtype, third) := Cut(rest.value, '/');
      if third.Some? then None else Some(TrimBlanks(subtype))
  }

  function Parse(part: string, read: Weights): Option<Range> {
    var (media, params) := Cut(TrimBlanks(part), ';');
    var (kind, rest) := Cut(media, '/');
    var subtype := Subtype(TrimBlanks(kind), rest);
    if subtype.None? then None
    else Some(Range(TrimBlanks(kind), subtype.value, WeighAll(params, 1.0, read)))
  }

  method ParseRange(part: string, read: Weights) returns (range: Option<Range>)
    ensures range == Parse(part, read)
  {
    var (media, params) := Cut(TrimBlanks(part), ';');
    var (kind, rest) := Cut(media, '/');
    var subtype := Subtype(TrimBlanks(kind), rest);
    if subtype.None? {
      return None;
    }
    ghost var target := WeighAll(params, 1.0, read);
    var q, left := 1.0, params;
    while left.Some?
      invariant WeighAll(left, q, read) == target
      decreases if left.Some? then |left.value| + 1 else 0
    {
      var (param, next) := Cut(left.value, ';');
      left := next;
      var (token, value) := Cut(param, '=');
      if value.Some? {
        var (number, second) := Cut(value.value, '=');
        if second.None? && TrimBlanks(token) == "q" {
          var weight := read(number);
          q := if weight.Some? then weight.value else 0.0;
        }
      }
    }
    return Some(Range(TrimBlanks(kind), subtype.value, q));
  }

  function Parts(rest: Option<string>): seq<string>
    decreases if rest.Some? then |rest.value| + 1 else 0
  {
    if rest.None? then []
    else
      var (part, next) := Cut(rest.value, ',');
      [part] + Parts(next)
  }

  function Header(accept: string): Option<string> {
    if accept == "" then None else Some(accept)
  }

  function Kept(range: Option<Range>): seq<Range> {
    if range.Some? then [range.value] else []
  }

  function ParseAll(parts: seq<string>, read: Weights): seq<Range> {
    if parts == [] then []
    else Kept(Parse(parts[0], read)) + ParseAll(parts[1..], read)
  }

  function Ranges(accept: string, read: Weights): seq<Range> {
    ParseAll(Parts(Header(accept)), read)
  }

  // ---- ranking and choosing ------------------------------------------------------------

  predicate RanksBefore(a: Range, b: Range) {
    a.q > b.q || (a.kind != "*" && b.kind == "*") || (a.subtype != "*" && b.subtype == "*")
  }

  function LowerChar(c: char): char {
    if 'A' <= c <= 'Z' then c - 'A' + 'a' else c
  }

  predicate SameLetters(a: string, b: string) {
    |a| == |b| && forall i | 0 <= i < |a| :: LowerChar(a[i]) == LowerChar(b[i])
  }

  function SubtypeOf(served: Served): string {
    match served
    case Json => "json"
    case Yaml => "yaml"
    case Protobuf => "vnd.kubernetes.protobuf"
  }

  predicate Takes(range: Range, served: Served) {
    || (range.kind == "*" && range.subtype == "*")
    || (SameLetters(range.kind, "application")
       && (range.subtype == "*" || SameLetters(range.subtype, SubtypeOf(served))))
  }

  function Serialization(range: Range): Option<Served> {
    if Takes(range, Json) then Some(Json)
    else if Takes(range, Yaml) then Some(Yaml)
    else if Takes(range, Protobuf) then Some(Protobuf)
    else None
  }

  function FirstServed(ranges: seq<Range>): Option<Served> {
    if ranges == [] then None
    else if Serialization(ranges[0]).Some? then Serialization(ranges[0])
    else FirstServed(ranges[1..])
  }

  function Negotiate(accept: string, read: Weights): Option<Served> {
    FirstServed(Ranked(Ranges(accept, read), RanksBefore))
  }

  predicate Admits(accept: string, served: Served, read: Weights) {
    exists range | range in Ranges(accept, read) :: Takes(range, served)
  }

  lemma ParseAllFirst(part: string, later: seq<string>, read: Weights)
    ensures ParseAll([part] + later, read) == Kept(Parse(part, read)) + ParseAll(later, read)
  {
    assert ([part] + later)[1..] == later;
  }

  lemma JoinsLeft<T>(a: seq<T>, b: seq<T>, c: seq<T>)
    ensures a + (b + c) == a + b + c
  {
  }

  lemma ParseNext(rest: Option<string>, read: Weights, parsed: seq<Range>)
    requires rest.Some?
    ensures var (part, next) := Cut(rest.value, ',');
            parsed + ParseAll(Parts(rest), read) == parsed + Kept(Parse(part, read)) + ParseAll(Parts(next), read)
  {
    var (part, next) := Cut(rest.value, ',');
    ParseAllFirst(part, Parts(next), read);
    JoinsLeft(parsed, Kept(Parse(part, read)), ParseAll(Parts(next), read));
  }

  method ParseRanges(accept: string, read: Weights) returns (parsed: seq<Range>)
    ensures parsed == Ranges(accept, read)
  {
    parsed := [];
    var rest := Header(accept);
    ghost var target := Ranges(accept, read);
    while rest.Some?
      invariant parsed + ParseAll(Parts(rest), read) == target
      decreases if rest.Some? then |rest.value| + 1 else 0
    {
      ParseNext(rest, read, parsed);
      var (part, next) := Cut(rest.value, ',');
      rest := next;
      var range := ParseRange(part, read);
      parsed := parsed + Kept(range);
    }
  }

  method RankedRanges(accept: string, read: Weights) returns (ranges: seq<Range>)
    ensures ranges == Ranked(Ranges(accept, read), RanksBefore)
  {
    var parsed := ParseRanges(accept, read);
    var a := new Range[|parsed|](i requires 0 <= i < |parsed| => parsed[i]);
    assert a[..] == parsed;
    RankInPlace(a, RanksBefore);
    ranges := a[..];
  }
}
