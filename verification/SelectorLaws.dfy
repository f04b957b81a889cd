/** The printed selector read back by the parser of another file. */
module SelectorLaws {
  import opened JsonValue
  import opened Text
  import opened SelectorParser
  import opened SelectorPrinter

  /** No space, and none of the characters the grammar gives a meaning: every Kubernetes
      label key and value is like this. */
  predicate PlainChar(c: char) {
    !IsSpace(c) && c !in {',', '(', ')', '=', '!'}
  }

  predicate Plain(s: string) {
    forall i | 0 <= i < |s| :: PlainChar(s[i])
  }

  predicate LabelChar(c: char) {
    'a' <= c <= 'z' || 'A' <= c <= 'Z' || '0' <= c <= '9' || c in {'-', '_', '.', '/'}
  }

  predicate LabelText(s: string) {
    forall i | 0 <= i < |s| :: LabelChar(s[i])
  }

  lemma LabelTextIsPlain(s: string)
    requires LabelText(s)
    ensures Plain(s)
  {
  }

  predicate PlainRequirement(r: Requirement) {
    && r.key != "" && Plain(r.key)
    && match r
       case Equals(_, v) => Plain(v)
       case NotEquals(_, v) => Plain(v)
       case In(_, vs) => forall i | 0 <= i < |vs| :: Plain(vs[i])
       case NotIn(_, vs) => forall i | 0 <= i < |vs| :: Plain(vs[i])
       case Exists(_) => true
       case NotExists(_) => true
  }

  function DropEmpty(vs: seq<string>): seq<string> {
    if vs == [] then [] else (if vs[0] == "" then [] else [vs[0]]) + DropEmpty(vs[1..])
  }

  /** A requirement as the parser reads it back: empty set values are gone. */
  function ReadBack(r: Requirement): Requirement {
    match r
    case In(k, vs) => In(k, DropEmpty(vs))
    case NotIn(k, vs) => NotIn(k, DropEmpty(vs))
    case _ => r
  }

  // ---- one clause -------------------------------------------------------------------

  lemma TrimTight(s: string)
    requires s == "" || (!IsSpace(s[0]) && !IsSpace(s[|s| - 1]))
    ensures Trim(s) == s
  {
  }

  predicate Blank(s: string) {
    forall i | 0 <= i < |s| :: IsSpace(s[i])
  }

  lemma {:induction false} TrimStartSkips(lead: string, s: string)
    requires Blank(lead) && (s == "" || !IsSpace(s[0]))
    ensures TrimStart(lead + s) == s
  {
    if lead == "" {
      assert lead + s == s;
    } else {
      assert (lead + s)[0] == lead[0] && (lead + s)[1..] == lead[1..] + s;
      TrimStartSkips(lead[1..], s);
    }
  }

  lemma {:induction false} TrimEndSkips(s: string, trail: string)
    requires Blank(trail) && (s == "" || !IsSpace(s[|s| - 1]))
    ensures TrimEnd(s + trail) == s
  {
    if trail == "" {
      assert s + trail == s;
    } else {
      var n := |trail| - 1;
      assert (s + trail)[|s| + n] == trail[n] && (s + trail)[..|s| + n] == s + trail[..n];
      TrimEndSkips(s, trail[..n]);
    }
  }

  /** Blanks around a text that has none at its ends are what a trim takes away. */
  lemma TrimPadded(lead: string, s: string, trail: string)
    requires Blank(lead) && Blank(trail) && (s == "" || (!IsSpace(s[0]) && !IsSpace(s[|s| - 1])))
    ensures Trim(lead + s + trail) == s
  {
    if s == "" {
      assert lead + s + trail == (lead + trail) + "" && Blank(lead + trail);
      TrimStartSkips(lead + trail, "");
    } else {
      assert lead + s + trail == lead + (s + trail) && (s + trail)[0] == s[0];
      TrimStartSkips(lead, s + trail);
      TrimEndSkips(s, trail);
    }
  }

  lemma {:induction false} PairAt(a: string, x: char, y: char, rest: string)
    requires x !in a
    ensures FindPair(a + [x, y] + rest, x, y) == |a|
  {
    var s := a + [x, y] + rest;
    if a != "" {
      assert s[0] == a[0] && s[1..] == a[1..] + [x, y] + rest;
      PairAt(a[1..], x, y, rest);
    }
  }

  lemma {:induction false} PairAbsent(s: string, a: char, b: char)
    requires forall i | 0 <= i < |s| - 1 :: !(s[i] == a && s[i + 1] == b)
    ensures FindPair(s, a, b) == |s|
  {
    if |s| >= 2 {
      assert s[0] != a || s[1] != b;
      PairAbsent(s[1..], a, b);
    }
  }

  /** How a comparison is written. */
  datatype Sign = Single | Doubled | Unequal

  function SignText(sign: Sign): string {
    match sign
    case Single => "="
    case Doubled => "=="
    case Unequal => "!="
  }

  function Comparison(key: string, sign: Sign, value: string): Requirement {
    if sign.Unequal? then NotEquals(key, value) else Equals(key, value)
  }

  lemma ComparisonKey(head: string, sign: Sign, tail: string)
    requires '=' !in head && '!' !in head && '=' !in tail && '!' !in tail
    ensures var c := head + SignText(sign) + tail;
            && FindPair(c, '!', '=') == (if sign.Unequal? then |head| else |c|)
            && (!sign.Unequal? ==> FindPair(c, '=', '=') == if sign.Doubled? then |head| else |c|)
            && (sign.Single? ==> Find(c, '=') == |head|)
            && c[..|head|] == head && c[|head| + |SignText(sign)|..] == tail
  {
    var c := head + SignText(sign) + tail;
    assert c == head + (SignText(sign) + tail);
    match sign {
      case Unequal => PairAt(head, '!', '=', tail);
      case Doubled =>
        PairAbsent(c, '!', '=');
        PairAt(head, '=', '=', tail);
      case Single =>
        PairAbsent(c, '!', '=');
        PairAbsent(c, '=', '=');
        FindSkips(head, "=" + tail, '=');
    }
  }

  /** A clause that is no set and begins with no `!` is a comparison or a bare key. */
  lemma ComparisonClause(c: string)
    requires c != "" && c[0] != '!' && '(' !in c
    ensures ParseClause(c) == ParseEquality(c)
  {
    FindSkips(c, "", '(');
    assert c + "" == c;
  }

  lemma PaddedKey(k: string, before: string)
    requires k != "" && Plain(k) && Blank(before)
    ensures TrimKey(k + before) == Ok(k)
    ensures '=' !in k + before && '!' !in k + before && '(' !in k + before
  {
    BlankIsNoSign(before);
    assert "" + k + before == k + before;
    TrimPadded("", k, before);
  }

  lemma PaddedValue(after: string, v: string)
    requires Plain(v) && Blank(after)
    ensures Trim(after + v) == v
    ensures '=' !in after + v && '!' !in after + v && '(' !in after + v
  {
    BlankIsNoSign(after);
    assert after + v + "" == after + v;
    TrimPadded(after, v, "");
  }

  lemma ComparisonParses(head: string, sign: Sign, tail: string, k: string, v: string)
    requires '=' !in head && '!' !in head && '=' !in tail && '!' !in tail
    requires TrimKey(head) == Ok(k) && Trim(tail) == v
    ensures ParseEquality(head + SignText(sign) + tail) == Ok(Comparison(k, sign, v))
  {
    ComparisonKey(head, sign, tail);
  }

  /** A comparison with blanks around its operator, in any of the three spellings. */
  lemma ComparisonReadsBack(k: string, before: string, sign: Sign, after: string, v: string)
    requires k != "" && Plain(k) && Plain(v) && Blank(before) && Blank(after)
    ensures ParseClause(k + before + SignText(sign) + (after + v)) == Ok(Comparison(k, sign, v))
  {
    PaddedKey(k, before);
    PaddedValue(after, v);
    ComparisonParses(k + before, sign, after + v, k, v);
    ComparisonClause(k + before + SignText(sign) + (after + v));
  }

  lemma BlankIsNoSign(s: string)
    requires Blank(s)
    ensures '(' !in s && ')' !in s && ',' !in s && '=' !in s && '!' !in s
  {
  }

  lemma KeyReadsBack(k: string)
    requires k != "" && Plain(k)
    ensures ParseClause(k) == Ok(Exists(k)) && ParseClause("!" + k) == Ok(NotExists(k))
  {
    FindSkips(k, "", '(');
    FindSkips(k, "", '=');
    assert k + "" == k;
    PairAbsent(k, '!', '=');
    PairAbsent(k, '=', '=');
    assert ("!" + k)[1..] == k;
    TrimTight(k);
  }

  lemma {:induction false} WordEndAt(word: string, rest: string)
    requires Plain(word) && (rest == "" || IsSpace(rest[0]))
    ensures WordEnd(word + rest) == |word|
  {
    if word == "" {
      assert word + rest == rest;
    } else {
      assert (word + rest)[0] == word[0] && (word + rest)[1..] == word[1..] + rest;
      WordEndAt(word[1..], rest);
    }
  }

  lemma HeadWords(k: string, op: string)
    requires k != "" && Plain(k) && op != "" && Plain(op)
    ensures Words(Trim(k + " " + op + " ")) == [k, op]
  {
    var head, padded := k + " " + op, k + " " + op + " ";
    assert padded[0] == k[0] && padded[..|head|] == head;
    assert head[|head| - 1] == op[|op| - 1];
    assert PlainChar(padded[0]) && PlainChar(head[|head| - 1]) && IsSpace(padded[|head|]);
    assert TrimStart(padded) == padded && TrimEnd(head) == head;
    assert Trim(padded) == head;
    assert head == k + (" " + op);
    WordEndAt(k, " " + op);
    assert head[|k|..] == " " + op && (" " + op)[1..] == op;
    assert Words(head) == [k] + Words(" " + op);
    WordEndAt(op, "");
    assert op + "" == op;
    assert TrimStart(" " + op) == op;
    assert op[|op|..] == "";
    assert Words(" " + op) == [op] + Words("");
  }

  lemma {:induction false} DropsEmpty(vs: seq<string>)
    requires forall i | 0 <= i < |vs| :: Plain(vs[i])
    ensures NonEmpty(vs) == DropEmpty(vs)
  {
    if vs != [] {
      TrimTight(vs[0]);
      DropsEmpty(vs[1..]);
    }
  }

  lemma ValuesReadBack(vs: seq<string>)
    requires forall i | 0 <= i < |vs| :: Plain(vs[i])
    ensures NonEmpty(Split(Join(vs, ","), ',')) == DropEmpty(vs)
  {
    if vs == [] {
      assert NonEmpty([""]) == [];
    } else {
      SplitJoin(vs, ',');
      DropsEmpty(vs);
    }
  }

  lemma {:induction false} JoinHasNoParens(vs: seq<string>)
    requires forall i | 0 <= i < |vs| :: Plain(vs[i])
    ensures '(' !in Join(vs, ",") && ')' !in Join(vs, ",")
  {
    if |vs| > 1 {
      JoinHasNoParens(vs[1..]);
    }
  }

  lemma SetParts(head: string, joined: string)
    requires '(' !in head
    ensures var c := head + ("(" + joined + ")");
            && Find(c, '(') == |head| && FindLast(c, ')') == Some(|c| - 1)
            && c[..|head|] == head && c[|head| + 1..|c| - 1] == joined
  {
    var tail := "(" + joined + ")";
    FindSkips(head, tail, '(');
    assert Find(tail, '(') == 0;
  }

  lemma SetParses(head: string, joined: string, words: seq<string>, values: seq<string>)
    requires '(' !in head && Words(Trim(head)) == words && NonEmpty(Split(joined, ',')) == values
    ensures var c := head + ("(" + joined + ")");
            Find(c, '(') < |c| && ParseSet(c, Find(c, '(')) == SetRequirement(words, values)
  {
    SetParts(head, joined);
  }

  lemma SetReadsBack(k: string, op: string, vs: seq<string>, c: string)
    requires k != "" && Plain(k) && op != "" && Plain(op) && forall i | 0 <= i < |vs| :: Plain(vs[i])
    requires c == SetText(k, op, Join(vs, ","))
    ensures c != "" && c[0] != '!' && Find(c, '(') < |c|
    ensures ParseSet(c, Find(c, '(')) == SetRequirement([k, op], DropEmpty(vs))
  {
    HeadWords(k, op);
    ValuesReadBack(vs);
    SetHead(k, op, Join(vs, ","));
    SetParses(k + " " + op + " ", Join(vs, ","), [k, op], DropEmpty(vs));
  }

  lemma SetHead(k: string, op: string, joined: string)
    requires k != "" && Plain(k) && Plain(op)
    ensures '(' !in k + " " + op + " "
    ensures SetText(k, op, joined) != "" && SetText(k, op, joined)[0] == k[0] != '!'
  {
  }

  lemma SetClauseParses(k: string, op: string, vs: seq<string>, c: string)
    requires k != "" && Plain(k) && op != "" && Plain(op) && forall i | 0 <= i < |vs| :: Plain(vs[i])
    requires c == SetText(k, op, Join(vs, ","))
    ensures c != "" && ParseClause(c) == SetRequirement([k, op], DropEmpty(vs))
  {
    SetReadsBack(k, op, vs, c);
  }

  lemma OperatorsAreKnown(k: string, vs: seq<string>)
    ensures SetRequirement([k, "in"], vs) == Ok(In(k, vs)) && SetRequirement([k, "notin"], vs) == Ok(NotIn(k, vs))
    ensures Plain("in") && Plain("notin")
  {
  }

  lemma SetClauseReadsBack(r: Requirement)
    requires PlainRequirement(r) && (r.In? || r.NotIn?)
    ensures Render(r) != "" && ParseClause(Render(r)) == Ok(ReadBack(r))
  {
    OperatorsAreKnown(r.key, DropEmpty(r.values));
    SetClauseParses(r.key, if r.In? then "in" else "notin", r.values, Render(r));
  }

  lemma Unpadded(k: string, sign: string, v: string)
    ensures k + "" + sign + ("" + v) == k + sign + v
  {
  }

  lemma ComparedReadsBack(k: string, sign: Sign, v: string)
    requires k != "" && Plain(k) && Plain(v)
    ensures ParseClause(k + SignText(sign) + v) == Ok(Comparison(k, sign, v))
  {
    ComparisonReadsBack(k, "", sign, "", v);
    Unpadded(k, SignText(sign), v);
  }

  lemma ClauseReadsBack(r: Requirement)
    requires PlainRequirement(r)
    ensures Render(r) != "" && ParseClause(Render(r)) == Ok(ReadBack(r))
  {
    if r.In? || r.NotIn? {
      SetClauseReadsBack(r);
    } else if r.Equals? || r.NotEquals? {
      ComparedReadsBack(r.key, if r.Equals? then Single else Unequal, r.value);
    } else {
      KeyReadsBack(r.key);
    }
  }
}
