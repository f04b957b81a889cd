/** A whole selector, printed and parsed: what comes back, and what it selects. */
module SelectorRoundTrip {
  import opened JsonValue
  import opened Text
  import opened TextOrder
  import opened SelectorParser
  import opened SelectorPrinter
  import opened SelectorLaws

  // ---- the clauses come apart where they were joined -------------------------------------

  function Level(t: string, depth: int): int {
    if t == "" then depth else Level(t[1..], Depth(t[0], depth))
  }

  /** Read from this depth, the text holds no comma at depth 0. */
  predicate Quiet(t: string, depth: int) {
    t == "" || (!(t[0] == ',' && depth == 0) && Quiet(t[1..], Depth(t[0], depth)))
  }

  predicate Closed(t: string) {
    Quiet(t, 0) && Level(t, 0) == 0
  }

  lemma {:induction false} QuietConcat(a: string, b: string, depth: int)
    requires Quiet(a, depth) && Quiet(b, Level(a, depth))
    ensures Quiet(a + b, depth) && Level(a + b, depth) == Level(b, Level(a, depth))
  {
    if a == "" {
      assert a + b == b;
    } else {
      assert (a + b)[0] == a[0] && (a + b)[1..] == a[1..] + b;
      QuietConcat(a[1..], b, Depth(a[0], depth));
    }
  }

  /** Without parentheses the depth stays; then at depth 0 without commas, or at any
      other depth, the text is quiet. */
  lemma {:induction false} QuietFlat(t: string, depth: int)
    requires '(' !in t && ')' !in t && (',' !in t || depth != 0)
    ensures Quiet(t, depth) && Level(t, depth) == depth
  {
    if t != "" {
      assert t[0] in t;
      QuietFlat(t[1..], depth);
    }
  }

  lemma ClosedSet(head: string, joined: string)
    requires '(' !in head && ')' !in head && ',' !in head && '(' !in joined && ')' !in joined
    ensures Closed(head + ("(" + joined + ")"))
  {
    QuietFlat(head, 0);
    QuietFlat(joined, 1);
    assert Quiet("(", 0) && Level("(", 0) == 1 && Quiet(")", 1) && Level(")", 1) == 0;
    QuietConcat("(", joined, 0);
    QuietConcat("(" + joined, ")", 0);
    QuietConcat(head, "(" + joined + ")", 0);
  }

  lemma ClosedSetClause(k: string, op: string, vs: seq<string>)
    requires Plain(k) && Plain(op) && forall i | 0 <= i < |vs| :: Plain(vs[i])
    ensures Closed(SetText(k, op, Join(vs, ",")))
  {
    JoinHasNoParens(vs);
    NoSignsInHead(k, op);
    ClosedSet(k + " " + op + " ", Join(vs, ","));
  }

  lemma NoSignsInHead(k: string, op: string)
    requires Plain(k) && Plain(op)
    ensures '(' !in k + " " + op + " " && ')' !in k + " " + op + " " && ',' !in k + " " + op + " "
  {
  }

  lemma ClosedClause(r: Requirement)
    requires PlainRequirement(r)
    ensures Closed(Render(r)) && Trim(Render(r)) == Render(r)
  {
    if r.In? || r.NotIn? {
      OperatorsAreKnown(r.key, r.values);
      ClosedSetClause(r.key, if r.In? then "in" else "notin", r.values);
    } else {
      QuietFlat(Render(r), 0);
    }
    TrimTight(Render(r));
  }

  lemma {:induction false} ClausesSkip(t: string, rest: string, depth: int, current: string)
    requires Quiet(t, depth)
    ensures Clauses(t + rest, depth, current) == Clauses(rest, Level(t, depth), current + t)
  {
    if t == "" {
      assert t + rest == rest && current + t == current;
    } else {
      assert (t + rest)[0] == t[0] && (t + rest)[1..] == t[1..] + rest;
      assert current + [t[0]] + t[1..] == current + t;
      ClausesSkip(t[1..], rest, Depth(t[0], depth), current + [t[0]]);
    }
  }

  lemma {:induction false} ClausesJoin(texts: seq<string>)
    requires texts != [] && forall i | 0 <= i < |texts| :: Closed(texts[i])
    ensures Clauses(Join(texts, ","), 0, "") == texts
  {
    assert "" + texts[0] == texts[0];
    if |texts| == 1 {
      ClausesSkip(texts[0], "", 0, "");
      assert texts[0] + "" == texts[0];
    } else {
      var rest := Join(texts[1..], ",");
      assert Join(texts, ",") == texts[0] + ("," + rest);
      ClausesSkip(texts[0], "," + rest, 0, "");
      assert ("," + rest)[1..] == rest;
      ClausesJoin(texts[1..]);
      assert texts == [texts[0]] + texts[1..];
    }
  }

  function ReadBackAll(pairs: seq<(string, Requirement)>): seq<Requirement> {
    seq(|pairs|, i requires 0 <= i < |pairs| => ReadBack(pairs[i].1))
  }

  lemma ParseFirst(t: string, rest: seq<string>, r: Requirement, rs: seq<Requirement>)
    requires Trim(t) != "" && ParseClause(Trim(t)) == Ok(r) && ParseClauses(rest) == Ok(rs)
    ensures ParseClauses([t] + rest) == Ok([r] + rs)
  {
    assert ([t] + rest)[1..] == rest;
  }

  lemma {:induction false} EachParses(texts: seq<string>, rs: seq<Requirement>)
    requires |texts| == |rs|
    requires forall i | 0 <= i < |texts| ::
             Trim(texts[i]) != "" && ParseClause(Trim(texts[i])) == Ok(rs[i])
    ensures ParseClauses(texts) == Ok(rs)
  {
    if texts != [] {
      EachParses(texts[1..], rs[1..]);
      ParseFirst(texts[0], texts[1..], rs[0], rs[1..]);
      assert texts == [texts[0]] + texts[1..] && rs == [rs[0]] + rs[1..];
    }
  }

  lemma ClausesReadBack(pairs: seq<(string, Requirement)>)
    requires forall i | 0 <= i < |pairs| :: PlainRequirement(pairs[i].1)
    ensures ParseClauses(Texts(Rendered(pairs))) == Ok(ReadBackAll(pairs))
  {
    var texts, rs := Texts(Rendered(pairs)), ReadBackAll(pairs);
    forall i | 0 <= i < |texts| ensures Trim(texts[i]) != "" && ParseClause(Trim(texts[i])) == Ok(rs[i]) {
      ClauseReadsBack(pairs[i].1);
      ClosedClause(pairs[i].1);
      assert texts[i] == Render(pairs[i].1) && rs[i] == ReadBack(pairs[i].1);
    }
    EachParses(texts, rs);
  }

  lemma PrintedPairsReadBack(pairs: seq<(string, Requirement)>)
    requires forall i | 0 <= i < |pairs| :: PlainRequirement(pairs[i].1)
    ensures Parse(Join(Texts(Rendered(pairs)), ",")) == Ok(ReadBackAll(pairs))
  {
    var texts := Texts(Rendered(pairs));
    if pairs != [] {
      forall i | 0 <= i < |texts| ensures Closed(texts[i]) {
        ClosedClause(pairs[i].1);
      }
      ClauseReadsBack(pairs[0].1);
      assert Join(texts, ",") != "";
      ClausesJoin(texts);
      ClausesReadBack(pairs);
    } else {
      assert texts == [] && ReadBackAll(pairs) == [];
    }
  }

  // ---- the sorts ------------------------------------------------------------------------

  ghost predicate SortedKeys<T>(pairs: seq<(string, T)>) {
    forall i, j | 0 <= i < j < |pairs| :: !Less(pairs[j].0, pairs[i].0)
  }

  /** The pairs under one key, in order. */
  function Under<T>(pairs: seq<(string, T)>, key: string): seq<(string, T)> {
    if pairs == [] then [] else (if pairs[0].0 == key then [pairs[0]] else []) + Under(pairs[1..], key)
  }

  lemma {:induction false} InsertAdds<T>(sorted: seq<(string, T)>, x: (string, T))
    ensures multiset(Insert(sorted, x)) == multiset(sorted) + multiset{x}
  {
    if sorted != [] && !Less(x.0, sorted[0].0) {
      InsertAdds(sorted[1..], x);
      assert sorted == [sorted[0]] + sorted[1..];
    }
  }

  lemma {:induction false} InsertSorts<T>(sorted: seq<(string, T)>, x: (string, T))
    requires SortedKeys(sorted)
    ensures SortedKeys(Insert(sorted, x))
  {
    if sorted != [] {
      if Less(x.0, sorted[0].0) {
        InsertFirst(sorted, x);
      } else {
        InsertSorts(sorted[1..], x);
        InsertLater(sorted, x);
      }
    }
  }

  lemma InsertFirst<T>(sorted: seq<(string, T)>, x: (string, T))
    requires SortedKeys(sorted) && sorted != [] && Less(x.0, sorted[0].0)
    ensures SortedKeys([x] + sorted)
  {
    LessAsymmetric(x.0, sorted[0].0);
    forall j | 0 <= j < |sorted| ensures !Less(sorted[j].0, x.0) {
      if Less(sorted[j].0, x.0) {
        LessTransitive(sorted[j].0, x.0, sorted[0].0);
      }
    }
  }

  lemma InsertLater<T>(sorted: seq<(string, T)>, x: (string, T))
    requires SortedKeys(sorted) && sorted != [] && !Less(x.0, sorted[0].0) && SortedKeys(Insert(sorted[1..], x))
    ensures SortedKeys([sorted[0]] + Insert(sorted[1..], x))
  {
    var after := Insert(sorted[1..], x);
    InsertAdds(sorted[1..], x);
    forall j | 0 <= j < |after| ensures !Less(after[j].0, sorted[0].0) {
      assert after[j] in multiset(after);
      if after[j] != x {
        assert after[j] in sorted[1..];
      }
    }
  }

  lemma {:induction false} InsertUnder<T>(sorted: seq<(string, T)>, x: (string, T), key: string)
    requires SortedKeys(sorted)
    ensures Under(Insert(sorted, x), key) == Under(sorted, key) + if x.0 == key then [x] else []
  {
    if sorted == [] {
      assert Insert(sorted, x) == [x] && [x][1..] == [];
    } else if Less(x.0, sorted[0].0) {
      NothingUnder(sorted, x.0);
      assert ([x] + sorted)[1..] == sorted;
    } else {
      var head, rest := if sorted[0].0 == key then [sorted[0]] else [], Under(sorted[1..], key);
      var last := if x.0 == key then [x] else [];
      InsertUnder(sorted[1..], x, key);
      assert ([sorted[0]] + Insert(sorted[1..], x))[1..] == Insert(sorted[1..], x);
      assert head + (rest + last) == head + rest + last;
    }
  }

  lemma {:induction false} NothingUnder<T>(sorted: seq<(string, T)>, key: string)
    requires SortedKeys(sorted) && sorted != [] && Less(key, sorted[0].0)
    ensures Under(sorted, key) == []
  {
    LessAsymmetric(key, sorted[0].0);
    if |sorted| > 1 {
      assert !Less(sorted[1].0, sorted[0].0);
      if sorted[0].0 != sorted[1].0 {
        LessTotal(sorted[0].0, sorted[1].0);
        LessTransitive(key, sorted[0].0, sorted[1].0);
      }
      NothingUnder(sorted[1..], key);
    }
  }

  lemma {:induction false} UnderConcat<T>(a: seq<(string, T)>, b: seq<(string, T)>, key: string)
    ensures Under(a + b, key) == Under(a, key) + Under(b, key)
  {
    if a == [] {
      assert a + b == b;
    } else {
      var head, rest, more := if a[0].0 == key then [a[0]] else [], Under(a[1..], key), Under(b, key);
      assert (a + b)[0] == a[0] && (a + b)[1..] == a[1..] + b;
      UnderConcat(a[1..], b, key);
      assert head + (rest + more) == head + rest + more;
    }
  }

  lemma InsertIsStable<T>(front: seq<(string, T)>, sorted: seq<(string, T)>, x: (string, T), key: string)
    requires SortedKeys(sorted) && multiset(sorted) == multiset(front) && Under(sorted, key) == Under(front, key)
    ensures SortedKeys(Insert(sorted, x)) && multiset(Insert(sorted, x)) == multiset(front + [x])
    ensures Under(Insert(sorted, x), key) == Under(front + [x], key)
  {
    InsertSorts(sorted, x);
    InsertAdds(sorted, x);
    InsertUnder(sorted, x, key);
    UnderConcat(front, [x], key);
    assert [x][1..] == [];
  }

  /** What is printed is in key order, holds each requirement as often as the selector
      does, and keeps the requirements on one key in the selector's order. */
  lemma {:induction false} SortIsStable<T>(pairs: seq<(string, T)>, key: string)
    ensures SortedKeys(SortByKey(pairs))
    ensures multiset(SortByKey(pairs)) == multiset(pairs)
    ensures Under(SortByKey(pairs), key) == Under(pairs, key)
  {
    if pairs != [] {
      var n := |pairs| - 1;
      SortIsStable(pairs[..n], key);
      InsertIsStable(pairs[..n], SortByKey(pairs[..n]), pairs[n], key);
      assert pairs == pairs[..n] + [pairs[n]];
    }
  }

  ghost predicate Increasing(values: seq<string>) {
    forall i, j | 0 <= i < j < |values| :: Less(values[i], values[j])
  }

  lemma {:induction false} InsertValueHolds(sorted: seq<string>, v: string, x: string)
    ensures x in InsertValue(sorted, v) <==> x in sorted || x == v
  {
    if sorted != [] && !Less(v, sorted[0]) && v != sorted[0] {
      InsertValueHolds(sorted[1..], v, x);
      assert x in sorted <==> x == sorted[0] || x in sorted[1..];
    }
  }

  lemma FirstIncreases(first: string, rest: seq<string>)
    requires Increasing(rest) && forall x | x in rest :: Less(first, x)
    ensures Increasing([first] + rest)
  {
  }

  lemma {:induction false} InsertValueIsSet(sorted: seq<string>, v: string)
    requires Increasing(sorted)
    ensures Increasing(InsertValue(sorted, v))
  {
    if sorted != [] && v != sorted[0] {
      if Less(v, sorted[0]) {
        forall x | x in sorted ensures Less(v, x) {
          if x != sorted[0] {
            LessTransitive(v, sorted[0], x);
          }
        }
        FirstIncreases(v, sorted);
      } else {
        LessTotal(v, sorted[0]);
        InsertValueIsSet(sorted[1..], v);
        forall x | x in InsertValue(sorted[1..], v) ensures Less(sorted[0], x) {
          InsertValueHolds(sorted[1..], v, x);
        }
        FirstIncreases(sorted[0], InsertValue(sorted[1..], v));
      }
    }
  }

  /** The values of a set expression are printed in order, each once. */
  lemma {:induction false} AsSetIsSet(values: seq<string>)
    ensures Increasing(AsSet(values))
    ensures forall x :: x in AsSet(values) <==> x in values
  {
    if values != [] {
      var n := |values| - 1;
      AsSetIsSet(values[..n]);
      InsertValueIsSet(AsSet(values[..n]), values[n]);
      forall x ensures x in AsSet(values) <==> x in values {
        InsertValueHolds(AsSet(values[..n]), values[n], x);
        assert x in values <==> x in values[..n] || x == values[n];
      }
    }
  }

  // ---- the whole selector ------------------------------------------------------------------

  ghost predicate PlainSelector(s: LabelSelector) {
    && Printable(s.matchExpressions)
    && (forall i | 0 <= i < |s.matchLabels| ::
          s.matchLabels[i].0 != "" && Plain(s.matchLabels[i].0) && Plain(s.matchLabels[i].1))
    && (forall i | 0 <= i < |s.matchExpressions| ::
          && s.matchExpressions[i].key.value != "" && Plain(s.matchExpressions[i].key.value)
          && forall v | v in s.matchExpressions[i].values :: Plain(v))
  }

  /** What the selector requires, in its own order. */
  function Given(s: LabelSelector): seq<(string, Requirement)>
    requires Printable(s.matchExpressions)
  {
    LabelRequirements(s.matchLabels) + ExpressionRequirements(s.matchExpressions)
  }

  lemma SameMembers(s: LabelSelector, pair: (string, Requirement))
    requires Printable(s.matchExpressions)
    ensures pair in Requirements(s) <==> pair in Given(s)
  {
    SortIsStable(Given(s), "");
    assert pair in Requirements(s) <==> pair in multiset(Requirements(s));
    assert pair in Given(s) <==> pair in multiset(Given(s));
  }

  lemma GivenIsPlain(s: LabelSelector, at: nat)
    requires PlainSelector(s) && at < |Given(s)|
    ensures PlainRequirement(Given(s)[at].1)
  {
    var n, es := |s.matchLabels|, s.matchExpressions;
    if at >= n {
      var e := es[at - n];
      AsSetIsSet(e.values);
      assert Given(s)[at].1 == Required(e).value;
      forall i | 0 <= i < |AsSet(e.values)| ensures Plain(AsSet(e.values)[i]) {
        assert AsSet(e.values)[i] in e.values;
      }
    }
  }

  lemma PrintedArePlain(s: LabelSelector)
    requires PlainSelector(s)
    ensures forall i | 0 <= i < |Requirements(s)| :: PlainRequirement(Requirements(s)[i].1)
  {
    forall i | 0 <= i < |Requirements(s)| ensures PlainRequirement(Requirements(s)[i].1) {
      SameMembers(s, Requirements(s)[i]);
      var at :| 0 <= at < |Given(s)| && Given(s)[at] == Requirements(s)[i];
      GivenIsPlain(s, at);
    }
  }

  /** Every selector of plain text, printed and parsed, gives back its requirements in
      print order, with the empty values of its sets gone and nothing else changed. */
  lemma PrintedSelectorReadsBack(s: LabelSelector)
    requires PlainSelector(s)
    ensures Print(Some(s)).Some? && Parse(Print(Some(s)).value) == Ok(ReadBackAll(Requirements(s)))
  {
    PrintedArePlain(s);
    PrintedPairsReadBack(Requirements(s));
  }

  /** A selector prints if and only if each of its expressions has a key and one of the four
      operators; no selector prints as nothing. */
  lemma PrintsIff(s: LabelSelector)
    ensures Print(None) == Some("")
    ensures Print(Some(s)) != None <==>
            forall e | e in s.matchExpressions ::
              e.key != None && e.operator in {Some("In"), Some("NotIn"), Some("Exists"), Some("DoesNotExist")}
  {
    var es := s.matchExpressions;
    if Printable(es) {
      forall e | e in es
        ensures e.key != None && e.operator in {Some("In"), Some("NotIn"), Some("Exists"), Some("DoesNotExist")}
      {
        var i :| 0 <= i < |es| && es[i] == e;
        assert Required(es[i]).Some?;
      }
    } else {
      var i :| 0 <= i < |es| && Required(es[i]).None?;
      assert es[i] in es;
    }
  }

  /** The requirement comes from a label or from an expression of the selector. */
  ghost predicate Sourced(s: LabelSelector, r: Requirement)
    requires Printable(s.matchExpressions)
  {
    || (exists i :: 0 <= i < |s.matchLabels| && r == Equals(s.matchLabels[i].0, s.matchLabels[i].1))
    || (exists i :: 0 <= i < |s.matchExpressions| && Some(r) == Required(s.matchExpressions[i]))
  }

  lemma GivenUnderItsKey(s: LabelSelector, at: nat)
    requires Printable(s.matchExpressions) && at < |Given(s)|
    ensures Given(s)[at].0 == Given(s)[at].1.key && Sourced(s, Given(s)[at].1)
  {
    var n := |s.matchLabels|;
    if at < n {
      assert Given(s)[at] == (s.matchLabels[at].0, Equals(s.matchLabels[at].0, s.matchLabels[at].1));
    } else {
      assert Given(s)[at].1 == Required(s.matchExpressions[at - n]).value;
    }
  }

  lemma PrintedUnderItsKey(s: LabelSelector, i: nat)
    requires Printable(s.matchExpressions) && i < |Requirements(s)|
    ensures Requirements(s)[i].0 == Requirements(s)[i].1.key && Sourced(s, Requirements(s)[i].1)
  {
    SameMembers(s, Requirements(s)[i]);
    var at :| 0 <= at < |Given(s)| && Given(s)[at] == Requirements(s)[i];
    GivenUnderItsKey(s, at);
  }

  lemma SortKeepsLength<T>(pairs: seq<(string, T)>)
    ensures |SortByKey(pairs)| == |pairs|
  {
    SortIsStable(pairs, "");
    assert |multiset(SortByKey(pairs))| == |multiset(pairs)|;
  }

  lemma KeysInOrder(pairs: seq<(string, Requirement)>)
    requires SortedKeys(pairs) && forall i | 0 <= i < |pairs| :: pairs[i].0 == pairs[i].1.key
    ensures forall i, j | 0 <= i < j < |pairs| :: !Less(Texts(pairs)[j].key, Texts(pairs)[i].key)
  {
  }

  /** What is printed stands in the order of its keys and comes from the selector, all of it. */
  lemma PrintedInKeyOrder(s: LabelSelector)
    requires Printable(s.matchExpressions)
    ensures var rs := Texts(Requirements(s));
            && |rs| == |s.matchLabels| + |s.matchExpressions|
            && (forall i, j | 0 <= i < j < |rs| :: !Less(rs[j].key, rs[i].key))
            && (forall i | 0 <= i < |rs| :: Sourced(s, rs[i]))
  {
    var pairs := Requirements(s);
    forall i | 0 <= i < |pairs| ensures pairs[i].0 == pairs[i].1.key && Sourced(s, pairs[i].1) {
      PrintedUnderItsKey(s, i);
    }
    SortIsStable(Given(s), "");
    SortKeepsLength(Given(s));
    KeysInOrder(pairs);
  }

  ghost predicate NoEmptyValue(s: LabelSelector)
    requires Printable(s.matchExpressions)
  {
    forall i | 0 <= i < |s.matchExpressions| ::
      Required(s.matchExpressions[i]).value.In? || Required(s.matchExpressions[i]).value.NotIn? ==>
        "" !in s.matchExpressions[i].values
  }

  lemma {:induction false} DropsNothing(vs: seq<string>)
    ensures DropEmpty(vs) == vs <==> "" !in vs
    ensures |DropEmpty(vs)| <= |vs|
  {
    if vs != [] {
      DropsNothing(vs[1..]);
      assert vs == [vs[0]] + vs[1..];
    }
  }

  lemma ReadBackKeeps(r: Requirement)
    ensures ReadBack(r) == r <==> ((r.In? || r.NotIn?) ==> "" !in r.values)
  {
    if r.In? || r.NotIn? {
      DropsNothing(r.values);
    }
  }

  lemma GivenReadsBack(s: LabelSelector, at: nat)
    requires Printable(s.matchExpressions) && at < |Given(s)|
    ensures at < |s.matchLabels| ==> ReadBack(Given(s)[at].1) == Given(s)[at].1
    ensures at >= |s.matchLabels| ==>
              var e := s.matchExpressions[at - |s.matchLabels|];
              ReadBack(Given(s)[at].1) == Given(s)[at].1 <==>
              (Required(e).value.In? || Required(e).value.NotIn? ==> "" !in e.values)
  {
    ReadBackKeeps(Given(s)[at].1);
    if at >= |s.matchLabels| {
      AsSetIsSet(s.matchExpressions[at - |s.matchLabels|].values);
    }
  }

  lemma ReadBackIsExact(s: LabelSelector)
    requires Printable(s.matchExpressions)
    ensures ReadBackAll(Requirements(s)) == Texts(Requirements(s)) <==>
            forall at | 0 <= at < |Given(s)| :: ReadBack(Given(s)[at].1) == Given(s)[at].1
  {
    var pairs, given := Requirements(s), Given(s);
    if ReadBackAll(pairs) == Texts(pairs) {
      forall at | 0 <= at < |given| ensures ReadBack(given[at].1) == given[at].1 {
        SameMembers(s, given[at]);
        var i :| 0 <= i < |pairs| && pairs[i] == given[at];
        assert ReadBackAll(pairs)[i] == Texts(pairs)[i];
      }
    }
    if forall at | 0 <= at < |given| :: ReadBack(given[at].1) == given[at].1 {
      forall i | 0 <= i < |pairs| ensures ReadBackAll(pairs)[i] == Texts(pairs)[i] {
        SameMembers(s, pairs[i]);
        var at :| 0 <= at < |given| && given[at] == pairs[i];
      }
    }
  }

  lemma NoEmptyReadsBack(s: LabelSelector)
    requires Printable(s.matchExpressions) && NoEmptyValue(s)
    ensures forall at | 0 <= at < |Given(s)| :: ReadBack(Given(s)[at].1) == Given(s)[at].1
  {
    forall at | 0 <= at < |Given(s)| ensures ReadBack(Given(s)[at].1) == Given(s)[at].1 {
      GivenReadsBack(s, at);
    }
  }

  lemma ReadsBackNoEmpty(s: LabelSelector)
    requires Printable(s.matchExpressions)
    requires forall at | 0 <= at < |Given(s)| :: ReadBack(Given(s)[at].1) == Given(s)[at].1
    ensures NoEmptyValue(s)
  {
    var n, es := |s.matchLabels|, s.matchExpressions;
    forall i | 0 <= i < |es| && (Required(es[i]).value.In? || Required(es[i]).value.NotIn?)
        ensures "" !in es[i].values {
      GivenReadsBack(s, n + i);
      assert ReadBack(Given(s)[n + i].1) == Given(s)[n + i].1;
    }
  }

  /** The round trip gives the printed requirements back exactly when no set of the
      selector holds an empty value. */
  lemma RoundTripExactly(s: LabelSelector)
    requires PlainSelector(s)
    ensures Parse(Print(Some(s)).value) == Ok(Texts(Requirements(s))) <==> NoEmptyValue(s)
  {
    PrintedSelectorReadsBack(s);
    ReadBackIsExact(s);
    if NoEmptyValue(s) {
      NoEmptyReadsBack(s);
    } else if forall at | 0 <= at < |Given(s)| :: ReadBack(Given(s)[at].1) == Given(s)[at].1 {
      ReadsBackNoEmpty(s);
    }
  }

  /** Written in the alphabet of Kubernetes label keys and values. */
  ghost predicate LabelAlphabet(s: LabelSelector) {
    && Printable(s.matchExpressions)
    && (forall i | 0 <= i < |s.matchLabels| ::
          s.matchLabels[i].0 != "" && LabelText(s.matchLabels[i].0) && LabelText(s.matchLabels[i].1))
    && (forall i | 0 <= i < |s.matchExpressions| ::
          && s.matchExpressions[i].key.value != "" && LabelText(s.matchExpressions[i].key.value)
          && forall v | v in s.matchExpressions[i].values :: LabelText(v))
  }

  /** A selector in that alphabet is printed and parsed without loss, but for an empty set value. */
  lemma LabelSelectorReadsBack(s: LabelSelector)
    requires LabelAlphabet(s)
    ensures Print(Some(s)).Some?
    ensures Parse(Print(Some(s)).value) == Ok(Texts(Requirements(s))) <==> NoEmptyValue(s)
  {
    forall t | LabelText(t) ensures Plain(t) {
      LabelTextIsPlain(t);
    }
    PrintedSelectorReadsBack(s);
    RoundTripExactly(s);
  }

  // ---- what it selects -----------------------------------------------------------------

  predicate Admits(e: Expression, labels: Labels)
    requires Required(e).Some?
  {
    var k := e.key.value;
    match e.operator.value
    case "In" => k in labels && labels[k] in e.values
    case "NotIn" => k !in labels || labels[k] !in e.values
    case "Exists" => k in labels
    case _ => k !in labels
  }

  /** What the selector means: every label it names, with its value, and every expression. */
  ghost predicate Selects(s: LabelSelector, labels: Labels)
    requires Printable(s.matchExpressions)
  {
    && (forall i | 0 <= i < |s.matchLabels| ::
          s.matchLabels[i].0 in labels && labels[s.matchLabels[i].0] == s.matchLabels[i].1)
    && (forall i | 0 <= i < |s.matchExpressions| :: Admits(s.matchExpressions[i], labels))
  }

  /** The selector without the empty values of its sets. */
  function Pruned(s: LabelSelector): LabelSelector {
    var es := s.matchExpressions;
    s.(matchExpressions := seq(|es|, i requires 0 <= i < |es| => PrunedExpression(es[i])))
  }

  function PrunedExpression(e: Expression): Expression {
    e.(values := DropEmpty(e.values))
  }

  lemma {:induction false} DropEmptyHolds(vs: seq<string>, v: string)
    ensures v in DropEmpty(vs) <==> v in vs && v != ""
  {
    if vs != [] {
      DropEmptyHolds(vs[1..], v);
      assert v in vs <==> v == vs[0] || v in vs[1..];
    }
  }

  lemma ExpressionMeans(e: Expression, labels: Labels)
    requires Required(e).Some?
    ensures Satisfied(ReadBack(Required(e).value), labels) <==> Admits(PrunedExpression(e), labels)
  {
    AsSetIsSet(e.values);
    if e.key.value in labels {
      DropEmptyHolds(e.values, labels[e.key.value]);
      DropEmptyHolds(AsSet(e.values), labels[e.key.value]);
    }
  }

  /** Every requirement given is satisfied exactly when every one printed is. */
  lemma PrintedMatchIff(s: LabelSelector, labels: Labels)
    requires Printable(s.matchExpressions)
    ensures Matches(ReadBackAll(Requirements(s)), labels) <==>
            forall i | 0 <= i < |Given(s)| :: Satisfied(ReadBack(Given(s)[i].1), labels)
  {
    var pairs, given := Requirements(s), Given(s);
    if forall i | 0 <= i < |given| :: Satisfied(ReadBack(given[i].1), labels) {
      forall r | r in ReadBackAll(pairs) ensures Satisfied(r, labels) {
        var at :| 0 <= at < |pairs| && ReadBack(pairs[at].1) == r;
        SameMembers(s, pairs[at]);
        var from :| 0 <= from < |given| && given[from] == pairs[at];
      }
    }
    if Matches(ReadBackAll(pairs), labels) {
      forall i | 0 <= i < |given| ensures Satisfied(ReadBack(given[i].1), labels) {
        SameMembers(s, given[i]);
        var at :| 0 <= at < |pairs| && pairs[at] == given[i];
        assert ReadBackAll(pairs)[at] in ReadBackAll(pairs);
      }
    }
  }

  lemma GivenMean(s: LabelSelector, labels: Labels)
    requires Printable(s.matchExpressions)
    ensures Printable(Pruned(s).matchExpressions)
    ensures (forall i | 0 <= i < |Given(s)| :: Satisfied(ReadBack(Given(s)[i].1), labels)) <==>
            Selects(Pruned(s), labels)
  {
    var given, es, pruned, n := Given(s), s.matchExpressions, Pruned(s).matchExpressions, |s.matchLabels|;
    forall i | 0 <= i < |es|
      ensures Required(pruned[i]).Some? && (Satisfied(ReadBack(given[n + i].1), labels) <==> Admits(pruned[i], labels))
    {
      ExpressionMeans(es[i], labels);
    }
    if forall i | 0 <= i < |given| :: Satisfied(ReadBack(given[i].1), labels) {
      forall i | 0 <= i < |es| ensures Admits(pruned[i], labels) {
        assert Satisfied(ReadBack(given[n + i].1), labels);
      }
      forall i | 0 <= i < n ensures s.matchLabels[i].0 in labels && labels[s.matchLabels[i].0] == s.matchLabels[i].1 {
        assert Satisfied(ReadBack(given[i].1), labels);
      }
    }
    if Selects(Pruned(s), labels) {
      forall i | 0 <= i < |given| ensures Satisfied(ReadBack(given[i].1), labels) {
        if i >= n {
          assert Admits(pruned[i - n], labels) && given[i] == given[n + (i - n)];
        } else {
          assert given[i].1 == Equals(s.matchLabels[i].0, s.matchLabels[i].1);
        }
      }
    }
  }

  lemma PrunedIsSame(s: LabelSelector, labels: Labels)
    requires Printable(s.matchExpressions) && NoEmptyValue(s)
    ensures Printable(Pruned(s).matchExpressions) && (Selects(Pruned(s), labels) <==> Selects(s, labels))
  {
    var es, pruned := s.matchExpressions, Pruned(s).matchExpressions;
    forall i | 0 <= i < |es| ensures Required(pruned[i]).Some?
        && (Admits(pruned[i], labels) <==> Admits(es[i], labels)) {
      DropsNothing(es[i].values);
    }
  }

  /** Every printed selector, parsed back, matches exactly the label maps the selector without
      its empty set values selects; with none such, exactly those the selector itself does. */
  lemma ParsedSelectorSelectsTheSame(s: LabelSelector, labels: Labels)
    requires PlainSelector(s)
    ensures var parsed := Parse(Print(Some(s)).value);
            && parsed.Ok? && Printable(Pruned(s).matchExpressions)
            && (Matches(parsed.value, labels) <==> Selects(Pruned(s), labels))
            && (NoEmptyValue(s) ==> (Matches(parsed.value, labels) <==> Selects(s, labels)))
  {
    PrintedSelectorReadsBack(s);
    PrintedMatchIff(s, labels);
    GivenMean(s, labels);
    if NoEmptyValue(s) {
      PrunedIsSame(s, labels);
    }
  }

  /** Every set holding the empty value: `In` selects the empty label and its parsed text does
      not, `NotIn` the other way round. */
  lemma EmptyValueIsLost(key: string, operator: string, values: seq<string>)
    requires key != "" && Plain(key) && operator in {"In", "NotIn"}
    requires "" in values && forall i | 0 <= i < |values| :: Plain(values[i])
    ensures var s, labels := LabelSelector([], [Expression(Some(key), Some(operator), values)]), map[key := ""];
            && PlainSelector(s)
            && (Selects(s, labels) <==> operator == "In")
            && var parsed := Parse(Print(Some(s)).value);
               parsed.Ok? && (Matches(parsed.value, labels) <==> operator == "NotIn")
  {
    var e, labels := Expression(Some(key), Some(operator), values), map[key := ""];
    var s := LabelSelector([], [e]);
    assert Required(s.matchExpressions[0]).Some?;
    ParsedSelectorSelectsTheSame(s, labels);
    DropEmptyHolds(values, "");
    assert Pruned(s).matchExpressions[0] == PrunedExpression(e);
    assert Selects(s, labels) <==> Admits(s.matchExpressions[0], labels);
    assert Selects(Pruned(s), labels) <==> Admits(Pruned(s).matchExpressions[0], labels);
  }
}
