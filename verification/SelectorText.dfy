/** A label selector as a client writes it, in any of the grammar's forms, and what it selects. */
module SelectorText {
  import opened JsonValue
  import opened Text
  import opened SelectorParser
  import opened SelectorPrinter
  import opened SelectorLaws
  import opened SelectorRoundTrip

  /** A text with blanks around it. */
  datatype Padded = Padded(lead: string, text: string, trail: string)

  /** One clause: `k = v`, `k == v` or `k != v`, `k in (a, b)` or `k notin (a, b)`, `k`, `! k`. */
  datatype Clause =
    | Compared(key: string, before: string, sign: Sign, after: string, value: string)
    | Listed(key: string, within: bool, values: seq<Padded>)
    | Present(key: string)
    | Absent(gap: string, key: string)

  /** A clause with blanks around it. */
  datatype Written = Written(lead: string, clause: Clause, trail: string)

  function Pad(p: Padded): string {
    p.lead + p.text + p.trail
  }

  function PadAll(ps: seq<Padded>): seq<string> {
    seq(|ps|, i requires 0 <= i < |ps| => Pad(ps[i]))
  }

  function Values(ps: seq<Padded>): seq<string> {
    seq(|ps|, i requires 0 <= i < |ps| => ps[i].text)
  }

  function Core(c: Clause): string {
    match c
    case Compared(k, before, sign, after, v) => k + before + SignText(sign) + (after + v)
    case Listed(k, within, vs) => SetText(k, if within then "in" else "notin", Join(PadAll(vs), ","))
    case Present(k) => k
    case Absent(gap, k) => "!" + (gap + k)
  }

  function TextOf(w: Written): string {
    w.lead + Core(w.clause) + w.trail
  }

  function TextOfAll(ws: seq<Written>): seq<string> {
    seq(|ws|, i requires 0 <= i < |ws| => TextOf(ws[i]))
  }

  /** Keys and values hold no space and none of the grammar's characters; the rest is blank. */
  ghost predicate PlainClause(c: Clause) {
    && c.key != "" && Plain(c.key)
    && match c
       case Compared(_, before, _, after, v) => Blank(before) && Blank(after) && Plain(v) && (v == "" ==> after == "")
       case Listed(_, _, vs) => forall i | 0 <= i < |vs| :: PlainPadded(vs[i])
       case Present(_) => true
       case Absent(gap, _) => Blank(gap)
  }

  ghost predicate PlainPadded(p: Padded) {
    Blank(p.lead) && Plain(p.text) && Blank(p.trail)
  }

  ghost predicate PlainWritten(w: Written) {
    Blank(w.lead) && PlainClause(w.clause) && Blank(w.trail)
  }

  /** What a clause asks of an object's labels. An empty value in a list asks for nothing. */
  ghost predicate Meets(labels: Labels, c: Clause) {
    match c
    case Compared(k, _, Unequal, _, v) => k !in labels || labels[k] != v
    case Compared(k, _, _, _, v) => k in labels && labels[k] == v
    case Listed(k, true, vs) =>
      k in labels && labels[k] != "" && exists i :: 0 <= i < |vs| && vs[i].text == labels[k]
    case Listed(k, false, vs) =>
      k !in labels || labels[k] == "" || forall i | 0 <= i < |vs| :: vs[i].text != labels[k]
    case Present(k) => k in labels
    case Absent(_, k) => k !in labels
  }

  function Meaning(c: Clause): Requirement {
    match c
    case Compared(k, _, sign, _, v) => Comparison(k, sign, v)
    case Listed(k, within, vs) =>
      if within then In(k, DropEmpty(Values(vs))) else NotIn(k, DropEmpty(Values(vs)))
    case Present(k) => Exists(k)
    case Absent(_, k) => NotExists(k)
  }

  // ---- one clause ---------------------------------------------------------------------------

  lemma {:induction false} KeptValue(vs: seq<string>, v: string)
    ensures v in DropEmpty(vs) <==> v != "" && v in vs
  {
    if vs != [] {
      KeptValue(vs[1..], v);
      assert v in vs <==> v == vs[0] || v in vs[1..];
    }
  }

  lemma ValueIsListed(ps: seq<Padded>, v: string)
    ensures v in Values(ps) <==> exists i :: 0 <= i < |ps| && ps[i].text == v
  {
    if i :| 0 <= i < |ps| && ps[i].text == v {
      assert Values(ps)[i] == v;
    }
  }

  lemma MeaningIsMet(c: Clause, labels: Labels)
    ensures Satisfied(Meaning(c), labels) <==> Meets(labels, c)
  {
    if c.Listed? && c.key in labels {
      KeptValue(Values(c.values), labels[c.key]);
      ValueIsListed(c.values, labels[c.key]);
    }
  }

  lemma {:induction false} PaddedValues(vs: seq<Padded>)
    requires forall i | 0 <= i < |vs| :: PlainPadded(vs[i])
    ensures NonEmpty(PadAll(vs)) == DropEmpty(Values(vs))
  {
    if vs != [] {
      PaddedValues(vs[1..]);
      TrimPadded(vs[0].lead, vs[0].text, vs[0].trail);
      assert PadAll(vs)[1..] == PadAll(vs[1..]) && Values(vs)[1..] == Values(vs[1..]);
    }
  }

  lemma PadHasNoSigns(p: Padded)
    requires PlainPadded(p)
    ensures '(' !in Pad(p) && ')' !in Pad(p) && ',' !in Pad(p)
  {
    BlankIsNoSign(p.lead);
    BlankIsNoSign(p.trail);
  }

  lemma {:induction false} JoinedHasNoParens(texts: seq<string>)
    requires forall i | 0 <= i < |texts| :: '(' !in texts[i] && ')' !in texts[i]
    ensures '(' !in Join(texts, ",") && ')' !in Join(texts, ",")
  {
    if |texts| > 1 {
      JoinedHasNoParens(texts[1..]);
    }
  }

  /** The values of a list, joined and split, less the empty ones. */
  lemma ListReadsBack(vs: seq<Padded>)
    requires forall i | 0 <= i < |vs| :: PlainPadded(vs[i])
    ensures NonEmpty(Split(Join(PadAll(vs), ","), ',')) == DropEmpty(Values(vs))
    ensures '(' !in Join(PadAll(vs), ",") && ')' !in Join(PadAll(vs), ",")
  {
    forall i | 0 <= i < |vs| ensures '(' !in PadAll(vs)[i] && ')' !in PadAll(vs)[i] && ',' !in PadAll(vs)[i] {
      PadHasNoSigns(vs[i]);
    }
    JoinedHasNoParens(PadAll(vs));
    if vs == [] {
      assert NonEmpty([""]) == [];
    } else {
      SplitJoin(PadAll(vs), ',');
      PaddedValues(vs);
    }
  }

  lemma ListParses(k: string, op: string, joined: string, values: seq<string>)
    requires k != "" && Plain(k) && op != "" && Plain(op) && NonEmpty(Split(joined, ',')) == values
    ensures SetText(k, op, joined) != ""
    ensures ParseClause(SetText(k, op, joined)) == SetRequirement([k, op], values)
  {
    HeadWords(k, op);
    SetHead(k, op, joined);
    SetParses(k + " " + op + " ", joined, [k, op], values);
  }

  lemma AbsentParses(gap: string, k: string)
    requires k != "" && Plain(k) && Blank(gap)
    ensures ParseClause("!" + (gap + k)) == Ok(NotExists(k))
  {
    assert ("!" + (gap + k))[1..] == gap + k;
    PaddedValue(gap, k);
  }

  lemma ClauseParses(c: Clause)
    requires PlainClause(c)
    ensures Core(c) != "" && ParseClause(Core(c)) == Ok(Meaning(c))
  {
    match c {
      case Compared(k, before, sign, after, v) => ComparisonReadsBack(k, before, sign, after, v);
      case Listed(k, within, vs) =>
        ListReadsBack(vs);
        OperatorsAreKnown(k, DropEmpty(Values(vs)));
        ListParses(k, if within then "in" else "notin", Join(PadAll(vs), ","), DropEmpty(Values(vs)));
      case Present(k) => KeyReadsBack(k);
      case Absent(gap, k) => AbsentParses(gap, k);
    }
  }

  // ---- its place in the text ----------------------------------------------------------------

  predicate Tight(s: string) {
    s != "" && !IsSpace(s[0]) && !IsSpace(s[|s| - 1])
  }

  lemma CoreIsTight(c: Clause)
    requires PlainClause(c)
    ensures Tight(Core(c))
  {
    var core := Core(c);
    match c {
      case Compared(k, before, sign, after, v) =>
        assert core[0] == k[0];
        if v == "" {
          assert core == k + before + SignText(sign);
        } else {
          assert core[|core| - 1] == v[|v| - 1];
        }
      case Listed(k, _, _) => assert core[0] == k[0] && core[|core| - 1] == ')';
      case Present(_) =>
      case Absent(_, k) => assert core[|core| - 1] == k[|k| - 1];
    }
  }

  lemma ComparedIsFlat(k: string, before: string, sign: Sign, after: string, v: string)
    requires Plain(k) && Plain(v) && Blank(before) && Blank(after)
    ensures Closed(k + before + SignText(sign) + (after + v))
  {
    BlankIsNoSign(before);
    BlankIsNoSign(after);
    QuietFlat(k + before + SignText(sign) + (after + v), 0);
  }

  lemma CoreIsClosed(c: Clause)
    requires PlainClause(c)
    ensures Closed(Core(c))
  {
    match c {
      case Compared(k, before, sign, after, v) => ComparedIsFlat(k, before, sign, after, v);
      case Listed(k, within, vs) =>
        var op := if within then "in" else "notin";
        OperatorsAreKnown(k, []);
        ListReadsBack(vs);
        NoSignsInHead(k, op);
        ClosedSet(k + " " + op + " ", Join(PadAll(vs), ","));
      case Present(k) => QuietFlat(k, 0);
      case Absent(gap, k) =>
        BlankIsNoSign(gap);
        QuietFlat("!" + (gap + k), 0);
    }
  }

  lemma BlanksKeepClosed(lead: string, core: string, trail: string)
    requires Blank(lead) && Closed(core) && Blank(trail)
    ensures Closed(lead + core + trail)
  {
    BlankIsNoSign(lead);
    BlankIsNoSign(trail);
    QuietFlat(lead, 0);
    QuietFlat(trail, 0);
    QuietConcat(lead, core, 0);
    QuietConcat(lead + core, trail, 0);
  }

  lemma WrittenParses(w: Written)
    requires PlainWritten(w)
    ensures Closed(TextOf(w)) && Trim(TextOf(w)) != "" && ParseClause(Trim(TextOf(w))) == Ok(Meaning(w.clause))
    ensures TextOf(w) != ""
  {
    ClauseParses(w.clause);
    CoreIsTight(w.clause);
    CoreIsClosed(w.clause);
    BlanksKeepClosed(w.lead, Core(w.clause), w.trail);
    TrimPadded(w.lead, Core(w.clause), w.trail);
  }

  // ---- the whole text -----------------------------------------------------------------------

  function Meanings(ws: seq<Written>): seq<Requirement> {
    seq(|ws|, i requires 0 <= i < |ws| => Meaning(ws[i].clause))
  }

  /** A selector of any clauses, joined by commas, parses to what they mean, in order. */
  lemma WrittenSelectorParses(ws: seq<Written>)
    requires forall i | 0 <= i < |ws| :: PlainWritten(ws[i])
    ensures Parse(Join(TextOfAll(ws), ",")) == Ok(Meanings(ws))
  {
    var texts := TextOfAll(ws);
    if ws != [] {
      forall i | 0 <= i < |texts|
        ensures Closed(texts[i]) && texts[i] != "" && Trim(texts[i]) != "" &&
                ParseClause(Trim(texts[i])) == Ok(Meanings(ws)[i])
      {
        WrittenParses(ws[i]);
      }
      assert Join(texts, ",") != "";
      ClausesJoin(texts);
      EachParses(texts, Meanings(ws));
    } else {
      assert texts == [] && Meanings(ws) == [];
    }
  }

  /** And it matches exactly the labels that meet each of its clauses. */
  lemma WrittenSelectorSelects(ws: seq<Written>, labels: Labels)
    requires forall i | 0 <= i < |ws| :: PlainWritten(ws[i])
    ensures var parsed := Parse(Join(TextOfAll(ws), ","));
            parsed.Ok? && (Matches(parsed.value, labels) <==> forall i | 0 <= i < |ws| :: Meets(labels, ws[i].clause))
  {
    WrittenSelectorParses(ws);
    var rs := Meanings(ws);
    forall i | 0 <= i < |ws| ensures Satisfied(rs[i], labels) <==> Meets(labels, ws[i].clause) {
      MeaningIsMet(ws[i].clause, labels);
    }
    if Matches(rs, labels) {
      forall i | 0 <= i < |ws| ensures Meets(labels, ws[i].clause) {
        assert rs[i] in rs;
      }
    }
  }

  // ---- malformed clauses ------------------------------------------------------------------------

  lemma {:induction false} OneWord(word: string)
    requires word != "" && Plain(word)
    ensures Words(word) == [word] && Trim(word) == word
  {
    WordEndAt(word, "");
    assert word + "" == word && word[|word|..] == "";
    assert TrimStart(word) == word && Words("") == [];
    TrimTight(word);
  }

  /** A key that is missing, before a comparison or a set or after a `!`. */
  lemma MissingKeys(gap: string, sign: Sign, v: string, joined: string)
    requires Blank(gap) && Plain(v) && !sign.Unequal?
    ensures ParseClause(SignText(sign) + v) == Err(EmptyKey)
    ensures ParseClause("!" + gap) == Err(EmptyKey)
    ensures ParseClause("(" + joined + ")") == Err(EmptyKey)
  {
    var c := SignText(sign) + v;
    PaddedValue("", v);
    assert "" + v == v && "" + SignText(sign) + v == c;
    ComparisonKey("", sign, v);
    assert Trim("") == "";
    ComparisonClause(c);
    assert ("!" + gap)[1..] == gap && gap + "" + "" == gap;
    TrimPadded(gap, "", "");
    assert "" + ("(" + joined + ")") == "(" + joined + ")" && Words(Trim("")) == [];
    SetParses("", joined, [], NonEmpty(Split(joined, ',')));
  }

  /** A set with an operator that is neither `in` nor `notin`, with none, or never closed. */
  lemma BadSets(k: string, op: string, joined: string)
    requires k != "" && Plain(k) && op != "" && Plain(op) && op != "in" && op != "notin"
    ensures ParseClause(SetText(k, op, joined)) == Err(NoSetOperator)
    ensures ParseClause(k + ("(" + joined + ")")) == Err(NoSetOperator)
    ensures ')' !in joined ==> ParseClause(k + ("(" + joined)) == Err(Unterminated)
  {
    ListParses(k, op, joined, NonEmpty(Split(joined, ',')));
    OneWord(k);
    SetParses(k, joined, [k], NonEmpty(Split(joined, ',')));
    var open := k + ("(" + joined);
    assert open[0] == k[0] && ')' !in k;
    FindSkips(k, "(" + joined, '(');
    assert Find("(" + joined, '(') == 0;
  }

  lemma {:induction false} WordsJoin(words: seq<string>)
    requires words != [] && forall i | 0 <= i < |words| :: words[i] != "" && Plain(words[i])
    ensures Words(Join(words, " ")) == words
    ensures Join(words, " ") != "" && Join(words, " ")[0] == words[0][0]
  {
    var text := Join(words, " ");
    if |words| == 1 {
      OneWord(words[0]);
    } else {
      var rest := Join(words[1..], " ");
      WordsJoin(words[1..]);
      JoinFirst(words, " ");
      WordEndAt(words[0], " " + rest);
      assert text[0] == words[0][0] && TrimStart(text) == text;
      assert text[..|words[0]|] == words[0] && text[|words[0]|..] == " " + rest;
      SpaceFirst(rest);
      assert words == [words[0]] + words[1..];
    }
  }

  lemma SpaceFirst(s: string)
    ensures Words(" " + s) == Words(s)
  {
    assert (" " + s)[1..] == s;
    assert TrimStart(" " + s) == TrimStart(s);
  }

  lemma {:induction false} WordsHoldNoParen(words: seq<string>)
    requires words != [] && forall i | 0 <= i < |words| :: words[i] != "" && Plain(words[i])
    ensures var text := Join(words, " "); text != "" && '(' !in text && !IsSpace(text[|text| - 1])
  {
    if |words| > 1 {
      WordsHoldNoParen(words[1..]);
      JoinFirst(words, " ");
    }
  }

  /** Any more words than a key and an operator before a set. */
  lemma ExtraWords(words: seq<string>, joined: string)
    requires |words| > 2 && forall i | 0 <= i < |words| :: words[i] != "" && Plain(words[i])
    ensures ParseClause(Join(words, " ") + ("(" + joined + ")")) == Err(ExtraTokens)
  {
    var head := Join(words, " ");
    WordsJoin(words);
    WordsHoldNoParen(words);
    TrimTight(head);
    SetParses(head, joined, words, NonEmpty(Split(joined, ',')));
    assert (head + ("(" + joined + ")"))[0] == words[0][0];
  }

  /** After any clauses that parse, the first malformed one is what is wrong with a selector. */
  lemma FirstFaultIsReported(good: seq<string>, rs: seq<Requirement>, bad: string, rest: seq<string>, fault: Malformed)
    requires |good| == |rs| && forall i | 0 <= i < |good| :: Closed(good[i]) && Reads(good[i], rs[i])
    requires Closed(bad) && Trim(bad) != "" && ParseClause(Trim(bad)) == Err(fault)
    requires forall i | 0 <= i < |rest| :: Closed(rest[i])
    ensures Parse(Join(good + ([bad] + rest), ",")) == Err(fault)
  {
    var texts := good + ([bad] + rest);
    FaultFirst(bad, rest, fault);
    assert texts[|good|..] == [bad] + rest;
    FaultAfter(good, rs, texts, fault);
    HasText(texts, |good|);
    ClausesJoin(texts);
  }

  ghost predicate Reads(text: string, r: Requirement) {
    Trim(text) != "" && ParseClause(Trim(text)) == Ok(r)
  }

  lemma {:induction false} HasText(texts: seq<string>, at: nat)
    requires at < |texts| && texts[at] != ""
    ensures Join(texts, ",") != ""
  {
    if |texts| > 1 {
      JoinFirst(texts, ",");
    }
  }

  lemma FaultFirst(bad: string, rest: seq<string>, fault: Malformed)
    requires Trim(bad) != "" && ParseClause(Trim(bad)) == Err(fault)
    ensures ParseClauses([bad] + rest) == Err(fault)
  {
  }

  lemma FaultNext(text: string, r: Requirement, later: seq<string>, fault: Malformed)
    requires Reads(text, r) && ParseClauses(later) == Err(fault)
    ensures ParseClauses([text] + later) == Err(fault)
  {
    assert ([text] + later)[1..] == later;
  }

  lemma {:induction false} FaultAfter(good: seq<string>, rs: seq<Requirement>, all: seq<string>, fault: Malformed)
    requires |good| == |rs| && good <= all && forall i | 0 <= i < |good| :: Reads(good[i], rs[i])
    requires ParseClauses(all[|good|..]) == Err(fault)
    ensures ParseClauses(all) == Err(fault)
  {
    if good == [] {
      assert all[0..] == all;
    } else {
      var rest := all[1..];
      assert rest[|good| - 1..] == all[|good|..];
      FaultAfter(good[1..], rs[1..], rest, fault);
      FaultNext(good[0], rs[0], rest, fault);
      assert all == [good[0]] + rest;
    }
  }
}
