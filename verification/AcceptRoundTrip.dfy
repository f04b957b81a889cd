/** An `Accept` header written out and read back. */
module AcceptRoundTrip {
  import opened JsonValue
  import opened Text
  import opened Accept
  import AcceptLaws

  /** One parameter of a media type: `;`, a token with blanks around it, `=` and a value. */
  datatype Param = Param(gap: string, token: string, after: string, value: string)

  /** One media type on offer, with blanks wherever they may stand and any parameters. */
  datatype Offer = Offer(lead: string, kind: string, gap: string, skip: string, subtype: string, trail: string,
                         params: seq<Param>, end: string)

  predicate Plain(s: string) {
    s != "" && forall i | 0 <= i < |s| :: s[i] !in {' ', '/', ';', '=', ','}
  }

  predicate Blanks(s: string) {
    forall i | 0 <= i < |s| :: s[i] == ' '
  }

  predicate PlainParam(p: Param) {
    Blanks(p.gap) && Plain(p.token) && Blanks(p.after) && Plain(p.value)
  }

  predicate PlainOffer(o: Offer) {
    && Blanks(o.lead) && Plain(o.kind) && Blanks(o.gap) && Blanks(o.skip) && Plain(o.subtype) && Blanks(o.trail)
    && Blanks(o.end) && (o.params == [] ==> o.trail == "")
    && forall i | 0 <= i < |o.params| :: PlainParam(o.params[i])
  }

  function ParamText(p: Param): string {
    p.gap + p.token + p.after + "=" + p.value
  }

  /** The parameters after the first `;`. */
  function ParamsText(ps: seq<Param>): string
    requires ps != []
  {
    if |ps| == 1 then ParamText(ps[0]) else ParamText(ps[0]) + ";" + ParamsText(ps[1..])
  }

  function Media(o: Offer): string {
    o.kind + o.gap + "/" + (o.skip + o.subtype + o.trail)
  }

  function Core(o: Offer): string {
    if o.params == [] then Media(o) else Media(o) + ";" + ParamsText(o.params)
  }

  function Write(o: Offer): string {
    o.lead + Core(o) + o.end
  }

  /** The weight of an offer: 1, or that of its last `q`, which counts as 0 when it is no number. */
  function WeightOf(ps: seq<Param>, read: Weights): real {
    if ps == [] then 1.0
    else
      var last := ps[|ps| - 1];
      if last.token != "q" then WeightOf(ps[..|ps| - 1], read)
      else if read(last.value).Some? then read(last.value).value
      else 0.0
  }

  function Meaning(o: Offer, read: Weights): Range {
    Range(o.kind, o.subtype, WeightOf(o.params, read))
  }

  // ---- one media type ---------------------------------------------------------------------------

  lemma CutWhole(s: string, sep: char)
    requires sep !in s
    ensures Cut(s, sep) == (s, None)
  {
    FindSkips(s, "", sep);
    assert s + "" == s && s[..|s|] == s;
  }

  lemma CutAt(a: string, sep: char, b: string)
    requires sep !in a && b != ""
    ensures Cut(a + [sep] + b, sep) == (a, Some(b))
  {
    var s := a + [sep] + b;
    assert s == a + ([sep] + b);
    FindSkips(a, [sep] + b, sep);
    assert s[..|a|] == a && s[|a| + 1..] == b;
  }

  /** Blanks around a text that has none at its ends are what a trim takes away. */
  lemma {:induction false} TrimPadded(lead: string, s: string, end: string)
    requires Blanks(lead) && Blanks(end) && s != "" && s[0] != ' ' && s[|s| - 1] != ' '
    ensures TrimBlanks(lead + s + end) == s
    decreases |lead| + |end|
  {
    var t := lead + s + end;
    if lead != "" {
      assert t[0] == ' ' && t[1..] == lead[1..] + s + end;
      TrimPadded(lead[1..], s, end);
    } else if end != "" {
      var n := |end| - 1;
      assert t[0] == s[0] && t[|t| - 1] == ' ' && t[..|t| - 1] == lead + s + end[..n];
      TrimPadded(lead, s, end[..n]);
    } else {
      assert t == s;
    }
  }

  lemma PlainIsTight(s: string)
    requires Plain(s)
    ensures s != "" && s[0] != ' ' && s[|s| - 1] != ' '
    ensures '/' !in s && ';' !in s && '=' !in s && ',' !in s
  {
  }

  lemma BlanksHoldNothing(s: string)
    requires Blanks(s)
    ensures '/' !in s && ';' !in s && '=' !in s && ',' !in s
  {
  }

  lemma PaddedHolds(a: string, s: string, b: string)
    requires Blanks(a) && Plain(s) && Blanks(b)
    ensures TrimBlanks(a + s + b) == s && a + s + b != ""
    ensures '/' !in a + s + b && ';' !in a + s + b && '=' !in a + s + b && ',' !in a + s + b
  {
    PlainIsTight(s);
    BlanksHoldNothing(a);
    BlanksHoldNothing(b);
    TrimPadded(a, s, b);
  }

  lemma MediaReadsBack(o: Offer)
    requires PlainOffer(o)
    ensures var (first, rest) := Cut(Media(o), '/');
            TrimBlanks(first) == o.kind && Subtype(o.kind, rest) == Some(o.subtype)
    ensures ';' !in Media(o) && ',' !in Media(o)
  {
    var kind, subtype := o.kind + o.gap, o.skip + o.subtype + o.trail;
    PaddedHolds("", o.kind, o.gap);
    assert "" + o.kind + o.gap == kind;
    PaddedHolds(o.skip, o.subtype, o.trail);
    assert Media(o) == kind + ['/'] + subtype;
    CutAt(kind, '/', subtype);
    CutWhole(subtype, '/');
  }

  lemma ParamHolds(p: Param)
    requires PlainParam(p)
    ensures ';' !in ParamText(p) && ',' !in ParamText(p) && ParamText(p) != ""
    ensures ParamText(p)[|ParamText(p)| - 1] != ' '
  {
    PaddedHolds(p.gap, p.token, p.after);
    PlainIsTight(p.value);
  }

  lemma ParamWeighs(p: Param, q: real, read: Weights)
    requires PlainParam(p)
    ensures Weigh(ParamText(p), q, read) ==
            if p.token != "q" then q else if read(p.value).Some? then read(p.value).value else 0.0
  {
    PaddedHolds(p.gap, p.token, p.after);
    PlainIsTight(p.value);
    assert ParamText(p) == (p.gap + p.token + p.after) + ['='] + p.value;
    CutAt(p.gap + p.token + p.after, '=', p.value);
    CutWhole(p.value, '=');
  }

  /** The weight after some parameters, from what it was before them. */
  function WeightFrom(ps: seq<Param>, q: real, read: Weights): real {
    if ps == [] then q
    else
      var p := ps[0];
      WeightFrom(ps[1..], if p.token != "q" then q else if read(p.value).Some? then read(p.value).value else 0.0, read)
  }

  lemma {:induction false} WeightFromLast(ps: seq<Param>, q: real, p: Param, read: Weights)
    ensures WeightFrom(ps + [p], q, read) ==
            if p.token != "q" then WeightFrom(ps, q, read)
            else if read(p.value).Some? then read(p.value).value
            else 0.0
  {
    if ps == [] {
      assert (ps + [p])[1..] == [];
    } else {
      assert (ps + [p])[0] == ps[0] && (ps + [p])[1..] == ps[1..] + [p];
      var r := ps[0];
      WeightFromLast(ps[1..], if r.token != "q" then q else if read(r.value).Some? then read(r.value).value else 0.0, p,
          read);
    }
  }

  lemma {:induction false} WeightsAgree(ps: seq<Param>, read: Weights)
    ensures WeightFrom(ps, 1.0, read) == WeightOf(ps, read)
  {
    if ps != [] {
      var n := |ps| - 1;
      WeightsAgree(ps[..n], read);
      WeightFromLast(ps[..n], 1.0, ps[n], read);
      assert ps == ps[..n] + [ps[n]];
    }
  }

  lemma {:induction false} ParamsWeigh(ps: seq<Param>, q: real, read: Weights)
    requires ps != [] && forall i | 0 <= i < |ps| :: PlainParam(ps[i])
    ensures WeighAll(Some(ParamsText(ps)), q, read) == WeightFrom(ps, q, read)
  {
    var text, next := ParamText(ps[0]), Weigh(ParamText(ps[0]), q, read);
    ParamHolds(ps[0]);
    ParamWeighs(ps[0], q, read);
    if |ps| == 1 {
      CutWhole(text, ';');
      assert WeighAll(Some(text), q, read) == WeighAll(None, next, read) == next;
      assert ps[1..] == [];
    } else {
      ParamsHold(ps[1..]);
      CutAt(text, ';', ParamsText(ps[1..]));
      assert ParamsText(ps) == text + [';'] + ParamsText(ps[1..]);
      ParamsWeigh(ps[1..], next, read);
    }
  }

  lemma {:induction false} ParamsHold(ps: seq<Param>)
    requires ps != [] && forall i | 0 <= i < |ps| :: PlainParam(ps[i])
    ensures ',' !in ParamsText(ps) && ParamsText(ps) != "" && ParamsText(ps)[|ParamsText(ps)| - 1] != ' '
  {
    ParamHolds(ps[0]);
    if |ps| > 1 {
      ParamsHold(ps[1..]);
    }
  }

  lemma CoreHolds(o: Offer)
    requires PlainOffer(o)
    ensures var core := Core(o);
            && core != "" && core[0] != ' ' && core[|core| - 1] != ' ' && ',' !in core
            && Cut(core, ';') == (Media(o), if o.params == [] then None else Some(ParamsText(o.params)))
  {
    var media := Media(o);
    MediaReadsBack(o);
    PlainIsTight(o.kind);
    PlainIsTight(o.subtype);
    assert media[0] == o.kind[0];
    if o.params == [] {
      assert media[|media| - 1] == o.subtype[|o.subtype| - 1];
      CutWhole(media, ';');
    } else {
      var params := ParamsText(o.params);
      ParamsHold(o.params);
      assert Core(o) == media + [';'] + params && Core(o)[0] == media[0];
      assert Core(o)[|Core(o)| - 1] == params[|params| - 1];
      CutAt(media, ';', params);
    }
  }

  /** One offer, written and parsed, is the range it means. */
  lemma OfferReadsBack(o: Offer, read: Weights)
    requires PlainOffer(o)
    ensures Parse(Write(o), read) == Some(Meaning(o, read))
  {
    CoreHolds(o);
    TrimPadded(o.lead, Core(o), o.end);
    MediaReadsBack(o);
    WeightsAgree(o.params, read);
    if o.params != [] {
      ParamsWeigh(o.params, 1.0, read);
    }
  }

  /** A `*` alone is any type; a type with no subtype, or with a third segment, is passed over. */
  lemma OddPartsReadBack(lead: string, kind: string, subtype: string, third: string, end: string, read: Weights)
    requires Blanks(lead) && Blanks(end) && Plain(kind) && Plain(subtype) && Plain(third)
    ensures Parse(lead + kind + end, read) == if kind == "*" then Some(Range("*", "*", 1.0)) else None
    ensures Parse(kind + "/" + (subtype + "/" + third), read) == None
  {
    PaddedHolds(lead, kind, end);
    PlainIsTight(kind);
    PlainIsTight(subtype);
    PlainIsTight(third);
    CutWhole(kind, ';');
    CutWhole(kind, '/');
    assert TrimBlanks(kind) == kind;
    var rest := subtype + "/" + third;
    var odd := kind + "/" + rest;
    assert odd[0] == kind[0] && odd[|odd| - 1] == third[|third| - 1] && "" + odd + "" == odd;
    TrimPadded("", odd, "");
    CutWhole(odd, ';');
    assert odd == kind + ['/'] + rest && rest == subtype + ['/'] + third;
    CutAt(kind, '/', rest);
    CutAt(subtype, '/', third);
  }

  // ---- a whole header -----------------------------------------------------------------------------

  function WriteAll(offers: seq<Offer>): seq<string> {
    seq(|offers|, i requires 0 <= i < |offers| => Write(offers[i]))
  }

  function Meanings(offers: seq<Offer>, read: Weights): seq<Range> {
    seq(|offers|, i requires 0 <= i < |offers| => Meaning(offers[i], read))
  }

  /** The ranges among what parts read as. */
  function Somes(found: seq<Option<Range>>): seq<Range> {
    if found == [] then [] else Kept(found[0]) + Somes(found[1..])
  }

  lemma {:induction false} EachReads(texts: seq<string>, found: seq<Option<Range>>, read: Weights)
    requires |texts| == |found| && forall i | 0 <= i < |texts| :: Parse(texts[i], read) == found[i]
    ensures ParseAll(texts, read) == Somes(found)
  {
    if texts != [] {
      EachReads(texts[1..], found[1..], read);
      ParseAllFirst(texts[0], texts[1..], read);
      assert texts == [texts[0]] + texts[1..];
    }
  }

  lemma {:induction false} AllKept(ranges: seq<Range>, found: seq<Option<Range>>)
    requires |found| == |ranges| && forall i | 0 <= i < |ranges| :: found[i] == Some(ranges[i])
    ensures Somes(found) == ranges
  {
    if ranges != [] {
      AllKept(ranges[1..], found[1..]);
      assert ranges == [ranges[0]] + ranges[1..];
    }
  }

  lemma WriteHolds(o: Offer)
    requires PlainOffer(o)
    ensures ',' !in Write(o) && Write(o) != ""
  {
    CoreHolds(o);
    BlanksHoldNothing(o.lead);
    BlanksHoldNothing(o.end);
  }

  /** A header of any parts parses to the ranges among what they read as, in order: a part that
      found as none is passed over. */
  lemma PartsReadBack(texts: seq<string>, found: seq<Option<Range>>, read: Weights)
    requires texts != [] && |texts| == |found|
    requires forall i | 0 <= i < |texts| :: ',' !in texts[i] && texts[i] != "" && Parse(texts[i], read) == found[i]
    ensures Ranges(Join(texts, ","), read) == Somes(found)
  {
    SplitJoin(texts, ',');
    AcceptLaws.PartsAreSplit(Join(texts, ","));
    EachReads(texts, found, read);
  }

  /** A whole header, written and parsed, is its offers in order, none lost and none added. */
  lemma HeaderReadsBack(offers: seq<Offer>, read: Weights)
    requires offers != [] && forall i | 0 <= i < |offers| :: PlainOffer(offers[i])
    ensures Ranges(Join(WriteAll(offers), ","), read) == Meanings(offers, read)
  {
    var texts, ranges := WriteAll(offers), Meanings(offers, read);
    var found := seq(|ranges|, i requires 0 <= i < |ranges| => Some(ranges[i]));
    forall i | 0 <= i < |texts| ensures ',' !in texts[i] && texts[i] != "" && Parse(texts[i], read) == found[i] {
      WriteHolds(offers[i]);
      OfferReadsBack(offers[i], read);
    }
    PartsReadBack(texts, found, read);
    AllKept(ranges, found);
  }
}
