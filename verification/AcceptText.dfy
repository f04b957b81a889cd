/** What an `Accept` header is answered with, on the text of the header. */
module AcceptText {
  import opened JsonValue
  import opened Text
  import opened Ranking
  import opened Accept
  import opened AcceptRoundTrip
  import AcceptLaws

  /** The text is this lower-case word, each letter in either case. */
  predicate Spells(s: string, word: string) {
    |s| == |word| &&
    forall i | 0 <= i < |s| :: s[i] == word[i] || ('a' <= word[i] <= 'z' && s[i] == word[i] - 'a' + 'A')
  }

  /** The offer is of any type, or of type `application` with this or any subtype. */
  predicate Names(o: Offer, subtype: string) {
    || (o.kind == "*" && o.subtype == "*")
    || (Spells(o.kind, "application") && (o.subtype == "*" || Spells(o.subtype, subtype)))
  }

  /** What a kind that offers everything answers this one offer with. */
  function Answer(o: Offer): Option<Served> {
    if Names(o, "json") then Some(Json)
    else if Names(o, "yaml") then Some(Yaml)
    else if Names(o, "vnd.kubernetes.protobuf") then Some(Protobuf)
    else None
  }

  predicate Lower(word: string) {
    forall i | 0 <= i < |word| :: !('A' <= word[i] <= 'Z')
  }

  lemma SpellsIff(s: string, word: string)
    requires Lower(word)
    ensures Spells(s, word) <==> SameLetters(s, word)
  {
  }

  lemma TakesIff(o: Offer, read: Weights, served: Served)
    ensures Takes(Meaning(o, read), served) <==>
            Names(o, match served case Json => "json" case Yaml => "yaml" case Protobuf => "vnd.kubernetes.protobuf")
  {
    SpellsIff(o.kind, "application");
    SpellsIff(o.subtype, "json");
    SpellsIff(o.subtype, "yaml");
    SpellsIff(o.subtype, "vnd.kubernetes.protobuf");
  }

  lemma MeaningAnswers(o: Offer, read: Weights)
    ensures Serialization(Meaning(o, read)) == Answer(o) && Meaning(o, read).q == WeightOf(o.params, read)
  {
    TakesIff(o, read, Json);
    TakesIff(o, read, Yaml);
    TakesIff(o, read, Protobuf);
  }

  ghost predicate Somewhere(offers: seq<Offer>, subtype: string) {
    exists i :: 0 <= i < |offers| && Names(offers[i], subtype)
  }

  ghost predicate AllPlain(offers: seq<Offer>) {
    offers != [] && forall i | 0 <= i < |offers| :: PlainOffer(offers[i])
  }

  lemma AdmitsWhere(offers: seq<Offer>, served: Served, subtype: string, read: Weights)
    requires AllPlain(offers)
    requires forall o :: Takes(Meaning(o, read), served) <==> Names(o, subtype)
    ensures Admits(Join(WriteAll(offers), ","), served, read) <==> Somewhere(offers, subtype)
  {
    HeaderReadsBack(offers, read);
    var ranges := Meanings(offers, read);
    if range :| range in ranges && Takes(range, served) {
      var i :| 0 <= i < |ranges| && ranges[i] == range;
      assert Names(offers[i], subtype);
    }
    if i :| 0 <= i < |offers| && Names(offers[i], subtype) {
      assert ranges[i] in ranges && Takes(ranges[i], served);
    }
  }

  /** A header admits a serialization, at any weight, if and only if one of its media types is any
      type, any `application` type or that serialization's own, in any letter case. */
  lemma AdmitsIffNamed(offers: seq<Offer>, read: Weights)
    requires AllPlain(offers)
    ensures var header := Join(WriteAll(offers), ",");
            && (Admits(header, Json, read) <==> Somewhere(offers, "json"))
            && (Admits(header, Yaml, read) <==> Somewhere(offers, "yaml"))
            && (Admits(header, Protobuf, read) <==> Somewhere(offers, "vnd.kubernetes.protobuf"))
  {
    forall o, served: Served ensures Takes(Meaning(o, read), served) <==>
            Names(o, match served case Json => "json" case Yaml => "yaml" case Protobuf => "vnd.kubernetes.protobuf") {
      TakesIff(o, read, served);
    }
    AdmitsWhere(offers, Json, "json", read);
    AdmitsWhere(offers, Yaml, "yaml", read);
    AdmitsWhere(offers, Protobuf, "vnd.kubernetes.protobuf", read);
  }

  /** A header of one media type is answered with what that one names: any type, and any
      `application` type, with JSON. */
  lemma OneOfferNegotiates(o: Offer, read: Weights)
    requires PlainOffer(o)
    ensures Negotiate(Write(o), read) == Answer(o)
  {
    assert Join(WriteAll([o]), ",") == Write(o);
    HeaderReadsBack([o], read);
    assert Meanings([o], read) == [Meaning(o, read)];
    RankedIsPermutation([Meaning(o, read)], RanksBefore);
    RankOne(Meaning(o, read));
    MeaningAnswers(o, read);
  }

  lemma RankOne(range: Range)
    ensures Ranked([range], RanksBefore) == [range]
    ensures FirstServed([range]) == Serialization(range)
  {
    assert [range][..0] == [] && [range][1..] == [];
  }

  /** Without wildcards a header that names something served is answered with the first of the
      heaviest media types that do; one that names nothing served gets no answer. */
  lemma HeaderNegotiates(offers: seq<Offer>, read: Weights) returns (chosen: nat)
    requires AllPlain(offers) && forall i | 0 <= i < |offers| :: offers[i].kind != "*" && offers[i].subtype != "*"
    ensures chosen <= |offers|
    ensures chosen == |offers| ==>
              Negotiate(Join(WriteAll(offers), ","), read) == None &&
              forall i | 0 <= i < |offers| :: Answer(offers[i]) == None
    ensures chosen < |offers| ==>
              && Answer(offers[chosen]) != None
              && Negotiate(Join(WriteAll(offers), ","), read) == Answer(offers[chosen])
              && forall i | 0 <= i < |offers| && Answer(offers[i]) != None ::
                   if i < chosen then WeightOf(offers[i].params, read) < WeightOf(offers[chosen].params, read)
                   else WeightOf(offers[i].params, read) <= WeightOf(offers[chosen].params, read)
  {
    var ranges := Meanings(offers, read);
    HeaderReadsBack(offers, read);
    forall i | 0 <= i < |offers|
      ensures Serialization(ranges[i]) == Answer(offers[i]) && ranges[i].q == WeightOf(offers[i].params, read)
    {
      MeaningAnswers(offers[i], read);
    }
    chosen := AcceptLaws.HeaviestFirstOrNone(ranges);
  }
}
