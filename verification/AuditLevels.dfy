/** What the audit policy has answered (`audit.rs` `Levels`): a bounded cache in front of a
    deterministic policy that may fail to answer. */
module AuditLevels {
  const LEVEL_CACHE_ENTRIES := 1024

  datatype Level = Unrecorded | Metadata

  function Remember(answered: map<string, Level>, facts: string, level: Level): map<string, Level> {
    if |answered| >= LEVEL_CACHE_ENTRIES then map[facts := level] else answered[facts := level]
  }

  ghost predicate Agrees(answered: map<string, Level>, policy: string -> Level) {
    |answered| <= 1024 && forall facts | facts in answered :: answered[facts] == policy(facts)
  }

  function RememberAll(answered: map<string, Level>, policy: string -> Level, asked: seq<string>): map<string, Level> {
    if asked == [] then answered
    else
      var last := asked[|asked| - 1];
      Remember(RememberAll(answered, policy, asked[..|asked| - 1]), last, policy(last))
  }

  lemma RememberAgrees(answered: map<string, Level>, policy: string -> Level, facts: string)
    requires Agrees(answered, policy)
    ensures Agrees(Remember(answered, facts, policy(facts)), policy)
  {
    var after := answered[facts := policy(facts)];
    assert after.Keys == answered.Keys + {facts};
    assert |map[facts := policy(facts)].Keys| == |{facts}|;
  }

  /** The last answer is in the cache, and beside it every earlier one unless the cache was full. */
  lemma LatestIsRemembered(policy: string -> Level, asked: seq<string>, facts: string, other: string)
    ensures var before, after := RememberAll(map[], policy, asked), RememberAll(map[], policy, asked + [facts]);
            && facts in after && after[facts] == policy(facts)
            && (other != facts ==> (other in after <==> other in before && |before| < 1024))
  {
    assert (asked + [facts])[..|asked|] == asked;
  }

  /** However many callers ask, and in whatever order their answers come back, the cache
      stays within its bound and holds nothing but what the policy answers. */
  lemma {:induction false} CacheStaysBounded(policy: string -> Level, asked: seq<string>)
    ensures Agrees(RememberAll(map[], policy, asked), policy)
  {
    if asked != [] {
      CacheStaysBounded(policy, asked[..|asked| - 1]);
      RememberAgrees(RememberAll(map[], policy, asked[..|asked| - 1]), policy, asked[|asked| - 1]);
    }
  }

  class Levels {
    const policy: string -> Level
    var answered: map<string, Level>
    var decisionFailures: nat

    ghost predicate Valid()
      reads this
    {
      Agrees(answered, policy)
    }

    constructor (policy: string -> Level)
      ensures this.policy == policy && Valid() && answered == map[] && decisionFailures == 0
    {
      this.policy := policy;
      answered, decisionFailures := map[], 0;
    }

    /** The level a request is recorded at. `answers` says whether the policy program
        answers this time: when it does not and the cache does not know, the request is
        recorded, and the failure counted. */
    method LevelFor(facts: string, answers: bool) returns (level: Level)
      requires Valid()
      modifies this
      ensures Valid()
      ensures level == policy(facts) || level == Metadata
      ensures facts in old(answered) || answers ==> level == policy(facts) && decisionFailures == old(decisionFailures)
      ensures facts !in old(answered) && !answers ==>
                level == Metadata && decisionFailures == old(decisionFailures) + 1 && answered == old(answered)
      ensures facts in old(answered) ==> answered == old(answered)
      ensures facts !in old(answered) && answers ==> answered == Remember(old(answered), facts, level)
    {
      if facts in answered {
        return answered[facts];
      }
      if !answers {
        decisionFailures := decisionFailures + 1;
        return Metadata;
      }
      level := policy(facts);
      RememberAgrees(answered, policy, facts);
      answered := Remember(answered, facts, level);
    }
  }
}
