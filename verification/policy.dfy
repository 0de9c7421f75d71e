/** The governance gate for generated content (services/policy.py): banned topics and blocked
    claims found case-insensitively in the script, caption and on-screen text block the content,
    and a blocked content has the claim phrases removed from its script and caption. */
module Policy {
  import opened Text
  import opened Seqs

  /** A content dict reduced to its string values. */
  type Content = map<string, string>

  const DefaultBannedTopics: set<string> := {"hate", "extremism", "illegal", "harm"}

  const BlockedClaims: seq<string> := ["guaranteed viral", "100% viral", "اكيد فيروسي", "مضمون 100%"]

  const TopicPrefix: string := "Blocked topic keyword detected: "
  const ClaimPrefix: string := "Blocked claim detected: "

  function TopicReason(t: string): string { TopicPrefix + t }
  function ClaimReason(c: string): string { ClaimPrefix + c }

  /** `str(content.get(key, ""))`. */
  function Get(c: Content, key: string): string {
    if key in c then c[key] else ""
  }

  /** The lowercased text the gate searches: script, caption and on-screen text joined by spaces. */
  function TextBlob(c: Content): string {
    Lower(Get(c, "script") + " " + Get(c, "caption") + " " + Get(c, "onscreen_text"))
  }

  /** The banned topics: the constraint's list together with the defaults. */
  function BannedTopics(constraintTopics: seq<string>): set<string> {
    (set t | t in constraintTopics) + DefaultBannedTopics
  }

  /** The banned topics that occur in the text. */
  function TopicHits(banned: set<string>, blob: string): set<string> {
    set t | t in banned && Contains(blob, Lower(t))
  }

  /** The reasons for the blocked claims, in list order. */
  function ClaimReasons(claims: seq<string>, blob: string): (r: seq<string>)
    ensures |r| <= |claims|
    ensures r == [] <==> forall i :: 0 <= i < |claims| ==> !Contains(blob, Lower(claims[i]))
  {
    if claims == [] then []
    else (if Contains(blob, Lower(claims[0])) then [ClaimReason(claims[0])] else []) + ClaimReasons(claims[1..], blob)
  }

  /** The sanitization of one field: each blocked claim removed in turn, with its exact case. */
  function RemoveClaims(s: string, claims: seq<string>): (r: string)
    requires forall i :: 0 <= i < |claims| ==> claims[i] != ""
    ensures |r| <= |s|
    ensures (forall i :: 0 <= i < |claims| ==> !Contains(s, claims[i])) ==> r == s
    decreases |claims|
  {
    if claims == [] then s
    else
      RemoveShrinks(s, claims[0]);
      RemoveClaims(Replace(s, claims[0], ""), claims[1..])
  }

  /** The blocked form of a content: script and caption (created empty when absent) with the
      claims removed, every other key as it was. */
  function Sanitize(content: Content): (r: Content)
    ensures r.Keys == content.Keys + {"script", "caption"}
    ensures r["script"] == RemoveClaims(Get(content, "script"), BlockedClaims)
    ensures r["caption"] == RemoveClaims(Get(content, "caption"), BlockedClaims)
    ensures forall k :: k in content && k != "script" && k != "caption" ==> r[k] == content[k]
    ensures |r["script"]| <= |Get(content, "script")| && |r["caption"]| <= |Get(content, "caption")|
  {
    content["script" := RemoveClaims(Get(content, "script"), BlockedClaims)]
           ["caption" := RemoveClaims(Get(content, "caption"), BlockedClaims)]
  }

  /** The loop over the banned-topic set, visited in an unspecified order: one reason per topic
      found in `blob`, each topic once. */
  method TopicReasons(banned: set<string>, blob: string) returns (reasons: seq<string>)
    ensures |reasons| == |TopicHits(banned, blob)|
    ensures forall i :: 0 <= i < |reasons| ==> exists t :: t in TopicHits(banned, blob) && reasons[i] == TopicReason(t)
    ensures forall t :: t in TopicHits(banned, blob) ==> TopicReason(t) in reasons
  {
    var hits := TopicHits(banned, blob);
    var remaining := banned;
    reasons := [];
    ghost var found: seq<string> := [];
    while remaining != {}
      invariant remaining <= banned
      invariant forall t :: t in found <==> t in hits && t !in remaining
      invariant Distinct(found)
      invariant |reasons| == |found|
      invariant forall i :: 0 <= i < |found| ==> reasons[i] == TopicReason(found[i])
      decreases remaining
    {
      var t :| t in remaining;
      if Contains(blob, Lower(t)) {
        reasons := reasons + [TopicReason(t)];
        found := found + [t];
      }
      remaining := remaining - {t};
    }
    DistinctCard(found, hits);
    forall t | t in hits
      ensures TopicReason(t) in reasons
    {
      var i :| 0 <= i < |found| && found[i] == t;
      assert reasons[i] == TopicReason(t);
    }
  }

  datatype Decision = Decision(allowed: bool, reasons: seq<string>, sanitized: Content)

  /** `evaluate_policy`: the topic reasons (in the set's order), then one per blocked claim found,
      in list order. Allowed exactly when there is no reason; an allowed content is returned as it
      is, a blocked one sanitized. */
  method EvaluatePolicy(content: Content, constraintTopics: seq<string>) returns (d: Decision)
    ensures var blob := TextBlob(content);
            var hits := TopicHits(BannedTopics(constraintTopics), blob);
            && |d.reasons| == |hits| + |ClaimReasons(BlockedClaims, blob)|
            && d.reasons[|hits|..] == ClaimReasons(BlockedClaims, blob)
            && (forall i :: 0 <= i < |hits| ==> exists t :: t in hits && d.reasons[i] == TopicReason(t))
            && (forall t :: t in hits ==> TopicReason(t) in d.reasons[..|hits|])
            && (d.allowed <==> hits == {} && forall i :: 0 <= i < |BlockedClaims| ==> !Contains(blob, Lower(BlockedClaims[i])))
    ensures d.allowed <==> d.reasons == []
    ensures d.allowed ==> d.sanitized == content
    ensures !d.allowed ==> d.sanitized == Sanitize(content)
  {
    var blob := TextBlob(content);
    var topicReasons := TopicReasons(BannedTopics(constraintTopics), blob);
    var reasons := topicReasons + ClaimReasons(BlockedClaims, blob);
    assert reasons[..|topicReasons|] == topicReasons;
    assert reasons[|topicReasons|..] == ClaimReasons(BlockedClaims, blob);
    var allowed := |reasons| == 0;
    d := Decision(allowed, reasons, if allowed then content else Sanitize(content));
  }

  /** A distinct list of exactly the elements of a set is as long as the set is large. */
  lemma {:induction false} DistinctCard<T>(xs: seq<T>, s: set<T>)
    requires Distinct(xs) && forall x :: x in xs <==> x in s
    ensures |xs| == |s|
    decreases |xs|
  {
    if xs != [] {
      var rest := xs[1..];
      assert forall i :: 0 <= i < |rest| ==> rest[i] == xs[i + 1] && rest[i] != xs[0];
      DistinctCard(rest, s - {xs[0]});
    } else {
      assert s == {};
    }
  }
}
