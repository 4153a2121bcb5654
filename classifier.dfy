/** The keyword classifier: it scores the normalised message against five
    categories, picks the best one (ties go to the category declared first),
    derives a confidence from the best score and its margin over the runner-up,
    and falls back to `Unknown` when the signal is too weak. */
module Classifier {
  import opened Schemas
  import opened Text

  /** The categories that have keywords; `Unknown` is only ever a fallback. */
  type KnownCategory = c: Category | c != Unknown witness RecognitionHelp

  /** The declaration order of the keyword table: the order in which scores
      are created and in which the selection meets them, hence the tie-break. */
  const CategoryOrder: seq<KnownCategory> :=
    [RecognitionHelp, AwardFulfillmentIssue, NominationGuidance, PolicyEligibility, AccessPermissions]

  /** The declaration order of the token table, in which token counts are added. */
  const TokenTableOrder: seq<KnownCategory> :=
    [AwardFulfillmentIssue, RecognitionHelp, AccessPermissions, PolicyEligibility, NominationGuidance]

  const KnownCategories: set<KnownCategory> := set c | c in CategoryOrder

  /** The position of a category in `CategoryOrder`. */
  function IndexOf(c: KnownCategory): (i: nat)
    ensures i < |CategoryOrder| && CategoryOrder[i] == c
  {
    match c
    case RecognitionHelp => 0
    case AwardFulfillmentIssue => 1
    case NominationGuidance => 2
    case PolicyEligibility => 3
    case AccessPermissions => 4
  }

  ghost predicate Distinct<T>(s: seq<T>) {
    forall i, j :: 0 <= i < j < |s| ==> s[i] != s[j]
  }

  lemma CategoryTablesAgree()
    ensures Distinct(CategoryOrder) && Distinct(TokenTableOrder)
    ensures forall c: KnownCategory :: c in KnownCategories
    ensures forall c :: c in TokenTableOrder <==> c in CategoryOrder
  {
  }

  /** The two tables `_score` consults: the phrase list of each category
      (each phrase found in the text is worth two points) and its token set
      (each token present among the text's tokens is worth one point). */
  datatype Tables = Tables(keywords: KnownCategory -> seq<string>,
                           tokenMap: KnownCategory -> set<string>)

  /** The keyword dictionary of the source. */
  function Phrases(c: KnownCategory): seq<string> {
    match c
    case RecognitionHelp =>
      ["how do i recognize", "send recognition", "ecard", "recognize", "shoutout",
       "post recognition", "points", "give points", "award someone"]
    case AwardFulfillmentIssue =>
      ["didn't receive", "not received", "shipping", "delivery", "redeem", "redemption",
       "order", "status", "tracking", "gift", "catalog", "award store"]
    case NominationGuidance =>
      ["nominate", "nomination", "recommend", "submission", "criteria", "who can be nominated"]
    case PolicyEligibility =>
      ["policy", "eligible", "eligibility", "limit", "rules", "can i", "allowed", "restriction"]
    case AccessPermissions =>
      ["can't access", "permission", "login", "sso", "error", "access denied", "role", "group"]
  }

  /** The inline token dictionary of the source. */
  function TokenSet(c: KnownCategory): set<string> {
    match c
    case AwardFulfillmentIssue =>
      {"redeem", "redeemed", "tracking", "shipment", "deliver", "delivery", "order"}
    case RecognitionHelp =>
      {"recognition", "recognize", "ecard", "points", "award"}
    case AccessPermissions =>
      {"login", "sso", "permission", "permissions", "access", "role", "group", "error"}
    case PolicyEligibility =>
      {"policy", "eligible", "eligibility", "limit", "rules"}
    case NominationGuidance =>
      {"nominate", "nomination", "criteria"}
  }

  const SourceTables: Tables := Tables(Phrases, TokenSet)

  /** No phrase list repeats a phrase. */
  lemma PhrasesDistinct(c: KnownCategory)
    ensures Distinct(Phrases(c))
  {
  }

  /** How many entries of `ps` occur in `text`, counted entry by entry. */
  function CountContained(ps: seq<string>, text: string): (n: nat)
    ensures n <= |ps|
  {
    if ps == [] then 0
    else CountContained(ps[..|ps| - 1], text) + if IsSubstring(ps[|ps| - 1], text) then 1 else 0
  }

  /** The distinct entries of `ps` that occur in `text`. */
  ghost function Found(ps: seq<string>, text: string): set<string> {
    set p | p in ps && IsSubstring(p, text)
  }

  /** For a list without repetitions, the entry count is the number of
      distinct phrases found. */
  lemma {:induction false} CountContainedIsCardinality(ps: seq<string>, text: string)
    requires Distinct(ps)
    ensures CountContained(ps, text) == |Found(ps, text)|
  {
    if ps != [] {
      var init, last := ps[..|ps| - 1], ps[|ps| - 1];
      assert Distinct(init);
      CountContainedIsCardinality(init, text);
      assert ps == init + [last];
      assert last !in Found(init, text);
      if IsSubstring(last, text) {
        assert Found(ps, text) == Found(init, text) + {last};
      } else {
        assert Found(ps, text) == Found(init, text);
      }
    }
  }

  function PhraseScore(t: Tables, c: KnownCategory, text: string): nat
  {
    2 * CountContained(t.keywords(c), text)
  }

  function TokenScore(t: Tables, c: KnownCategory, text: string): nat
  {
    |Tokens(text) * t.tokenMap(c)|
  }

  /** The full score of one category for a normalised text. */
  function CategoryScore(t: Tables, c: KnownCategory, text: string): nat
  {
    PhraseScore(t, c, text) + TokenScore(t, c, text)
  }

  /** The score is twice the number of the category's phrases found in the
      text plus the number of its tokens among the text's tokens. */
  lemma CategoryScoreCounts(t: Tables, c: KnownCategory, text: string)
    requires Distinct(t.keywords(c))
    ensures CategoryScore(t, c, text)
         == 2 * |Found(t.keywords(c), text)| + |Tokens(text) * t.tokenMap(c)|
    ensures CategoryScore(t, c, text) <= 2 * |t.keywords(c)| + |t.tokenMap(c)|
  {
    CountContainedIsCardinality(t.keywords(c), text);
    SubsetCardinality(Tokens(text) * t.tokenMap(c), t.tokenMap(c));
  }

  lemma SubsetCardinality<T>(a: set<T>, b: set<T>)
    requires a <= b
    ensures |a| <= |b|
  {
    assert b == a + (b - a);
  }

  /** A word inserted at a space boundary anywhere in a text adds at most
      one token point, and none when it already occurs as a token. */
  lemma RepeatedTokenScoresOnce(t: Tables, c: KnownCategory, a: string, w: string, b: string)
    requires IsWord(w)
    ensures TokenScore(t, c, a + [' '] + w + [' '] + b) <= TokenScore(t, c, a + [' '] + b) + 1
    ensures w in Tokens(a + [' '] + b) ==>
              TokenScore(t, c, a + [' '] + w + [' '] + b) == TokenScore(t, c, a + [' '] + b)
  {
    RepeatedWordAddsNoToken(a, w, b);
    var before := Tokens(a + [' '] + b) * t.tokenMap(c);
    assert Tokens(a + [' '] + w + [' '] + b) * t.tokenMap(c) <= before + {w};
    SubsetCardinality(Tokens(a + [' '] + w + [' '] + b) * t.tokenMap(c), before + {w});
  }

  /** A score for every known category, as the scorer's dictionary holds them. */
  type Scores = map<KnownCategory, nat>

  function ScoreMap(t: Tables, text: string): (m: Scores)
    ensures m.Keys == KnownCategories
  {
    map c | c in KnownCategories :: CategoryScore(t, c, text)
  }

  /** The scores listed in category order. */
  function ScoreValues(m: Scores): (vs: seq<nat>)
    requires m.Keys == KnownCategories
    ensures |vs| == |CategoryOrder|
    ensures forall i :: 0 <= i < |vs| ==> vs[i] == m[CategoryOrder[i]]
  {
    seq(|CategoryOrder|, i requires 0 <= i < |CategoryOrder| => m[CategoryOrder[i]])
  }

  /** The position `max` picks: a maximum, and the first one. */
  function ArgMaxFirst(vs: seq<int>): (k: nat)
    requires vs != []
    ensures k < |vs|
    ensures forall i :: 0 <= i < |vs| ==> vs[i] <= vs[k]
    ensures forall i :: 0 <= i < k ==> vs[i] < vs[k]
  {
    if |vs| == 1 then 0
    else
      var k := ArgMaxFirst(vs[..|vs| - 1]);
      if vs[|vs| - 1] > vs[k] then |vs| - 1 else k
  }

  /** Only one position is both a maximum and before every other maximum. */
  lemma ArgMaxFirstIsUnique(vs: seq<int>, k: nat)
    requires k < |vs|
    requires forall i :: 0 <= i < |vs| ==> vs[i] <= vs[k]
    requires forall i :: 0 <= i < k ==> vs[i] < vs[k]
    ensures ArgMaxFirst(vs) == k
  {
  }

  /** Each score is at least the next one. */
  ghost predicate SortedDesc(s: seq<int>) {
    forall i :: 0 < i < |s| ==> s[i - 1] >= s[i]
  }

  lemma {:induction false} SortedMonotone(s: seq<int>, i: nat, j: nat)
    requires SortedDesc(s) && i <= j < |s|
    ensures s[i] >= s[j]
    decreases j - i
  {
    if i < j {
      SortedMonotone(s, i, j - 1);
    }
  }

  /** The head of a descending sequence bounds every element. */
  lemma SortedHeadBounds(s: seq<int>, x: int)
    requires SortedDesc(s) && x in s
    ensures s[0] >= x
  {
    var j :| 0 <= j < |s| && s[j] == x;
    SortedMonotone(s, 0, j);
  }

  function InsertDesc(x: int, s: seq<int>): (r: seq<int>)
    requires SortedDesc(s)
    ensures SortedDesc(r)
    ensures multiset(r) == multiset(s) + multiset{x}
    ensures |r| == |s| + 1
    ensures r[0] == x || (s != [] && r[0] == s[0])
  {
    if s == [] || x >= s[0] then [x] + s
    else
      assert s == [s[0]] + s[1..];
      [s[0]] + InsertDesc(x, s[1..])
  }

  /** `sorted(values, reverse=True)`. */
  function SortDesc(s: seq<int>): (r: seq<int>)
    ensures SortedDesc(r)
    ensures multiset(r) == multiset(s)
    ensures |r| == |s|
  {
    if s == [] then []
    else
      assert s == [s[0]] + s[1..];
      InsertDesc(s[0], SortDesc(s[1..]))
  }

  /** The second entry of the descending sort, or 0 with fewer than two scores. */
  function SecondBest(vs: seq<int>): int {
    var sorted := SortDesc(vs);
    if |sorted| > 1 then sorted[1] else 0
  }

  lemma RemoveAtMultiset(vs: seq<int>, k: nat)
    requires k < |vs|
    ensures multiset(vs[..k] + vs[k + 1..]) == multiset(vs) - multiset{vs[k]}
  {
    assert vs == vs[..k] + [vs[k]] + vs[k + 1..];
  }

  /** Every element of `vs` is bounded by the head of a descending
      arrangement of it. */
  lemma SortedHeadBoundsAll(vs: seq<int>, r: seq<int>)
    requires SortedDesc(r) && multiset(r) == multiset(vs)
    ensures forall i :: 0 <= i < |vs| ==> vs[i] <= r[0]
  {
    forall i | 0 <= i < |vs| ensures vs[i] <= r[0] {
      assert vs[i] in multiset(r);
      SortedHeadBounds(r, vs[i]);
    }
  }

  /** The head of the descending sort is the score at the chosen position. */
  lemma SortedHeadIsBest(vs: seq<int>)
    requires vs != []
    ensures SortDesc(vs)[0] == vs[ArgMaxFirst(vs)]
  {
    var r := SortDesc(vs);
    SortedHeadBoundsAll(vs, r);
    assert r[0] in multiset(vs);
    assert r[0] in vs;
  }

  /** In a descending arrangement of the scores without position `k`,
      the first entry bounds every other score ... */
  lemma RunnerUpBoundsOthers(vs: seq<int>, k: nat, r: seq<int>)
    requires k < |vs| && |r| == |vs| && |r| >= 2 && SortedDesc(r)
    requires multiset(r[1..]) == multiset(vs[..k] + vs[k + 1..])
    ensures forall i :: 0 <= i < |vs| && i != k ==> vs[i] <= r[1]
  {
    var others := vs[..k] + vs[k + 1..];
    SortedHeadBoundsAll(others, r[1..]);
    forall i | 0 <= i < |vs| && i != k ensures vs[i] <= r[1] {
      var t := if i < k then i else i - 1;
      assert others[t] == vs[i];
    }
  }

  /** ... and is itself the score of some other position. */
  lemma RunnerUpIsAttained(vs: seq<int>, k: nat, r: seq<int>)
    requires k < |vs| && |r| == |vs| && |r| >= 2
    requires multiset(r[1..]) == multiset(vs[..k] + vs[k + 1..])
    ensures exists i :: 0 <= i < |vs| && i != k && vs[i] == r[1]
  {
    var others := vs[..k] + vs[k + 1..];
    assert r[1] in multiset(r[1..]);
    assert r[1] in multiset(others);
    var t :| 0 <= t < |others| && others[t] == r[1];
    var i := if t < k then t else t + 1;
    assert vs[i] == r[1] && i != k;
  }

  /** In a descending arrangement of the scores whose head is the score at
      position `k`, the second entry is the best of the other positions. */
  lemma RunnerUpFacts(vs: seq<int>, k: nat, r: seq<int>)
    requires k < |vs| && |r| == |vs| && |r| >= 2 && SortedDesc(r)
    requires multiset(r) == multiset(vs) && r[0] == vs[k]
    ensures r[1] <= vs[k]
    ensures forall i :: 0 <= i < |vs| && i != k ==> vs[i] <= r[1]
    ensures exists i :: 0 <= i < |vs| && i != k && vs[i] == r[1]
  {
    RemoveAtMultiset(vs, k);
    assert r == [r[0]] + r[1..];
    assert multiset(r[1..]) == multiset(vs[..k] + vs[k + 1..]);
    RunnerUpBoundsOthers(vs, k, r);
    RunnerUpIsAttained(vs, k, r);
  }

  /** The runner-up is the largest score outside the chosen position: it is
      reached by some other category and bounds all of them. */
  lemma SecondBestIsMaxOfOthers(vs: seq<int>)
    requires |vs| >= 2
    ensures SecondBest(vs) <= vs[ArgMaxFirst(vs)]
    ensures forall i :: 0 <= i < |vs| && i != ArgMaxFirst(vs) ==> vs[i] <= SecondBest(vs)
    ensures exists i :: 0 <= i < |vs| && i != ArgMaxFirst(vs) && vs[i] == SecondBest(vs)
  {
    SortedHeadIsBest(vs);
    RunnerUpFacts(vs, ArgMaxFirst(vs), SortDesc(vs));
  }

  function Min(a: int, b: int): int {
    if a <= b then a else b
  }

  function Max(a: int, b: int): int {
    if a >= b then a else b
  }

  /** `max(0, best - second)`: the margin is the gap to the runner-up, never
      negative, and zero exactly when another position ties with the best. */
  lemma MarginIsGap(vs: seq<int>, k: nat, second: int)
    requires |vs| >= 2 && k == ArgMaxFirst(vs) && second == SecondBest(vs)
    ensures Max(0, vs[k] - second) == vs[k] - second
    ensures Max(0, vs[k] - second) == 0 <==> exists i :: 0 <= i < |vs| && i != k && vs[i] == vs[k]
  {
    SecondBestIsMaxOfOthers(vs);
    if vs[k] == second {
      var i :| 0 <= i < |vs| && i != k && vs[i] == second;
      assert vs[i] == vs[k];
    }
  }

  /** The confidence formula in hundredths: 0.2 + min(0.5, 0.08 best)
      + min(0.3, 0.12 margin), clamped to [0, 1]. */
  function ConfidenceFor(best: nat, margin: nat): Confidence {
    Min(100, Max(0, 20 + Min(50, best * 8) + Min(30, margin * 12)))
  }

  /** The clamp never bites: the uncapped sum already lies in [0.2, 1.0]. */
  lemma ConfidenceUnclamped(best: nat, margin: nat)
    ensures 20 <= ConfidenceFor(best, margin)
    ensures ConfidenceFor(best, margin) == 20 + Min(50, best * 8) + Min(30, margin * 12)
    ensures best >= 2 ==> ConfidenceFor(best, margin) >= 36
  {
  }

  const FallbackConfidence: Confidence := 35
  const FallbackRationale := "Insufficient signal to classify confidently; routed to Human Review."

  /** The answer when the best score is at most 1. */
  const Fallback := ClassificationResult(Unknown, FallbackConfidence, FallbackRationale, map[])

  function FavoredRationale(c: Category, score: nat, margin: nat): string {
    "Keyword+token scoring favored '" + CategoryName(c) + "' (score=" + NatToString(score)
    + ", margin=" + NatToString(margin) + ")."
  }

  predicate HasOrderSignal(text: string) {
    IsSubstring("order", text) || IsSubstring("tracking", text)
  }

  predicate HasAuthSignal(text: string) {
    IsSubstring("sso", text) || IsSubstring("login", text)
  }

  /** The extracted signals: a flag is present, and true, exactly when its
      phrases occur; no other key is ever present. */
  function Entities(text: string): (m: map<string, bool>)
    ensures OrderIssueKey in m <==> HasOrderSignal(text)
    ensures AuthIssueKey in m <==> HasAuthSignal(text)
    ensures forall k :: k in m ==> (k == OrderIssueKey || k == AuthIssueKey) && m[k]
  {
    var withOrder := if HasOrderSignal(text) then map[OrderIssueKey := true] else map[];
    if HasAuthSignal(text) then withOrder[AuthIssueKey := true] else withOrder
  }

  /** The five scores of a normalised text, in category order. */
  function Values(t: Tables, text: string): (vs: seq<nat>)
    ensures |vs| == |CategoryOrder|
    ensures forall i :: 0 <= i < |vs| ==> vs[i] == CategoryScore(t, CategoryOrder[i], text)
  {
    CategoryTablesAgree();
    ScoreValues(ScoreMap(t, text))
  }

  /** The position of the selected category in `CategoryOrder`. */
  function TopIndex(t: Tables, text: string): (k: nat)
    ensures k < |CategoryOrder|
  {
    ArgMaxFirst(Values(t, text))
  }

  function TopScore(t: Tables, text: string): nat {
    Values(t, text)[TopIndex(t, text)]
  }

  /** What `classify` decides from the five scores of a normalised text. */
  function Decide(scores: Scores, text: string): ClassificationResult
    requires scores.Keys == KnownCategories
  {
    CategoryTablesAgree();
    var best := CategoryOrder[ArgMaxFirst(ScoreValues(scores))];
    var margin := Max(0, scores[best] - SecondBest(ScoreValues(scores)));
    if scores[best] <= 1 then Fallback
    else
      ClassificationResult(best, ConfidenceFor(scores[best], margin),
                           FavoredRationale(best, scores[best], margin), Entities(text))
  }

  /** `Decide` once its selected category and margin are named. */
  lemma DecideUnfold(scores: Scores, text: string, best: KnownCategory, margin: nat)
    requires scores.Keys == KnownCategories
    requires best == CategoryOrder[ArgMaxFirst(ScoreValues(scores))]
    requires margin == Max(0, scores[best] - SecondBest(ScoreValues(scores)))
    ensures scores[best] <= 1 ==> Decide(scores, text) == Fallback
    ensures scores[best] > 1 ==>
              Decide(scores, text)
              == ClassificationResult(best, ConfidenceFor(scores[best], margin),
                                      FavoredRationale(best, scores[best], margin), Entities(text))
  {
  }

  /** What `classify` decides for an already normalised text. */
  function Verdict(t: Tables, text: string): ClassificationResult {
    Decide(ScoreMap(t, text), text)
  }

  /** `classify(message)`: the verdict on the normalised message, with the
      source's tables. */
  function Classification(message: string): ClassificationResult {
    Verdict(SourceTables, Normalize(message))
  }

  /** The runner-up among the five scores of a normalised text. */
  function RunnerUp(t: Tables, text: string): int {
    SecondBest(Values(t, text))
  }

  /** `max(0, best - second)` for a normalised text. */
  function TopMargin(t: Tables, text: string): nat {
    Max(0, TopScore(t, text) - RunnerUp(t, text))
  }

  /** The verdict in terms of the chosen position, its score and the margin
      over the runner-up. */
  lemma VerdictParts(t: Tables, text: string)
    ensures TopScore(t, text) <= 1 ==> Verdict(t, text) == Fallback
    ensures TopScore(t, text) > 1 ==>
              Verdict(t, text)
              == ClassificationResult(CategoryOrder[TopIndex(t, text)],
                                      ConfidenceFor(TopScore(t, text), TopMargin(t, text)),
                                      FavoredRationale(CategoryOrder[TopIndex(t, text)], TopScore(t, text),
                                                       TopMargin(t, text)),
                                      Entities(text))
  {
    var scores, k := ScoreMap(t, text), TopIndex(t, text);
    VerdictInputs(t, text);
    DecideUnfold(scores, text, CategoryOrder[k], TopMargin(t, text));
  }

  /** The scores `Decide` reads are the verdict's: the listed values, the
      chosen score and the margin. */
  lemma VerdictInputs(t: Tables, text: string)
    ensures ScoreMap(t, text).Keys == KnownCategories
    ensures CategoryOrder[TopIndex(t, text)] == CategoryOrder[ArgMaxFirst(ScoreValues(ScoreMap(t, text)))]
    ensures ScoreMap(t, text)[CategoryOrder[TopIndex(t, text)]] == TopScore(t, text)
    ensures TopMargin(t, text)
         == Max(0, ScoreMap(t, text)[CategoryOrder[TopIndex(t, text)]] - SecondBest(ScoreValues(ScoreMap(t, text))))
  {
    var scores, k := ScoreMap(t, text), TopIndex(t, text);
    assert ScoreValues(scores) == Values(t, text);
    assert scores[CategoryOrder[k]] == TopScore(t, text);
  }

  /** The weak-signal fallback fires exactly when no category scores more
      than 1, and then the answer is `Unknown` with confidence 0.35, the fixed
      rationale and no signal flags, whatever the margin. */
  lemma VerdictFallback(t: Tables, text: string)
    ensures TopScore(t, text) <= 1 <==> (forall c: KnownCategory :: CategoryScore(t, c, text) <= 1)
    ensures Verdict(t, text) == Fallback <==> TopScore(t, text) <= 1
    ensures Verdict(t, text).category == Unknown <==> Verdict(t, text) == Fallback
  {
    VerdictParts(t, text);
    CategoryTablesAgree();
    var vs, k := Values(t, text), TopIndex(t, text);
    if TopScore(t, text) <= 1 {
      forall c: KnownCategory ensures CategoryScore(t, c, text) <= 1 {
        assert vs[IndexOf(c)] <= vs[k];
      }
    }
  }

  /** Off the fallback, the verdict is the first category in the fixed
      order with the top score: every category scores at most as much, and
      every category before it scores strictly less. */
  lemma VerdictSelectsFirstBest(t: Tables, text: string)
    requires TopScore(t, text) > 1
    ensures Verdict(t, text).category == CategoryOrder[TopIndex(t, text)]
    ensures CategoryScore(t, Verdict(t, text).category, text) == TopScore(t, text)
    ensures forall c: KnownCategory :: CategoryScore(t, c, text) <= TopScore(t, text)
    ensures forall i :: 0 <= i < TopIndex(t, text) ==> CategoryScore(t, CategoryOrder[i], text) < TopScore(t, text)
  {
    VerdictParts(t, text);
    CategoryTablesAgree();
    var vs, k := Values(t, text), TopIndex(t, text);
    forall c: KnownCategory ensures CategoryScore(t, c, text) <= TopScore(t, text) {
      assert vs[IndexOf(c)] <= vs[k];
    }
  }

  /** The margin is the gap between the top score and the runner-up, itself
      the best score among the other four categories; it is 0 exactly when
      another category ties for the top. */
  lemma VerdictMargin(t: Tables, text: string)
    ensures TopMargin(t, text) == TopScore(t, text) - RunnerUp(t, text)
    ensures forall c: KnownCategory :: c != CategoryOrder[TopIndex(t, text)] ==>
              CategoryScore(t, c, text) <= RunnerUp(t, text)
    ensures exists c: KnownCategory :: c != CategoryOrder[TopIndex(t, text)] &&
              CategoryScore(t, c, text) == RunnerUp(t, text)
    ensures TopMargin(t, text) == 0 <==>
              exists c: KnownCategory :: c != CategoryOrder[TopIndex(t, text)] &&
                CategoryScore(t, c, text) == TopScore(t, text)
  {
    CategoryTablesAgree();
    var vs, k := Values(t, text), TopIndex(t, text);
    MarginIsGap(vs, k, SecondBest(vs));
    SecondBestIsMaxOfOthers(vs);
    forall c: KnownCategory | c != CategoryOrder[k] ensures CategoryScore(t, c, text) <= RunnerUp(t, text) {
      assert vs[IndexOf(c)] <= SecondBest(vs);
    }
    var i :| 0 <= i < |vs| && i != k && vs[i] == SecondBest(vs);
    assert CategoryOrder[i] != CategoryOrder[k];
    if TopMargin(t, text) == 0 {
      assert CategoryScore(t, CategoryOrder[i], text) == TopScore(t, text);
    } else {
      forall c: KnownCategory | c != CategoryOrder[k] ensures CategoryScore(t, c, text) != TopScore(t, text) {
        assert vs[IndexOf(c)] <= SecondBest(vs);
      }
    }
  }

  /** The confidence is the uncapped formula off the fallback and 0.35 on it,
      so a category is chosen exactly when the confidence is at least 0.36;
      a tie for the top earns no margin bonus. */
  lemma VerdictConfidence(t: Tables, text: string)
    ensures TopScore(t, text) > 1 ==>
              Verdict(t, text).confidence
              == 20 + Min(50, TopScore(t, text) * 8) + Min(30, TopMargin(t, text) * 12)
    ensures TopScore(t, text) <= 1 ==> Verdict(t, text).confidence == FallbackConfidence
    ensures Verdict(t, text).category != Unknown <==> Verdict(t, text).confidence >= 36
    ensures TopScore(t, text) > 1 && TopMargin(t, text) == 0 ==>
              Verdict(t, text).confidence == 20 + Min(50, TopScore(t, text) * 8)
  {
    VerdictParts(t, text);
    ConfidenceUnclamped(TopScore(t, text), TopMargin(t, text));
  }

  /** The signal flags: off the fallback each is present, and true, exactly
      when one of its phrases occurs; on it there are none; no other key is
      ever present. */
  lemma VerdictEntities(t: Tables, text: string)
    ensures OrderIssueKey in Verdict(t, text).extractedEntities <==> TopScore(t, text) > 1 && HasOrderSignal(text)
    ensures AuthIssueKey in Verdict(t, text).extractedEntities <==> TopScore(t, text) > 1 && HasAuthSignal(text)
    ensures forall k :: k in Verdict(t, text).extractedEntities ==>
              (k == OrderIssueKey || k == AuthIssueKey) && Verdict(t, text).extractedEntities[k]
  {
    VerdictParts(t, text);
  }

  /** With the source's tables, a score counts the distinct phrases found
      twice and the shared tokens once. */
  lemma SourceScoreCounts(c: KnownCategory, text: string)
    ensures CategoryScore(SourceTables, c, text)
         == 2 * |Found(Phrases(c), text)| + |Tokens(text) * TokenSet(c)|
  {
    PhrasesDistinct(c);
    CategoryScoreCounts(SourceTables, c, text);
  }

  /** Classifying an already normalised message changes nothing. */
  lemma ClassificationOfNormalized(message: string)
    ensures Classification(Normalize(message)) == Classification(message)
  {
    NormalizeIdempotent(message);
  }

  /** The scores `base` after adding `add(c)` for each of the first `n`
      categories of `order`: one pass of `_score` stopped after `n` steps. */
  ghost function Partial(order: seq<KnownCategory>, n: nat, base: Scores, add: KnownCategory -> nat): Scores
    requires n <= |order|
  {
    map c | c in base :: base[c] + if c in order[..n] then add(c) else 0
  }

  lemma PartialStep(order: seq<KnownCategory>, i: nat, base: Scores, add: KnownCategory -> nat)
    requires i < |order| && Distinct(order) && order[i] in base
    ensures order[i] in Partial(order, i, base, add)
    ensures Partial(order, i + 1, base, add)
         == Partial(order, i, base, add)[order[i] := Partial(order, i, base, add)[order[i]] + add(order[i])]
  {
    assert order[i] !in order[..i];
    assert order[..i + 1] == order[..i] + [order[i]];
  }

  lemma PartialStart(order: seq<KnownCategory>, base: Scores, add: KnownCategory -> nat)
    ensures Partial(order, 0, base, add) == base
  {
  }

  lemma PartialDone(order: seq<KnownCategory>, base: Scores, add: KnownCategory -> nat)
    requires forall c :: c in base ==> c in order
    ensures Partial(order, |order|, base, add).Keys == base.Keys
    ensures forall c :: c in base ==> Partial(order, |order|, base, add)[c] == base[c] + add(c)
  {
    assert order[..|order|] == order;
  }

  /** The dictionary `_score` starts from. */
  const ZeroScores: Scores := map c | c in KnownCategories :: 0

  /** The phrase pass followed by the token pass gives the full scores. */
  lemma PassesGiveScores(t: Tables, text: string, mid: Scores, m: Scores)
    requires mid.Keys == KnownCategories && m.Keys == KnownCategories
    requires forall c :: c in mid ==> mid[c] == ZeroScores[c] + PhraseScore(t, c, text)
    requires forall c :: c in m ==> m[c] == mid[c] + TokenScore(t, c, text)
    ensures m == ScoreMap(t, text)
  {
    var full := ScoreMap(t, text);
    forall c | c in m ensures m[c] == full[c] {
      assert ZeroScores[c] == 0;
    }
    assert m.Keys == full.Keys;
  }

  /** The inner loop of the phrase pass: two points for each phrase of `cat`
      found in the text. */
  method AddPhraseHits(t: Tables, scores: Scores, cat: KnownCategory, text: string) returns (updated: Scores)
    requires cat in scores
    ensures updated == scores[cat := scores[cat] + PhraseScore(t, cat, text)]
  {
    var keywords := t.keywords(cat);
    updated := scores;
    for j := 0 to |keywords|
      invariant updated == scores[cat := scores[cat] + 2 * CountContained(keywords[..j], text)]
    {
      assert keywords[..j + 1][..j] == keywords[..j];
      if IsSubstring(keywords[j], text) {
        updated := updated[cat := updated[cat] + 2];
      }
    }
    assert keywords[..|keywords|] == keywords;
  }

  /** A visiting order for the passes of `_score`: every category of the
      dictionary exactly once. */
  ghost predicate Enumerates(order: seq<KnownCategory>, scores: Scores) {
    Distinct(order) && (forall i :: 0 <= i < |order| ==> order[i] in scores)
    && (forall c :: c in scores ==> c in order)
  }

  /** The first loop of `_score`: two points per phrase found, category by
      category in the order of the keyword table. */
  method PhrasePass(t: Tables, order: seq<KnownCategory>, base: Scores, text: string)
    returns (scores: Scores)
    requires Enumerates(order, base)
    ensures scores.Keys == base.Keys
    ensures forall c :: c in scores ==> scores[c] == base[c] + PhraseScore(t, c, text)
  {
    ghost var phrase := (c: KnownCategory) => PhraseScore(t, c, text);
    scores := base;
    PartialStart(order, base, phrase);
    for i := 0 to |order|
      invariant scores == Partial(order, i, base, phrase)
    {
      var cat := order[i];
      PartialStep(order, i, base, phrase);
      scores := AddPhraseHits(t, scores, cat, text);
    }
    PartialDone(order, base, phrase);
  }

  /** The second loop of `_score`: one point per token of the text in the
      category's token set, in the order of the token table. */
  method TokenPass(t: Tables, order: seq<KnownCategory>, base: Scores, text: string)
    returns (scores: Scores)
    requires Enumerates(order, base)
    ensures scores.Keys == base.Keys
    ensures forall c :: c in scores ==> scores[c] == base[c] + TokenScore(t, c, text)
  {
    ghost var token := (c: KnownCategory) => TokenScore(t, c, text);
    scores := base;
    PartialStart(order, base, token);
    var tokens := Tokens(text);
    for i := 0 to |order|
      invariant scores == Partial(order, i, base, token)
    {
      var cat := order[i];
      PartialStep(order, i, base, token);
      scores := scores[cat := scores[cat] + |tokens * t.tokenMap(cat)|];
    }
    PartialDone(order, base, token);
  }

  /** `_score`: the two passes from all-zero scores, then the first category
      with the top score. */
  method Score(t: Tables, text: string) returns (best: KnownCategory, scores: Scores)
    ensures scores == ScoreMap(t, text)
    ensures best == CategoryOrder[ArgMaxFirst(ScoreValues(scores))]
  {
    CategoryTablesAgree();
    var afterPhrases := PhrasePass(t, CategoryOrder, ZeroScores, text);
    scores := TokenPass(t, TokenTableOrder, afterPhrases, text);
    PassesGiveScores(t, text, afterPhrases, scores);
    best := CategoryOrder[ArgMaxFirst(ScoreValues(scores))];
  }

  /** The body of `classify` after normalisation. */
  method ClassifyText(t: Tables, text: string) returns (r: ClassificationResult)
    ensures r == Verdict(t, text)
  {
    var bestCat, scores := Score(t, text);
    r := DecideScores(bestCat, scores, text);
  }

  /** The flags block of `classify`: one key per signal found. */
  method ExtractEntities(text: string) returns (extracted: map<string, bool>)
    ensures extracted == Entities(text)
  {
    extracted := map[];
    if IsSubstring("order", text) || IsSubstring("tracking", text) {
      extracted := extracted[OrderIssueKey := true];
    }
    if IsSubstring("sso", text) || IsSubstring("login", text) {
      extracted := extracted[AuthIssueKey := true];
    }
  }

  /** The part of `classify` after `_score`: the margin over the runner-up,
      the confidence built step by step, the fallback on a weak signal, and
      the signal flags collected one by one. */
  method DecideScores(bestCat: KnownCategory, scores: Scores, text: string) returns (r: ClassificationResult)
    requires scores.Keys == KnownCategories
    requires bestCat == CategoryOrder[ArgMaxFirst(ScoreValues(scores))]
    ensures r == Decide(scores, text)
  {
    CategoryTablesAgree();
    var bestScore: int := scores[bestCat];
    var secondBest := SecondBest(ScoreValues(scores));
    var margin := Max(0, bestScore - secondBest);

    var confidence := 20;
    confidence := confidence + Min(50, bestScore * 8);
    confidence := confidence + Min(30, margin * 12);
    confidence := Min(100, Max(0, confidence));
    assert confidence == ConfidenceFor(bestScore, margin);

    if bestScore <= 1 {
      return ClassificationResult(Unknown, FallbackConfidence, FallbackRationale, map[]);
    }

    var rationale := FavoredRationale(bestCat, bestScore, margin);
    var extracted := ExtractEntities(text);
    DecideUnfold(scores, text, bestCat, margin);
    r := ClassificationResult(bestCat, confidence, rationale, extracted);
  }

  /** `classify`: normalise the message, then decide. */
  method Classify(message: string) returns (r: ClassificationResult)
    ensures r == Classification(message)
  {
    var text := Normalize(message);
    r := ClassifyText(SourceTables, text);
  }
}
