/**
 The keyword scorer of the batch tool: a priority score from three weighted
 keyword tiers. It works on the lower-cased text and matches keywords as
 literal substrings, so a text containing "humanity" also contains "human".
 */
module KeywordScorer {
  import opened Text

  // ---------------------------------------------------------------------
  // Priority score

  /** Each keyword of this tier found in the text adds 3. */
  const High: seq<string> := [
    "technology", "future", "innovation", "ai", "artificial intelligence",
    "automation", "digital", "virtual", "augmented", "biotechnology",
    "biology", "health", "genetic", "wellness", "longevity", "medical",
    "neuroscience", "brain", "body", "human potential",
    "generation", "children", "education", "learning", "youth", "future generations",
    "humanity", "human", "society", "community", "collective",
    "alignment", "integration", "harmony", "balance", "synergy", "convergence",
    "ethics", "values", "wisdom", "sustainability", "regenerative",
    "systems", "holistic", "interconnected", "ecosystem", "complex"
  ]

  /** Each keyword of this tier found in the text adds 2. */
  const Medium: seq<string> := [
    "relationship", "communication", "collaboration", "creativity",
    "consciousness", "awareness", "mindfulness", "purpose", "meaning",
    "leadership", "vision", "transformation", "evolution", "growth",
    "nature", "environment", "planet", "earth"
  ]

  /** Each keyword of this tier found in the text subtracts 1. */
  const Low: seq<string> := [
    "personal", "individual", "preference", "opinion", "favorite",
    "routine", "daily", "habit"
  ]

  /** Positions of the list entries that occur in `text`. Every entry is
      counted at most once, however often it occurs. */
  function Hits(keywords: seq<string>, text: string): set<nat>
  {
    set i: nat | i < |keywords| && Contains(text, keywords[i])
  }

  function HitCount(keywords: seq<string>, text: string): nat
  {
    |Hits(keywords, text)|
  }

  /** The score before it is floored at zero: three per high keyword, two per
      medium keyword, minus one per low keyword present. */
  function RawScore(textLower: string): int
  {
    3 * HitCount(High, textLower) + 2 * HitCount(Medium, textLower) - HitCount(Low, textLower)
  }

  function Max0(x: int): nat
  {
    if x > 0 then x else 0
  }

  /** The priority score of a question: the raw score of its lower-cased text,
      floored at zero. */
  function PriorityScore(questionText: string): nat
  {
    Max0(RawScore(Lower(questionText)))
  }

  /** Extending the scanned prefix of a keyword list by one entry adds that
      entry's position when it occurs. */
  lemma HitsExtend(keywords: seq<string>, text: string, i: nat)
    requires i < |keywords|
    ensures Hits(keywords[..i + 1], text)
         == Hits(keywords[..i], text) + (if Contains(text, keywords[i]) then {i} else {})
  {
  }

  lemma HitCountExtend(keywords: seq<string>, text: string, i: nat)
    requires i < |keywords|
    ensures HitCount(keywords[..i + 1], text)
         == HitCount(keywords[..i], text) + (if Contains(text, keywords[i]) then 1 else 0)
  {
    HitsExtend(keywords, text, i);
    assert i !in Hits(keywords[..i], text);
  }

  /** The weighted pass over one keyword tier, as the script's `for` loop does
      it: `weight` is added once for every entry found in the text. */
  method AddTier(keywords: seq<string>, textLower: string, weight: int, score: int) returns (total: int)
    ensures total == score + weight * HitCount(keywords, textLower)
  {
    total := score;
    for i := 0 to |keywords|
      invariant total == score + weight * HitCount(keywords[..i], textLower)
    {
      HitCountExtend(keywords, textLower, i);
      if Contains(textLower, keywords[i]) {
        total := total + weight;
      }
    }
    assert keywords[..|keywords|] == keywords;
  }

  /** The script's `calculate_priority_score`: three loops over the tiers on
      the lower-cased text, then `max(0, score)`. */
  method CalculatePriorityScore(questionText: string) returns (score: nat)
    ensures score == Max0(3 * HitCount(High, Lower(questionText))
                        + 2 * HitCount(Medium, Lower(questionText))
                        - HitCount(Low, Lower(questionText)))
    ensures score == PriorityScore(questionText)
  {
    var textLower := Lower(questionText);
    var total := 0;
    total := AddTier(High, textLower, 3, total);
    total := AddTier(Medium, textLower, 2, total);
    total := AddTier(Low, textLower, -1, total);
    score := if total > 0 then total else 0;
  }

  /** Case never changes the score: a text and its lower-cased form score the
      same. */
  lemma PriorityScoreIgnoresCase(questionText: string)
    ensures PriorityScore(Lower(questionText)) == PriorityScore(questionText)
  {
    LowerIdempotent(questionText);
  }

  /** The score is bounded by the number of keywords it can reward. */
  lemma PriorityScoreBounds(questionText: string)
    ensures PriorityScore(questionText) <= 3 * |High| + 2 * |Medium|
  {
    var t := Lower(questionText);
    HitsBounded(High, t);
    HitsBounded(Medium, t);
  }

  lemma HitsBounded(keywords: seq<string>, text: string)
    ensures HitCount(keywords, text) <= |keywords|
  {
    PrefixHitsBounded(keywords, text, |keywords|);
    assert keywords[..|keywords|] == keywords;
  }

  lemma {:induction false} PrefixHitsBounded(keywords: seq<string>, text: string, i: nat)
    requires i <= |keywords|
    ensures HitCount(keywords[..i], text) <= i
  {
    if i > 0 {
      PrefixHitsBounded(keywords, text, i - 1);
      HitCountExtend(keywords, text, i - 1);
    } else {
      assert Hits(keywords[..0], text) == {};
    }
  }

  lemma SubsetCardinality(a: set<nat>, b: set<nat>)
    requires a <= b
    ensures |a| <= |b|
  {
    assert b == a + (b - a);
  }

  /** Both "human" and "humanity" are high-tier keywords and substring
      matching is literal, so a text mentioning "humanity" and no low-tier
      keyword already reaches the high tier's threshold of 6. */
  lemma HumanityAloneScoresSix(questionText: string)
    requires Contains(Lower(questionText), "humanity")
    requires HitCount(Low, Lower(questionText)) == 0
    ensures PriorityScore(questionText) >= 6
  {
    HumanityHitsTwice(Lower(questionText));
  }

  /** A text containing "humanity" hits the high-tier entries "humanity" and
      "human". */
  lemma HumanityHitsTwice(t: string)
    requires Contains(t, "humanity")
    ensures HitCount(High, t) >= 2
  {
    assert High[26] == "humanity" && High[27] == "human";
    assert OccursAt("humanity", "human", 0);
    ContainsAt("humanity", "human", 0);
    ContainsTransitive(t, "humanity", "human");
    assert 26 in Hits(High, t) && 27 in Hits(High, t);
    SubsetCardinality({26, 27}, Hits(High, t));
  }
}
