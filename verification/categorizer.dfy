/**
 The keyword categoriser of the batch tool: an ordered list of rules, each a
 category and its keywords; the first rule with a keyword in the lower-cased
 text decides the category, and "General Wisdom" is the fallback. Keywords
 are matched as literal substrings, so 'ai' is found inside "again".
 */
module Categorizer {
  import opened Text

  /** The categories the rules assign, and the fallback. */
  datatype Category =
    | TechnologyFuture
    | BiologyHealth
    | GenerationAlphaYouth
    | SystemsAlignment
    | EthicsWisdom
    | EnvironmentSustainability
    | LeadershipVision
    | PersonalGrowth
    | RelationshipsCommunity
    | GeneralWisdom

  /** The label written to the output files. */
  function Label(c: Category): string
  {
    match c
    case TechnologyFuture => "Technology & Future"
    case BiologyHealth => "Biology & Health"
    case GenerationAlphaYouth => "Generation Alpha & Youth"
    case SystemsAlignment => "Systems & Alignment"
    case EthicsWisdom => "Ethics & Wisdom"
    case EnvironmentSustainability => "Environment & Sustainability"
    case LeadershipVision => "Leadership & Vision"
    case PersonalGrowth => "Personal Growth"
    case RelationshipsCommunity => "Relationships & Community"
    case GeneralWisdom => "General Wisdom"
  }

  /** A category rule: the category it assigns and the keywords that fire it. */
  datatype Rule = Rule(category: Category, keywords: seq<string>)

  /** The rules in the order they are tried; the first that fires wins. */
  const Rules: seq<Rule> := [
    Rule(TechnologyFuture, ["ai", "technology", "digital", "automation", "virtual", "augmented"]),
    Rule(BiologyHealth, ["health", "biology", "body", "brain", "genetic", "medical", "wellness"]),
    Rule(GenerationAlphaYouth, ["children", "generation", "youth", "education", "learning", "young"]),
    Rule(SystemsAlignment, ["system", "integration", "alignment", "harmony", "balance", "holistic"]),
    Rule(EthicsWisdom, ["ethics", "values", "wisdom", "meaning", "purpose", "consciousness"]),
    Rule(EnvironmentSustainability, ["environment", "nature", "planet", "sustainability", "earth", "climate"]),
    Rule(LeadershipVision, ["leadership", "transform", "vision", "change", "innovation"]),
    Rule(PersonalGrowth, ["growth", "development", "learning", "mindset", "creativity"]),
    Rule(RelationshipsCommunity, ["relationship", "community", "collaboration", "social", "connection"])
  ]

  /** `any(word in text for word in keywords)`. */
  function AnyContains(text: string, keywords: seq<string>): (r: bool)
    ensures r <==> exists i :: 0 <= i < |keywords| && Contains(text, keywords[i])
  {
    if |keywords| == 0 then false
    else Contains(text, keywords[0]) || AnyContains(text, keywords[1..])
  }

  predicate Fires(text: string, rule: Rule) {
    AnyContains(text, rule.keywords)
  }

  /** Position of the first rule of `rules` that fires on `text`, or
      `|rules|` when none does. */
  function FirstFiring(text: string, rules: seq<Rule>): (k: nat)
    ensures k <= |rules|
    ensures forall j :: 0 <= j < k ==> !Fires(text, rules[j])
    ensures k < |rules| ==> Fires(text, rules[k])
  {
    if |rules| == 0 then 0
    else if Fires(text, rules[0]) then 0
    else 1 + FirstFiring(text, rules[1..])
  }

  /** The script's `categorize_question`: the category of the first rule with
      a keyword in the lower-cased text, or "General Wisdom". The result is
      "General Wisdom" exactly when no rule fires; otherwise it is the
      category of a rule that fires and that no earlier rule pre-empts. */
  function Categorize(questionText: string): (category: Category)
    ensures category == GeneralWisdom <==> forall j :: 0 <= j < |Rules| ==> !Fires(Lower(questionText), Rules[j])
    ensures category != GeneralWisdom ==>
      exists k :: 0 <= k < |Rules| && Rules[k].category == category && Fires(Lower(questionText), Rules[k])
        && forall j :: 0 <= j < k ==> !Fires(Lower(questionText), Rules[j])
  {
    var textLower := Lower(questionText);
    var k := FirstFiring(textLower, Rules);
    assert forall j :: 0 <= j < |Rules| ==> Rules[j].category != GeneralWisdom;
    if k < |Rules| then Rules[k].category else GeneralWisdom
  }

  /** Case never changes the category. */
  lemma CategorizeIgnoresCase(questionText: string)
    ensures Categorize(Lower(questionText)) == Categorize(questionText)
  {
    LowerIdempotent(questionText);
  }

  /** The rule order is load-bearing: a text with a technology keyword is
      "Technology & Future" whatever else it mentions. */
  lemma TechnologyRuleWins(questionText: string, i: nat)
    requires i < |Rules[0].keywords|
    requires Contains(Lower(questionText), Rules[0].keywords[i])
    ensures Categorize(questionText) == TechnologyFuture
  {
  }

  /** 'ai' is matched literally, so any question containing the word "again"
      is a technology question. */
  lemma AgainMeansTechnology(questionText: string)
    requires Contains(Lower(questionText), "again")
    ensures Categorize(questionText) == TechnologyFuture
  {
    assert OccursAt("again", "ai", 2);
    ContainsAt("again", "ai", 2);
    ContainsTransitive(Lower(questionText), "again", "ai");
    TechnologyRuleWins(questionText, 0);
  }

  /** 'learning' is listed under both "Generation Alpha & Youth" and
      "Personal Growth"; the earlier rule always takes it, so a text that
      mentions learning is never "Personal Growth". */
  lemma LearningNeverPersonalGrowth(questionText: string)
    requires Contains(Lower(questionText), "learning")
    ensures Categorize(questionText) != PersonalGrowth
  {
    var t := Lower(questionText);
    var kws := Rules[2].keywords;
    assert kws[4] == "learning";
    assert Fires(t, Rules[2]);
    var k := FirstFiring(t, Rules);
    assert k <= 2;
  }
}
