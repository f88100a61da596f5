/**
 The embedding scorer of the batch tool, from the point where the five
 cosine similarities between a question and the mission themes are known:
 the weighted alignment score, the primary theme (the theme of highest
 similarity, the earliest in theme order among equals) and the category that
 theme maps to. The similarities themselves come from a sentence-embedding
 model and are inputs here.
 */
module EmbeddingScorer {

  /** The mission themes, in the order the script defines them. */
  datatype Theme = Technology | Biology | Humanity | GenerationAlpha | Systems

  /** The order in which themes are visited, which decides ties. */
  const ThemeOrder: seq<Theme> := [Technology, Biology, Humanity, GenerationAlpha, Systems]

  /** A question's cosine similarity to each theme. */
  datatype Similarities = Similarities(
    technology: real, biology: real, humanity: real, generationAlpha: real, systems: real)

  function Sim(s: Similarities, t: Theme): real
  {
    match t
    case Technology => s.technology
    case Biology => s.biology
    case Humanity => s.humanity
    case GenerationAlpha => s.generationAlpha
    case Systems => s.systems
  }

  /** The weight each theme carries in the alignment score; the Generation
      Alpha theme weighs most. */
  function Weight(t: Theme): real
  {
    match t
    case Technology => 1.5
    case Biology => 1.5
    case Humanity => 1.0
    case GenerationAlpha => 2.0
    case Systems => 1.2
  }

  /** Cosine similarities lie in [-1, 1]. */
  predicate InUnitRange(s: Similarities)
  {
    && -1.0 <= s.technology <= 1.0
    && -1.0 <= s.biology <= 1.0
    && -1.0 <= s.humanity <= 1.0
    && -1.0 <= s.generationAlpha <= 1.0
    && -1.0 <= s.systems <= 1.0
  }

  /** The weighted sum over a list of themes. */
  function WeightedSum(ts: seq<Theme>, s: Similarities): real
  {
    if |ts| == 0 then 0.0 else Weight(ts[0]) * Sim(s, ts[0]) + WeightedSum(ts[1..], s)
  }

  /** The script's alignment score. Since the weights add up to 7.2, a score
      of similarities within [-1, 1] lies within [-7.2, 7.2]. */
  function AlignmentScore(s: Similarities): (score: real)
    ensures InUnitRange(s) ==> -7.2 <= score <= 7.2
  {
    s.technology * 1.5 + s.biology * 1.5 + s.humanity * 1.0 + s.generationAlpha * 2.0 + s.systems * 1.2
  }

  /** The alignment score is the theme-weighted sum of the similarities. */
  lemma AlignmentIsWeightedSum(s: Similarities)
    ensures AlignmentScore(s) == WeightedSum(ThemeOrder, s)
  {
    var ts := ThemeOrder;
    assert WeightedSum(ts[5..], s) == 0.0;
    assert WeightedSum(ts[4..], s) == 1.2 * s.systems;
    assert WeightedSum(ts[3..], s) == 2.0 * s.generationAlpha + 1.2 * s.systems;
    assert WeightedSum(ts[2..], s) == 1.0 * s.humanity + 2.0 * s.generationAlpha + 1.2 * s.systems;
    assert WeightedSum(ts[1..], s)
        == 1.5 * s.biology + 1.0 * s.humanity + 2.0 * s.generationAlpha + 1.2 * s.systems;
  }

  /** Raising any similarity never lowers the alignment score. */
  lemma AlignmentMonotone(a: Similarities, b: Similarities)
    requires forall t :: Sim(a, t) <= Sim(b, t)
    ensures AlignmentScore(a) <= AlignmentScore(b)
  {
    assert Sim(a, Technology) <= Sim(b, Technology);
    assert Sim(a, Biology) <= Sim(b, Biology);
    assert Sim(a, Humanity) <= Sim(b, Humanity);
    assert Sim(a, GenerationAlpha) <= Sim(b, GenerationAlpha);
    assert Sim(a, Systems) <= Sim(b, Systems);
  }

  // ---------------------------------------------------------------------
  // Primary theme

  /** Position in `ts` of the first element of highest similarity, the
      element Python's `max(..., key=...)` returns: it replaces its candidate
      only on a strictly greater value. */
  function FirstMaxIndex(ts: seq<Theme>, s: Similarities): (k: nat)
    requires |ts| > 0
    ensures k < |ts|
    ensures forall i :: 0 <= i < |ts| ==> Sim(s, ts[i]) <= Sim(s, ts[k])
    ensures forall i :: 0 <= i < k ==> Sim(s, ts[i]) < Sim(s, ts[k])
  {
    if |ts| == 1 then 0
    else
      var b := FirstMaxIndex(ts[..|ts| - 1], s);
      assert forall i :: 0 <= i < |ts| - 1 ==> ts[..|ts| - 1][i] == ts[i];
      if Sim(s, ts[|ts| - 1]) > Sim(s, ts[b]) then |ts| - 1 else b
  }

  function Position(t: Theme): (i: nat)
    ensures i < |ThemeOrder| && ThemeOrder[i] == t
  {
    match t
    case Technology => 0
    case Biology => 1
    case Humanity => 2
    case GenerationAlpha => 3
    case Systems => 4
  }

  /** The theme of highest similarity; among equal maxima, the earliest in
      theme order. */
  function PrimaryTheme(s: Similarities): (t: Theme)
    ensures forall u :: Sim(s, u) <= Sim(s, t)
    ensures forall u :: Position(u) < Position(t) ==> Sim(s, u) < Sim(s, t)
  {
    var k := FirstMaxIndex(ThemeOrder, s);
    var t := ThemeOrder[k];
    assert Position(t) == k;
    forall u ensures Sim(s, u) <= Sim(s, t) {
      assert ThemeOrder[Position(u)] == u;
    }
    t
  }

  /** The two properties characterise the primary theme: a theme is primary
      exactly when its similarity is maximal and every earlier theme's is
      strictly lower. */
  lemma PrimaryThemeIff(s: Similarities, t: Theme)
    ensures PrimaryTheme(s) == t <==>
      (forall u :: Sim(s, u) <= Sim(s, t)) && (forall u :: Position(u) < Position(t) ==> Sim(s, u) < Sim(s, t))
  {
    var p := PrimaryTheme(s);
    if (forall u :: Sim(s, u) <= Sim(s, t)) && (forall u :: Position(u) < Position(t) ==> Sim(s, u) < Sim(s, t)) {
      assert Sim(s, p) <= Sim(s, t) && Sim(s, t) <= Sim(s, p);
      assert Position(p) == Position(t);
    }
  }

  /** When technology and biology tie for the highest similarity, the
      question is a technology question. */
  lemma TieGoesToTechnology(s: Similarities)
    requires s.technology == s.biology
    requires forall u :: Sim(s, u) <= s.technology
    ensures PrimaryTheme(s) == Technology
  {
    PrimaryThemeIff(s, Technology);
  }

  // ---------------------------------------------------------------------
  // Category

  /** The script's `category_map`. */
  function ThemeCategory(t: Theme): string
  {
    match t
    case Technology => "Technology & Future"
    case Biology => "Biology & Health"
    case Humanity => "Ethics & Humanity"
    case GenerationAlpha => "Generation Alpha"
    case Systems => "Systems & Integration"
  }

  const Categories: set<string> := {
    "Technology & Future", "Biology & Health", "Ethics & Humanity", "Generation Alpha", "Systems & Integration"
  }

  /** The category of a question: the label of its primary theme. It is one
      of the five labels, and the label identifies the theme it came from. */
  function Category(s: Similarities): (category: string)
    ensures category in Categories
    ensures forall t :: ThemeCategory(t) == category <==> t == PrimaryTheme(s)
  {
    ThemeCategory(PrimaryTheme(s))
  }
}
