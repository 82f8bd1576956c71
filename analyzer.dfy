/** The mock text analyser of the Bias Radar page (`analyzeText`).
    Each of the six `Math.random()` values it draws is a parameter, so the
    analysis is a function from the text and those draws to a result. */
module Analyzer {
  import opened Text
  import opened Lists

  const EmotionalWords: seq<string> := [
    "amazing", "terrible", "shocking", "incredible", "devastating", "wonderful", "awful",
    "fantastic", "horrible", "brilliant", "crisis", "urgent", "critical", "alarming", "breakthrough"
  ]

  const BiasWords: seq<string> := [
    "clearly", "obviously", "everyone knows", "it's certain", "without doubt",
    "definitely", "absolutely", "undeniably", "experts agree", "studies show"
  ]

  /** The entries of BiasWords that are a single word. */
  const SingleWordBiasWords: seq<string> := [
    "clearly", "obviously", "definitely", "absolutely", "undeniably"
  ]

  const Tones: seq<string> := [
    "Neutral and factual", "Emotionally charged", "Urgently persuasive", "Analytically detached",
    "Alarmist", "Optimistic", "Skeptical"
  ]

  const Sentiments: seq<string> := ["Positive", "Negative", "Neutral", "Mixed"]

  const FramingEmphasis: seq<string> := [
    "Economic impact and statistics", "Personal stories and anecdotes", "Expert opinions and research",
    "Government policy implications", "Long-term consequences"
  ]

  const FramingOmissions: seq<string> := [
    "Alternative viewpoints", "Potential counterarguments", "Historical context",
    "Economic costs of proposed solutions"
  ]

  const KeyThemes: seq<string> := [
    "Environmental concerns", "Economic implications", "Public health considerations",
    "Policy recommendations", "Industry response"
  ]

  const HighExplanation := "High use of emotional language and definitive statements without sufficient evidence or counterpoints."
  const ModerateExplanation := "Moderate bias through selective emphasis and some emotionally charged language."
  const NeutralExplanation := "Relatively neutral presentation with balanced language and multiple perspectives."

  const SummaryLength := 120
  const Ellipsis := "..."
  const MaxEmotionalLanguage := 4

  /** The record one analysis produces (`AnalysisResult`). */
  datatype AnalysisResult = AnalysisResult(
    tone: string,
    sentiment: string,
    biasScore: real,
    emotionalLanguage: seq<string>,
    framingEmphasis: seq<string>,
    framingOmissions: seq<string>,
    keyThemes: seq<string>,
    biasExplanation: string,
    summary: string)

  /** The six `Math.random()` values one analysis draws, in the order it draws them. */
  datatype Draws = Draws(offset: real, tone: real, sentiment: real, emphasis: real, omissions: real, themes: real)

  /** A value `Math.random()` can return. */
  predicate IsUnit(u: real) {
    0.0 <= u < 1.0
  }

  predicate ValidDraws(d: Draws) {
    IsUnit(d.offset) && IsUnit(d.tone) && IsUnit(d.sentiment)
    && IsUnit(d.emphasis) && IsUnit(d.omissions) && IsUnit(d.themes)
  }

  /** `Math.floor(u * n)`: an index into a list of n elements. */
  function PickIndex(u: real, n: nat): (i: nat)
    requires IsUnit(u) && n > 0
    ensures i < n
  {
    assert 0.0 <= u * n as real < n as real;
    (u * n as real).Floor
  }

  /** `list[Math.floor(u * list.length)]`: a uniformly drawn entry of a non-empty list. */
  function Pick(list: seq<string>, u: real): (s: string)
    requires IsUnit(u) && |list| > 0
    ensures s in list
  {
    list[PickIndex(u, |list|)]
  }

  /** `list.slice(0, base + Math.floor(u * 2))`: a prefix of list of length base or base + 1. */
  function DrawPrefix(list: seq<string>, base: nat, u: real): (r: seq<string>)
    requires IsUnit(u) && base < |list|
    ensures base <= |r| <= base + 1
    ensures r == list[..|r|]
  {
    Take(list, base + PickIndex(u, 2))
  }

  /** The words of the text: `text.toLowerCase().split(/\s+/)`. */
  function Tokens(text: string): seq<string> {
    Split(Lower(text))
  }

  /** `words.some(w => token.includes(w))`. */
  predicate MatchesAny(token: string, words: seq<string>) {
    words != [] && (Contains(token, words[0]) || MatchesAny(token, words[1..]))
  }

  /** A token matches the list exactly when it contains one of its entries. */
  lemma {:induction false} MatchesAnyIff(token: string, words: seq<string>)
    ensures MatchesAny(token, words) <==> exists k :: 0 <= k < |words| && Contains(token, words[k])
  {
    if words != [] {
      MatchesAnyIff(token, words[1..]);
      assert forall k :: 1 <= k < |words| ==> words[k] == words[1..][k - 1];
    }
  }

  /** `tokens.filter(t => words.some(w => t.includes(w))).length`: how many
      tokens contain at least one of the words. */
  function CountMatching(tokens: seq<string>, words: seq<string>): (n: nat)
    ensures n <= |tokens|
    ensures n == 0 <==> forall k :: 0 <= k < |tokens| ==> !MatchesAny(tokens[k], words)
  {
    if tokens == [] then 0
    else
      assert forall k :: 1 <= k < |tokens| ==> tokens[k] == tokens[1..][k - 1];
      (if MatchesAny(tokens[0], words) then 1 else 0) + CountMatching(tokens[1..], words)
  }

  /** The indices of the tokens that contain at least one of the words. */
  function MatchingIndices(tokens: seq<string>, words: seq<string>): set<nat> {
    set k: nat | k < |tokens| && MatchesAny(tokens[k], words)
  }

  /** The count is the number of tokens that match: the size of the index set. */
  lemma {:induction false} CountMatchingIsCardinality(tokens: seq<string>, words: seq<string>)
    ensures CountMatching(tokens, words) == |MatchingIndices(tokens, words)|
    decreases |tokens|
  {
    if tokens == [] {
      assert MatchingIndices(tokens, words) == {};
    } else {
      var n := |tokens| - 1;
      var init := tokens[..n];
      CountMatchingIsCardinality(init, words);
      CountMatchingAppend(init, [tokens[n]], words);
      OneMatchingWord(tokens[n], words);
      assert tokens == init + [tokens[n]];
      MatchingIndicesOfLast(tokens, words);
    }
  }

  /** The matching indices of tokens are those of all but its last token, plus
      the last index when its token matches. */
  lemma MatchingIndicesOfLast(tokens: seq<string>, words: seq<string>)
    requires tokens != []
    ensures var n := |tokens| - 1;
      MatchingIndices(tokens, words)
      == MatchingIndices(tokens[..n], words) + (if MatchesAny(tokens[n], words) then {n} else {})
  {
    var n := |tokens| - 1;
    assert forall k: nat :: k < n ==> tokens[..n][k] == tokens[k];
  }

  /** Counting over two runs of tokens adds up. */
  lemma {:induction false} CountMatchingAppend(a: seq<string>, b: seq<string>, words: seq<string>)
    ensures CountMatching(a + b, words) == CountMatching(a, words) + CountMatching(b, words)
    decreases |a|
  {
    if a == [] {
      assert a + b == b;
    } else {
      assert (a + b)[1..] == a[1..] + b;
      CountMatchingAppend(a[1..], b, words);
    }
  }

  function EmotionalCount(text: string): nat {
    CountMatching(Tokens(text), EmotionalWords)
  }

  function BiasCount(text: string): nat {
    CountMatching(Tokens(text), BiasWords)
  }

  /** `Math.min(10, Math.max(0, x))`. */
  function Clamp(x: real): (r: real)
    ensures 0.0 <= r <= 10.0
    ensures 0.0 <= x <= 10.0 ==> r == x
    ensures x > 10.0 ==> r == 10.0
    ensures x < 0.0 ==> r == 0.0
  {
    if x > 10.0 then 10.0 else if x < 0.0 then 0.0 else x
  }

  /** `biasCount * 2 + emotionalCount * 1.5 + Math.random() * 2`; never negative,
      so the lower clamp never applies. */
  function RawScore(biasCount: nat, emotionalCount: nat, u: real): (x: real)
    requires IsUnit(u)
    ensures x >= 0.0
  {
    biasCount as real * 2.0 + emotionalCount as real * 1.5 + u * 2.0
  }

  /** The clamped, unrounded score of a text for a given offset draw. */
  function Score(text: string, u: real): (score: real)
    requires IsUnit(u)
    ensures 0.0 <= score <= 10.0
  {
    Clamp(RawScore(BiasCount(text), EmotionalCount(text), u))
  }

  /** `Math.round(x * 10) / 10`, where `Math.round` rounds halves up. */
  function RoundTenth(x: real): (r: real)
    ensures x - 0.05 < r <= x + 0.05
    ensures (r * 10.0).Floor as real == r * 10.0
    ensures 0.0 <= x <= 10.0 ==> 0.0 <= r <= 10.0
  {
    var n := (x * 10.0 + 0.5).Floor;
    assert n as real <= x * 10.0 + 0.5 < n as real + 1.0;
    n as real / 10.0
  }

  /** The explanation sentence for a score: above 7, above 4, or neither. */
  function Explanation(score: real): string {
    if score > 7.0 then HighExplanation
    else if score > 4.0 then ModerateExplanation
    else NeutralExplanation
  }

  /** `words.filter(w => hay.includes(w))`: the words that occur in hay, in list order. */
  function Occurring(words: seq<string>, hay: string): seq<string> {
    if words == [] then []
    else if Contains(hay, words[0]) then [words[0]] + Occurring(words[1..], hay)
    else Occurring(words[1..], hay)
  }

  /** The filter keeps, in order, exactly the words that occur in hay. */
  lemma {:induction false} OccurringKeeps(words: seq<string>, hay: string)
    ensures |Occurring(words, hay)| <= |words|
    ensures IsSubsequence(Occurring(words, hay), words)
    ensures forall k :: 0 <= k < |Occurring(words, hay)| ==> Contains(hay, Occurring(words, hay)[k])
    ensures forall k :: 0 <= k < |words| && Contains(hay, words[k]) ==> words[k] in Occurring(words, hay)
  {
    if words != [] {
      var rest := Occurring(words[1..], hay);
      OccurringKeeps(words[1..], hay);
      assert forall k :: 1 <= k < |words| ==> words[k] == words[1..][k - 1];
      if Contains(hay, words[0]) {
        var r := [words[0]] + rest;
        assert r[1..] == rest;
      } else {
        assert rest != [] ==> Contains(hay, rest[0]);
      }
    }
  }

  /** Filtering a list in two parts filters each part. */
  lemma {:induction false} OccurringAppend(a: seq<string>, b: seq<string>, hay: string)
    ensures Occurring(a + b, hay) == Occurring(a, hay) + Occurring(b, hay)
    decreases |a|
  {
    if a == [] {
      assert a + b == b;
    } else {
      assert (a + b)[1..] == a[1..] + b;
      OccurringAppend(a[1..], b, hay);
    }
  }

  /** An occurring word that the first n kept words leave out comes after n
      kept words, all of them earlier in the list. */
  lemma MissingWordComesLate(words: seq<string>, hay: string, n: nat, k: nat)
    requires k < |words| && Contains(hay, words[k])
    requires words[k] !in Take(Occurring(words, hay), n)
    ensures |Take(Occurring(words, hay), n)| == n
    ensures forall j :: 0 <= j < n ==> Take(Occurring(words, hay), n)[j] in words[..k]
  {
    var a, b := words[..k], words[k..];
    assert words == a + b;
    OccurringAppend(a, b, hay);
    assert b[1..] == words[k + 1..];
    var early := Occurring(a, hay);
    assert Occurring(b, hay) == [words[k]] + Occurring(b[1..], hay);
    var found := Occurring(words, hay);
    assert found[|early|] == words[k];
    assert |early| >= n;
    OccurringKeeps(a, hay);
    SubsequenceMembers(early, a);
    assert forall j :: 0 <= j < n ==> found[j] == early[j];
  }

  /** `emotionalWords.filter(w => text.toLowerCase().includes(w)).slice(0, 4)`. */
  function EmotionalLanguage(text: string): seq<string> {
    Take(Occurring(EmotionalWords, Lower(text)), MaxEmotionalLanguage)
  }

  /** The emotional language reported: at most four emotional words, in list
      order, each occurring in the lower-cased text; when fewer than four are
      reported, no emotional word of the text is missing. */
  lemma EmotionalLanguageFound(text: string)
    ensures |EmotionalLanguage(text)| <= MaxEmotionalLanguage
    ensures IsSubsequence(EmotionalLanguage(text), EmotionalWords)
    ensures forall w :: w in EmotionalLanguage(text) ==> w in EmotionalWords
    ensures forall k :: 0 <= k < |EmotionalLanguage(text)| ==> Contains(Lower(text), EmotionalLanguage(text)[k])
    ensures |EmotionalLanguage(text)| < MaxEmotionalLanguage ==>
      forall k :: 0 <= k < |EmotionalWords| && Contains(Lower(text), EmotionalWords[k]) ==>
        EmotionalWords[k] in EmotionalLanguage(text)
    ensures forall k ::
      (0 <= k < |EmotionalWords| && Contains(Lower(text), EmotionalWords[k])
       && EmotionalWords[k] !in EmotionalLanguage(text)) ==>
        |EmotionalLanguage(text)| == MaxEmotionalLanguage
        && forall j :: 0 <= j < MaxEmotionalLanguage ==> EmotionalLanguage(text)[j] in EmotionalWords[..k]
  {
    forall k | 0 <= k < |EmotionalWords| && Contains(Lower(text), EmotionalWords[k])
      && EmotionalWords[k] !in EmotionalLanguage(text)
      ensures |EmotionalLanguage(text)| == MaxEmotionalLanguage
      ensures forall j :: 0 <= j < MaxEmotionalLanguage ==> EmotionalLanguage(text)[j] in EmotionalWords[..k]
    {
      MissingWordComesLate(EmotionalWords, Lower(text), MaxEmotionalLanguage, k);
    }
    var found := Occurring(EmotionalWords, Lower(text));
    OccurringKeeps(EmotionalWords, Lower(text));
    SubsequencePrefix(found, EmotionalWords, |EmotionalLanguage(text)|);
    SubsequenceMembers(EmotionalLanguage(text), EmotionalWords);
  }

  /** s is a leading part of text, at most 120 characters long, followed by the ellipsis. */
  predicate IsSummaryOf(s: string, text: string) {
    |Ellipsis| <= |s| <= SummaryLength + |Ellipsis|
    && |s| - |Ellipsis| <= |text|
    && s == text[..|s| - |Ellipsis|] + Ellipsis
  }

  /** `text.substring(0, 120) + '...'`. */
  function Summary(text: string): (r: string)
    ensures IsSummaryOf(r, text)
    ensures |text| <= SummaryLength ==> r == text + Ellipsis
    ensures |text| >= SummaryLength ==> |r| == SummaryLength + |Ellipsis|
  {
    text[..Min(SummaryLength, |text|)] + Ellipsis
  }

  /** `analyzeText`: the analysis of one article for the given draws. */
  function AnalyzeText(text: string, d: Draws): (r: AnalysisResult)
    requires ValidDraws(d)
    ensures r.tone in Tones && r.sentiment in Sentiments
    ensures 0.0 <= r.biasScore <= 10.0
    ensures Score(text, d.offset) - 0.05 < r.biasScore <= Score(text, d.offset) + 0.05
    ensures r.biasExplanation == Explanation(Score(text, d.offset))
    ensures |r.emotionalLanguage| <= MaxEmotionalLanguage
    ensures IsSubsequence(r.emotionalLanguage, EmotionalWords)
    ensures forall k :: 0 <= k < |r.emotionalLanguage| ==> Contains(Lower(text), r.emotionalLanguage[k])
    ensures 3 <= |r.framingEmphasis| <= 4 && r.framingEmphasis == FramingEmphasis[..|r.framingEmphasis|]
    ensures 2 <= |r.framingOmissions| <= 3 && r.framingOmissions == FramingOmissions[..|r.framingOmissions|]
    ensures 3 <= |r.keyThemes| <= 4 && r.keyThemes == KeyThemes[..|r.keyThemes|]
    ensures IsSummaryOf(r.summary, text)
    ensures r.biasScore == RoundTenth(Score(text, d.offset))
    ensures r.emotionalLanguage == EmotionalLanguage(text)
    ensures r.summary == Summary(text)
  {
    EmotionalLanguageFound(text);
    var score := Score(text, d.offset);
    AnalysisResult(
      tone := Pick(Tones, d.tone),
      sentiment := Pick(Sentiments, d.sentiment),
      biasScore := RoundTenth(score),
      emotionalLanguage := EmotionalLanguage(text),
      framingEmphasis := DrawPrefix(FramingEmphasis, 3, d.emphasis),
      framingOmissions := DrawPrefix(FramingOmissions, 2, d.omissions),
      keyThemes := DrawPrefix(KeyThemes, 3, d.themes),
      biasExplanation := Explanation(score),
      summary := Summary(text))
  }

  // ---------------------------------------------------------------------------
  // Properties of the keyword counts

  /** No word of the text contains whitespace. */
  lemma TokensAreSpaceFree(text: string, k: nat)
    requires k < |Tokens(text)|
    ensures SpaceFree(Tokens(text)[k])
  {
    SplitPieces(Lower(text));
  }

  /** The bias phrases with a space in them can never match a word, so the bias
      count is the count of words containing one of the five single-word entries. */
  lemma {:induction false} SpacedBiasPhrasesNeverCount(text: string)
    ensures BiasCount(text) == CountMatching(Tokens(text), SingleWordBiasWords)
  {
    var tokens := Tokens(text);
    forall k | 0 <= k < |tokens|
      ensures MatchesAny(tokens[k], BiasWords) == MatchesAny(tokens[k], SingleWordBiasWords)
    {
      TokensAreSpaceFree(text, k);
      SpaceFreeBiasMatch(tokens[k]);
    }
    CountAgrees(tokens);
  }

  /** Counting with the full bias list and with its single-word entries agrees
      on tokens on which the two lists match alike. */
  lemma {:induction false} CountAgrees(tokens: seq<string>)
    requires forall k :: 0 <= k < |tokens| ==>
      MatchesAny(tokens[k], BiasWords) == MatchesAny(tokens[k], SingleWordBiasWords)
    ensures CountMatching(tokens, BiasWords) == CountMatching(tokens, SingleWordBiasWords)
  {
    if tokens != [] {
      assert forall k :: 0 <= k < |tokens| - 1 ==> tokens[1..][k] == tokens[k + 1];
      CountAgrees(tokens[1..]);
    }
  }

  /** On a word without whitespace, matching the bias list and matching its single-word entries agree. */
  lemma SpaceFreeBiasMatch(token: string)
    requires SpaceFree(token)
    ensures MatchesAny(token, BiasWords) == MatchesAny(token, SingleWordBiasWords)
  {
    MatchesAnyIff(token, BiasWords);
    MatchesAnyIff(token, SingleWordBiasWords);
    if MatchesAny(token, BiasWords) {
      var k :| 0 <= k < |BiasWords| && Contains(token, BiasWords[k]);
      SpacedBiasPhraseAbsent(token, k);
      var j := if k == 0 then 0 else if k == 1 then 1 else if k == 5 then 2 else if k == 6 then 3 else 4;
      assert SingleWordBiasWords[j] == BiasWords[k];
    }
    if MatchesAny(token, SingleWordBiasWords) {
      var j :| 0 <= j < |SingleWordBiasWords| && Contains(token, SingleWordBiasWords[j]);
      assert SingleWordBiasWords[j] == BiasWords[[0, 1, 5, 6, 7][j]];
    }
  }

  /** A word without whitespace contains none of the five bias phrases with a space. */
  lemma SpacedBiasPhraseAbsent(token: string, k: nat)
    requires SpaceFree(token) && k < |BiasWords| && Contains(token, BiasWords[k])
    ensures k in {0, 1, 5, 6, 7}
  {
    if k == 2 { SpacedNeedleNeverContained(token, BiasWords[2], 8); }
    if k == 3 { SpacedNeedleNeverContained(token, BiasWords[3], 4); }
    if k == 4 { SpacedNeedleNeverContained(token, BiasWords[4], 7); }
    if k == 8 { SpacedNeedleNeverContained(token, BiasWords[8], 7); }
    if k == 9 { SpacedNeedleNeverContained(token, BiasWords[9], 7); }
  }

  /** The empty text has one empty word, which contains no keyword. */
  lemma EmptyTextCountsNothing()
    ensures EmotionalCount("") == 0 && BiasCount("") == 0
  {
    EmptyTextIsOneEmptyWord();
    KeywordsNonEmpty();
    NothingCountsInEmptyWord(EmotionalWords);
    NothingCountsInEmptyWord(BiasWords);
  }

  lemma KeywordsNonEmpty()
    ensures forall k :: 0 <= k < |EmotionalWords| ==> EmotionalWords[k] != []
    ensures forall k :: 0 <= k < |BiasWords| ==> BiasWords[k] != []
  {
  }

  lemma EmptyTextIsOneEmptyWord()
    ensures Tokens("") == [""]
  {
    assert Lower("") == "";
  }

  /** No keyword of a list of non-empty keywords occurs in the empty word. */
  lemma NothingCountsInEmptyWord(words: seq<string>)
    requires forall k :: 0 <= k < |words| ==> words[k] != []
    ensures CountMatching([""], words) == 0
  {
    assert !MatchesAny("", words);
  }

  // ---------------------------------------------------------------------------
  // Properties of the score and the explanation

  /** The three explanations partition the scores: above 7, in (4, 7], at most 4. */
  lemma ExplanationPartition(score: real)
    ensures Explanation(score) == HighExplanation <==> score > 7.0
    ensures Explanation(score) == ModerateExplanation <==> 4.0 < score <= 7.0
    ensures Explanation(score) == NeutralExplanation <==> score <= 4.0
  {
  }

  /** A higher score never gets a milder explanation. */
  lemma ExplanationMonotone(s: real, t: real)
    requires s <= t
    ensures Explanation(s) == HighExplanation ==> Explanation(t) == HighExplanation
    ensures Explanation(t) == NeutralExplanation ==> Explanation(s) == NeutralExplanation
  {
    ExplanationPartition(s);
    ExplanationPartition(t);
  }

  /** The explanation is chosen from the unrounded score. It differs from the
      explanation of the rounded score exactly when the unrounded score lies
      just above a cut point, in (4, 4.05) or in (7, 7.05). */
  lemma RoundingChangesExplanation(x: real)
    ensures Explanation(RoundTenth(x)) != Explanation(x) <==> (4.0 < x < 4.05 || 7.0 < x < 7.05)
  {
    var n := (x * 10.0 + 0.5).Floor;
    var r := RoundTenth(x);
    assert r == n as real / 10.0;
    assert n as real <= x * 10.0 + 0.5 < n as real + 1.0;
    ExplanationPartition(x);
    ExplanationPartition(r);
    if 4.0 < x < 4.05 {
      assert n == 40;
    } else if 7.0 < x < 7.05 {
      assert n == 70;
    } else if x <= 4.0 {
      assert n <= 40;
    } else if x <= 7.0 {
      assert 41 <= n <= 70;
    } else {
      assert n >= 71;
    }
  }

  /** A concrete analysis whose stored explanation disagrees with its stored score:
      the one word "clearlyamazing" matches one bias and one emotional keyword, and
      an offset draw of 0.27 makes the unrounded score 4.04, stored as 4.0. */
  lemma StoredExplanationCanDisagreeWithStoredScore()
    ensures var r := AnalyzeText("clearlyamazing", Draws(0.27, 0.0, 0.0, 0.0, 0.0, 0.0));
      r.biasScore == 4.0
      && r.biasExplanation == ModerateExplanation
      && Explanation(r.biasScore) == NeutralExplanation
  {
    var text := "clearlyamazing";
    ExampleCounts();
    assert Score(text, 0.27) == 4.04;
    RoundingChangesExplanation(4.04);
    ExplanationPartition(4.04);
    ExplanationPartition(RoundTenth(4.04));
    assert (4.04 * 10.0 + 0.5).Floor == 40;
  }

  lemma ExampleCounts()
    ensures BiasCount("clearlyamazing") == 1 && EmotionalCount("clearlyamazing") == 1
  {
    ExampleIsOneWord();
    ExampleHasEmotionalWord();
    ExampleHasBiasWord();
    OneMatchingWord("clearlyamazing", EmotionalWords);
    OneMatchingWord("clearlyamazing", BiasWords);
  }

  lemma ExampleHasEmotionalWord()
    ensures MatchesAny("clearlyamazing", EmotionalWords)
  {
    assert OccursAt("clearlyamazing", "amazing", 7);
    assert Contains("clearlyamazing", EmotionalWords[0]);
  }

  lemma ExampleHasBiasWord()
    ensures MatchesAny("clearlyamazing", BiasWords)
  {
    assert OccursAt("clearlyamazing", "clearly", 0);
    assert Contains("clearlyamazing", BiasWords[0]);
  }

  lemma ExampleIsOneWord()
    ensures Tokens("clearlyamazing") == ["clearlyamazing"]
  {
    var text := "clearlyamazing";
    assert forall i :: 0 <= i < |text| ==> 'a' <= text[i] <= 'z';
    LowerLeavesLowercase(text);
    LettersAreSpaceFree(text);
    SplitOneWord(text);
  }

  /** A word without whitespace splits into itself. */
  lemma SplitOneWord(s: string)
    requires SpaceFree(s)
    ensures Split(s) == [s]
  {
    FirstSpaceBounds(s);
    assert s[..|s|] == s;
  }

  /** A single word that contains some keyword counts once. */
  lemma OneMatchingWord(token: string, words: seq<string>)
    ensures CountMatching([token], words) == if MatchesAny(token, words) then 1 else 0
  {
    assert [token][1..] == [];
  }

  /** The fields drawn at random do not depend on the text at all. */
  lemma RandomFieldsIgnoreText(text1: string, text2: string, d: Draws)
    requires ValidDraws(d)
    ensures var r1, r2 := AnalyzeText(text1, d), AnalyzeText(text2, d);
      r1.tone == r2.tone && r1.sentiment == r2.sentiment
      && r1.framingEmphasis == r2.framingEmphasis && r1.framingOmissions == r2.framingOmissions
      && r1.keyThemes == r2.keyThemes
  {
  }
}
