/** The Bias Radar page (`Index`): its state, the handler of the Analyze
    button (`handleAnalyze`) and the colour of the score badge (`getBiasColor`). */
module Page {
  import opened Text
  import opened Analyzer

  /** A result slot that holds a result or, initially, none (`AnalysisResult | null`). */
  datatype Option<T> = None | Some(value: T)

  /** The notification a run of the handler shows. */
  datatype Notice = MissingArticles | AnalysisComplete

  const NeutralSummaryText :=
    "Based on analysis of both articles, this topic presents "
    + "multiple perspectives with varying approaches to framing and "
    + "emphasis. A comprehensive understanding requires considering "
    + "the different methodologies, evidence types, and stakeholder "
    + "viewpoints presented across both sources."

  const ComparativeInsightText :=
    "The articles differ significantly in their approach and "
    + "emphasis. While one focuses more on immediate concerns and "
    + "emotional impact, the other takes a more analytical stance. "
    + "Readers should consider both the quantitative data and "
    + "qualitative experiences presented to form a balanced "
    + "understanding of the issue."

  const Green := "bg-green-500"
  const Yellow := "bg-yellow-500"
  const Red := "bg-red-500"

  /** `getBiasColor`: the badge colour for a score. */
  function GetBiasColor(bias: real): (c: string)
    ensures c == Green || c == Yellow || c == Red
  {
    if bias < 3.0 then Green
    else if bias < 6.0 then Yellow
    else Red
  }

  /** The colours partition the scores: below 3, in [3, 6), from 6 up. */
  lemma BiasColorPartition(bias: real)
    ensures GetBiasColor(bias) == Green <==> bias < 3.0
    ensures GetBiasColor(bias) == Yellow <==> 3.0 <= bias < 6.0
    ensures GetBiasColor(bias) == Red <==> bias >= 6.0
  {
  }

  /** A higher score never gets a milder colour. */
  lemma BiasColorMonotone(s: real, t: real)
    requires s <= t
    ensures GetBiasColor(s) == Red ==> GetBiasColor(t) == Red
    ensures GetBiasColor(t) == Green ==> GetBiasColor(s) == Green
  {
    BiasColorPartition(s);
    BiasColorPartition(t);
  }

  /** The badge shown for a result colours its stored, rounded score. */
  function BadgeColor(r: AnalysisResult): string {
    GetBiasColor(r.biasScore)
  }

  /** Although the badge colours the rounded score and the explanation reads the
      unrounded one, a "High" explanation always comes with a red badge, and a
      green badge always with the "Relatively neutral" explanation. */
  lemma BadgeAgreesWithExplanation(text: string, d: Draws)
    requires ValidDraws(d)
    ensures var r := AnalyzeText(text, d);
      (r.biasExplanation == HighExplanation ==> BadgeColor(r) == Red)
      && (BadgeColor(r) == Green ==> r.biasExplanation == NeutralExplanation)
  {
    var r := AnalyzeText(text, d);
    var score := Score(text, d.offset);
    ExplanationPartition(score);
    BiasColorPartition(r.biasScore);
  }

  /** The state of the page between user actions. */
  class PageState {
    var article1: string
    var article2: string
    var analysis1: Option<AnalysisResult>
    var analysis2: Option<AnalysisResult>
    var isAnalyzing: bool
    var neutralSummary: string
    var comparativeInsight: string

    /** Between two actions the page is not busy, it holds both results or
        neither, and the two narrative texts are set exactly when it holds them. */
    ghost predicate Valid()
      reads this
    {
      !isAnalyzing
      && analysis1.Some? == analysis2.Some?
      && if analysis1.Some? then
           neutralSummary == NeutralSummaryText && comparativeInsight == ComparativeInsightText
         else
           neutralSummary == "" && comparativeInsight == ""
    }

    /** `analysis1 && analysis2`: whether the result tabs are shown. */
    predicate ShowsResults()
      reads this
    {
      analysis1.Some? && analysis2.Some?
    }

    /** The initial values of the page's `useState` hooks. */
    constructor ()
      ensures Valid()
      ensures article1 == "" && article2 == ""
      ensures analysis1 == None && analysis2 == None
      ensures !isAnalyzing && neutralSummary == "" && comparativeInsight == ""
    {
      article1, article2 := "", "";
      analysis1, analysis2 := None, None;
      isAnalyzing := false;
      neutralSummary, comparativeInsight := "", "";
    }

    /** Typing into the first text area. */
    method SetArticle1(text: string)
      requires Valid()
      modifies this`article1
      ensures Valid() && article1 == text
    {
      article1 := text;
    }

    /** Typing into the second text area. */
    method SetArticle2(text: string)
      requires Valid()
      modifies this`article2
      ensures Valid() && article2 == text
    {
      article2 := text;
    }

    /** `handleAnalyze`, with the two analyses run one after the other on the
        given draws. A blank article stops the run before anything changes;
        otherwise both results are stored and the narrative texts are set to
        their fixed wording, whatever the articles say. */
    method HandleAnalyze(d1: Draws, d2: Draws) returns (notice: Notice)
      requires Valid() && ValidDraws(d1) && ValidDraws(d2)
      modifies this
      ensures Valid()
      ensures article1 == old(article1) && article2 == old(article2)
      ensures notice == MissingArticles <==> IsBlank(old(article1)) || IsBlank(old(article2))
      ensures notice == MissingArticles ==> unchanged(this)
      ensures notice == AnalysisComplete ==>
        analysis1 == Some(AnalyzeText(old(article1), d1))
        && analysis2 == Some(AnalyzeText(old(article2), d2))
        && neutralSummary == NeutralSummaryText
        && comparativeInsight == ComparativeInsightText
        && ShowsResults()
    {
      var text1, text2 := article1, article2;
      if IsBlank(text1) || IsBlank(text2) {
        notice := MissingArticles;
        return;
      }
      isAnalyzing := true;
      var result1 := AnalyzeText(text1, d1);
      var result2 := AnalyzeText(text2, d2);
      Finish(result1, result2);
      notice := AnalysisComplete;
    }

    /** The end of a run: both results are stored, the narrative texts are
        set and the page stops being busy. */
    method Finish(result1: AnalysisResult, result2: AnalysisResult)
      modifies this
      ensures Valid()
      ensures article1 == old(article1) && article2 == old(article2)
      ensures analysis1 == Some(result1) && analysis2 == Some(result2)
      ensures neutralSummary == NeutralSummaryText && comparativeInsight == ComparativeInsightText
    {
      analysis1 := Some(result1);
      analysis2 := Some(result2);
      neutralSummary := NeutralSummaryText;
      comparativeInsight := ComparativeInsightText;
      isAnalyzing := false;
    }
  }

  /** A page whose first article is still empty refuses to run; once both
      articles hold text, a run shows the results. */
  method BlankArticleBlocksRun(article: string, d: Draws) returns (first: Notice, second: Notice)
    requires !IsBlank(article) && ValidDraws(d)
    ensures first == MissingArticles && second == AnalysisComplete
  {
    var page := new PageState();
    page.SetArticle2(article);
    assert IsBlank("") by {
      BlankIffAllSpace("");
    }
    first := page.HandleAnalyze(d, d);
    assert !page.isAnalyzing && page.analysis1 == None && page.analysis2 == None;
    page.SetArticle1(article);
    second := page.HandleAnalyze(d, d);
    assert page.ShowsResults();
  }
}
