/**
 * The context window and the two versions of sentiment scoring: the backend
 * analyzer turns the classifier's label and confidence into a signed score,
 * the legacy analyzer stores the classifier's result unchanged.
 */
module Sentiment {
  import opened Text
  import opened Records

  /** `" ".join(similar + [text])`: the neighbours in retrieval order, the new text last. */
  function Context(text: string, similar: seq<string>): string
  {
    Join(" ", similar + [text])
  }

  /** Without neighbours the context is the text itself; otherwise the text follows one space. */
  lemma ContextShape(text: string, similar: seq<string>)
    ensures Context(text, similar) == if similar == [] then text else Join(" ", similar) + " " + text
  {
    JoinSnoc(" ", similar, text);
  }

  /** The text to classify: the text alone without neighbours, the joined context otherwise. */
  function ClassifierInput(text: string, similar: seq<string>): (r: string)
    ensures r == Context(text, similar)
  {
    if similar == [] then text else Context(text, similar)
  }

  /**
   * `_analyze_sentiment_with_context` of the backend analyzer: the label is
   * kept, the confidence is negated for every label other than POSITIVE.
   */
  function AnalyzeSentiment(classify: string -> Prediction, text: string, similar: seq<string>): (r: Prediction)
    ensures r.polarity == classify(Context(text, similar)).polarity
    ensures var c := classify(Context(text, similar)).score;
      (r.score == c || r.score == -c) &&
      (0.0 <= c <= 1.0 ==>
        -1.0 <= r.score <= 1.0 &&
        (r.polarity == Positive ==> r.score >= 0.0) &&
        (r.polarity != Positive ==> r.score <= 0.0))
  {
    var result := classify(ClassifierInput(text, similar));
    Prediction(result.polarity, if result.polarity == Positive then result.score else -result.score)
  }

  /** A NEUTRAL label is negated like NEGATIVE, not mapped to zero. */
  lemma NeutralIsNegated(classify: string -> Prediction, text: string, similar: seq<string>)
    requires classify(Context(text, similar)).polarity == Neutral
    ensures AnalyzeSentiment(classify, text, similar).score == -classify(Context(text, similar)).score
  {
  }

  /** `_analyze_sentiment_with_context` of the legacy analyzer: the classifier's result as it is. */
  function AnalyzeSentimentLegacy(classify: string -> Prediction, text: string, similar: seq<string>): (r: Prediction)
    ensures r == classify(Context(text, similar))
    ensures ClassifierSound(classify) ==> 0.0 <= r.score <= 1.0
  {
    if similar == [] then classify(text) else classify(Context(text, similar))
  }

  /** The backend score is the legacy score with the sign of the label applied. */
  lemma BackendSignsLegacy(classify: string -> Prediction, text: string, similar: seq<string>)
    ensures var legacy := AnalyzeSentimentLegacy(classify, text, similar);
      AnalyzeSentiment(classify, text, similar) ==
        Prediction(legacy.polarity, if legacy.polarity == Positive then legacy.score else -legacy.score)
  {
  }

  /**
   * The legacy score does not encode polarity: any prediction other than
   * POSITIVE with a positive confidence is stored as a positive number by
   * the legacy analyzer and as a negative one by the backend.
   */
  lemma LegacyScoreIgnoresPolarity(classify: string -> Prediction, text: string, similar: seq<string>)
    requires classify(Context(text, similar)).polarity != Positive
    requires classify(Context(text, similar)).score > 0.0
    ensures AnalyzeSentimentLegacy(classify, text, similar).score > 0.0
    ensures AnalyzeSentiment(classify, text, similar).score < 0.0
  {
  }
}
