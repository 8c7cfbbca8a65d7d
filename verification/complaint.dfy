/**
 * The lexical complaint detector shared, word for word, by both analyzers:
 * a keyword test on the lower-cased tokens of the context and a substring
 * test of fixed phrases on the lower-cased context.
 */
module Complaint {
  import opened Text
  import opened Sentiment

  /** The keyword list; a token matches when its lower-cased text is one of these. */
  const ComplaintKeywords: seq<string> :=
    ["bad", "terrible", "awful", "horrible", "disappointed", "never again",
     "poor", "worst", "unacceptable", "avoid", "waste", "ripoff"]

  /** The phrase list; a phrase matches when it occurs in the lower-cased context. */
  const ComplaintPhrases: seq<string> :=
    ["not worth", "would not recommend", "stay away", "never coming back"]

  /** The NLP pipeline's tokenisation: the texts of the tokens of a document. */
  type Tokenizer = string -> seq<string>

  /** `token.text.lower() in complaint_keywords`. */
  predicate IsKeywordToken(token: string)
  {
    Lower(token) in ComplaintKeywords
  }

  /** `any(token.text.lower() in complaint_keywords for token in doc)`. */
  function AnyKeywordToken(tokens: seq<string>): (r: bool)
    ensures r <==> exists i :: 0 <= i < |tokens| && IsKeywordToken(tokens[i])
  {
    if tokens == [] then false
    else IsKeywordToken(tokens[0]) || AnyKeywordToken(tokens[1..])
  }

  /** `_detect_complaint_with_context`: keyword token or phrase, both on the context. */
  function DetectComplaint(tokenize: Tokenizer, text: string, similar: seq<string>): (r: bool)
    ensures r <==>
      (exists i :: 0 <= i < |tokenize(Context(text, similar))| && IsKeywordToken(tokenize(Context(text, similar))[i])) ||
      (exists j :: 0 <= j < |ComplaintPhrases| && Contains(Lower(Context(text, similar)), ComplaintPhrases[j]))
  {
    var combined := Context(text, similar);
    AnyKeywordToken(tokenize(combined)) || ContainsAny(Lower(combined), ComplaintPhrases)
  }

  /**
   * The new text is the suffix of its context, so a phrase found in the text
   * alone is found with any neighbours too.
   */
  lemma PhraseInTextFlagsComplaint(tokenize: Tokenizer, text: string, similar: seq<string>, j: nat)
    requires j < |ComplaintPhrases| && Contains(Lower(text), ComplaintPhrases[j])
    ensures DetectComplaint(tokenize, text, similar)
  {
    ContextShape(text, similar);
    if similar != [] {
      var u := Join(" ", similar) + " ";
      LowerAppend(u, text);
      ContainsInSuffix(Lower(u), Lower(text), ComplaintPhrases[j]);
    }
    assert Contains(Lower(Context(text, similar)), ComplaintPhrases[j]);
  }

  /**
   * The two-word keyword "never again" matches only a token that contains a
   * space: a tokenizer that splits on spaces never produces a hit on it.
   */
  lemma SpacelessTokenMissesNeverAgain(token: string)
    requires forall i :: 0 <= i < |token| ==> token[i] != ' '
    ensures Lower(token) != "never again"
  {
    var lowered := Lower(token);
    if |token| == 11 {
      assert token[5] != ' ';
      LowerKeepsSpaces(token[5]);
      assert lowered[5] != "never again"[5];
    }
  }
}
