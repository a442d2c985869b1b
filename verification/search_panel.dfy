/** The search panel component (src/components/SearchPanel.jsx): a local
    query buffer, a submit guard, and four trending quick-picks. The
    component's two callbacks are modelled as outputs: the query handed to
    `onSearch`, if any, and whether `onClose` was called. */
module SearchPanel {
  import opened Optional
  import opened JsString

  /** The buffer after a handler ran, what it passed to `onSearch`, and
      whether it called `onClose`. */
  datatype Submission = Submission(buffer: string, searched: Option<string>, closed: bool)

  /** The quick-pick terms, in display order. */
  const TrendingTerms: seq<string> := ["Summer Sale", "Leather Jackets", "Sneakers", "Watches"]

  /** `handleSubmit`: a buffer that trims to nothing is ignored; any other is
      passed on as typed, then the buffer is cleared and the panel closes. */
  function HandleSubmit(buffer: string): (r: Submission)
    ensures AllTrimmable(buffer) ==> r == Submission(buffer, None, false)
    ensures !AllTrimmable(buffer) ==> r == Submission("", Some(buffer), true)
  {
    if Trim(buffer) != "" then Submission("", Some(buffer), true)
    else Submission(buffer, None, false)
  }

  /** A trending pick: the buffer takes the term (it is not cleared), the term
      goes to `onSearch` and the panel closes, without the blank-query guard. */
  function PickTrending(term: string): (r: Submission)
    ensures r.searched == Some(term) && r.closed
    ensures r.buffer == term
  {
    Submission(term, Some(term), true)
  }

  /** `onSearch` is called exactly when `onClose` is, and a submitted query
      never trims to the empty string. */
  lemma SubmitNeverSearchesBlank(buffer: string)
    ensures HandleSubmit(buffer).searched.Some? <==> HandleSubmit(buffer).closed
    ensures HandleSubmit(buffer).searched.Some? ==> Trim(HandleSubmit(buffer).searched.value) != ""
  {
  }

  /** Surrounding whitespace does not change whether a query is accepted, but
      the accepted query keeps it. */
  lemma SubmitKeepsSurroundingWhiteSpace(pre: string, q: string, post: string)
    requires AllTrimmable(pre) && AllTrimmable(post)
    ensures HandleSubmit(pre + q + post).closed == HandleSubmit(q).closed
    ensures HandleSubmit(q).closed ==> HandleSubmit(pre + q + post).searched == Some(pre + q + post)
  {
    TrimIgnoresPadding(pre, q, post);
  }

  /** Every quick-pick term is non-blank and already trimmed. */
  lemma TrendingTermsAreTrimmed()
    ensures forall i :: 0 <= i < |TrendingTerms| ==> TrendingTerms[i] != "" && Trim(TrendingTerms[i]) == TrendingTerms[i]
  {
    forall i | 0 <= i < |TrendingTerms|
      ensures TrendingTerms[i] != "" && Trim(TrendingTerms[i]) == TrendingTerms[i]
    {
      var t := TrendingTerms[i];
      TrimFixesUntrimmedEnds(t);
    }
  }

  /** Bypassing the guard is harmless for the fixed terms: a pick searches
      for what submitting the typed term would, and closes the panel the
      same way; only the buffer differs. */
  lemma PickAgreesWithSubmit(i: int)
    requires 0 <= i < |TrendingTerms|
    ensures PickTrending(TrendingTerms[i]).searched == HandleSubmit(TrendingTerms[i]).searched
    ensures PickTrending(TrendingTerms[i]).closed == HandleSubmit(TrendingTerms[i]).closed
    ensures PickTrending(TrendingTerms[i]).buffer == TrendingTerms[i]
    ensures HandleSubmit(TrendingTerms[i]).buffer == ""
  {
    TrendingTermsAreTrimmed();
  }

  /** Two sample buffers: blank space is ignored and left in place; a padded
      query is accepted and passed on with its padding. */
  lemma SubmitExamples()
    ensures HandleSubmit("  ") == Submission("  ", None, false)
    ensures HandleSubmit(" shoes ") == Submission("", Some(" shoes "), true)
  {
    assert !AllTrimmable(" shoes ") by { assert !IsTrimmable(" shoes "[1]); }
  }
}
