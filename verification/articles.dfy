/** The JSON shapes that travel from the news API through the gateway to
    the page: one article, and the envelope around a page of results. */
module Articles {
  import opened Optional
  import opened JsValues

  /** An article with the properties the page and the gateway read. */
  datatype Article = Article(
    title: Field,
    description: Field,
    pubDate: Field,
    sourceId: Field,
    link: Field)

  /** A result envelope: `totalResults` and `results`, each possibly missing. */
  datatype Envelope = Envelope(totalResults: Option<int>, results: Option<seq<Article>>)

  /** `totalResults > 0`; a missing count compares false. */
  predicate HasResults(e: Envelope) {
    e.totalResults.Some? && e.totalResults.value > 0
  }

  /** `fetch`'s `Response.ok`: the status is in the 2xx range. */
  predicate IsOkStatus(status: int) {
    200 <= status <= 299
  }
}
