/** The page and the gateway put together: each request the page issues is
    handled by the gateway, and the page reads the gateway's reply. */
module Pipeline {
  import opened Optional
  import opened Articles
  import opened OrRewrite
  import opened Keywords
  import opened Feed
  import G = Gateway
  import R = Refresh

  /** The page's view of a gateway reply: a `{message}` body is an object
      with neither `totalResults` nor `results`. */
  function AsResponse(reply: G.GatewayReply): (r: R.Response)
    ensures r.Reply? && r.status == reply.status
    ensures reply.body.Data? ==> r.body == Some(reply.body.envelope)
    ensures reply.body.Message? ==> r.body == Some(Envelope(None, None))
    ensures R.Parsed(r).Some? <==> IsOkStatus(reply.status)
  {
    match reply.body
    case Data(e) => R.Reply(reply.status, Some(e))
    case Message(_) => R.Reply(reply.status, Some(Envelope(None, None)))
  }

  /** The primary request's keywords are used verbatim by the gateway and
      reach the news API as the primary terms joined by spaces. */
  lemma PrimaryRequestQuery(t2s: string -> string, upstream: G.Upstream)
    ensures G.SelectKeywords(R.KeywordsParam(R.PrimaryRequest)) == Join(PrimaryTerms, " ")
    ensures G.Handle(R.KeywordsParam(R.PrimaryRequest), t2s, upstream).query == Join(PrimaryTerms, " ")
  {
    PrimaryQuerySettled();
  }

  /** The keyword-less request makes the gateway query its fallback terms,
      joined by spaces. */
  lemma FallbackRequestQuery(t2s: string -> string, upstream: G.Upstream)
    ensures G.Handle(R.KeywordsParam(R.FallbackRequest), t2s, upstream).query == Join(FallbackTerms, " ")
  {
    FallbackQuerySettled();
  }

  /** When the news API's answer to the primary query is unusable (thrown
      error, non-2xx status, unreadable body), the page shows the load
      failure after that single request and its seen-set is untouched. */
  lemma UpstreamFailureReachesPage(seen: set<string>, t2s: string -> string, upstream: G.Upstream, fallback: R.Response)
    requires upstream.Threw? || !IsOkStatus(upstream.status) || upstream.body.None?
    ensures var reply := G.Handle(R.KeywordsParam(R.PrimaryRequest), t2s, upstream).reply;
      R.RefreshCycle(seen, AsResponse(reply), fallback) == R.CycleResult([R.PrimaryRequest], seen, R.LoadFailed)
  {
  }

  /** When the news API answers the primary query with a positive count, the
      page renders the converted results as non-placeholders and never
      issues the fallback request. */
  lemma PrimarySuccessReachesPage(seen: set<string>, t2s: string -> string, status: int, e: Envelope, fallback: R.Response)
    requires IsOkStatus(status) && HasResults(e)
    ensures var reply := G.Handle(R.KeywordsParam(R.PrimaryRequest), t2s, G.UpstreamReply(status, Some(e))).reply;
      var shown := Render(seen, G.NormalizeResults(t2s, e.results), false);
      R.RefreshCycle(seen, AsResponse(reply), fallback)
        == R.CycleResult([R.PrimaryRequest], shown.seen, R.Rendering(false, shown.outcome))
  {
  }
}
