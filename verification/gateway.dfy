/** The gateway's `/api/news` handler in server.js: choose the keywords,
    rewrite their `OR` syntax, query the news API once, convert titles and
    descriptions to simplified script and relay the result or an error.
    The script conversion `t2s` is a parameter: its table is not modelled. */
module Gateway {
  import opened Optional
  import opened JsValues
  import opened Articles
  import opened OrRewrite
  import opened Keywords

  const UpstreamFailedMessage := "NewsData.io API request failed"
  const ProxyErrorMessage := "Proxy server error"
  const ProxyErrorStatus := 500
  const SuccessStatus := 200

  /** What awaiting the news API yields: a thrown error (rejected fetch,
      unreadable body), or a reply with a status and a body that parses to
      an envelope or is JSON `null`, whose `results` read throws. */
  datatype Upstream = Threw | UpstreamReply(status: int, body: Option<Envelope>)

  /** The JSON body sent back: the relayed envelope or `{message}`. */
  datatype Body = Data(envelope: Envelope) | Message(message: string)

  /** The reply: status, body, and whether `Cache-Control: no-store` is set. */
  datatype GatewayReply = GatewayReply(status: int, body: Body, noStore: bool)

  /** One request handled: the query sent upstream and the reply. */
  datatype Exchange = Exchange(query: string, reply: GatewayReply)

  /** A truthy `keywords` parameter is used verbatim; a missing or empty
      one is replaced by the fallback list. The choice is never empty. */
  function SelectKeywords(param: Option<string>): (k: string)
    ensures param.Some? && param.value != "" ==> k == param.value
    ensures param.None? || param.value == "" ==> k == FallbackKeywords
    ensures k != ""
  {
    if param.Some? && param.value != "" then param.value else FallbackKeywords
  }

  /** The `q` value sent to the news API. */
  function UpstreamQuery(param: Option<string>): string {
    ReplaceOr(SelectKeywords(param))
  }

  /** `f ? t2s(f) : f`: only a non-empty string is converted. */
  function Convert(t2s: string -> string, f: Field): (g: Field)
    ensures Truthy(f) ==> g == Text(t2s(f.text))
    ensures !Truthy(f) ==> g == f
  {
    if Truthy(f) then Text(t2s(f.text)) else f
  }

  /** `{...article, title: ..., description: ...}`: every other property is
      copied. */
  function NormalizeArticle(t2s: string -> string, a: Article): (b: Article)
    ensures b.title == Convert(t2s, a.title) && b.description == Convert(t2s, a.description)
    ensures b.pubDate == a.pubDate && b.sourceId == a.sourceId && b.link == a.link
  {
    a.(title := Convert(t2s, a.title), description := Convert(t2s, a.description))
  }

  /** The `results` conversion: a missing or empty list is left as it is;
      otherwise the list keeps its length and order and each article is
      normalised in place. */
  function NormalizeResults(t2s: string -> string, results: Option<seq<Article>>): (r: Option<seq<Article>>)
    ensures results.None? || results.value == [] ==> r == results
    ensures results.Some? ==> r.Some? && |r.value| == |results.value|
    ensures results.Some? ==> forall i :: 0 <= i < |results.value| ==>
      r.value[i] == NormalizeArticle(t2s, results.value[i])
  {
    if results.Some? && |results.value| > 0 then
      Some(seq(|results.value|, i requires 0 <= i < |results.value| => NormalizeArticle(t2s, results.value[i])))
    else
      results
  }

  /** A conversion that changes nothing makes the normalisation the
      identity. */
  lemma NormalizeWithIdentity(t2s: string -> string, results: Option<seq<Article>>)
    requires forall s :: t2s(s) == s
    ensures NormalizeResults(t2s, results) == results
  {
    if results.Some? {
      var r := NormalizeResults(t2s, results).value;
      forall i | 0 <= i < |r|
        ensures r[i] == results.value[i]
      {
        var a := results.value[i];
        assert Convert(t2s, a.title) == a.title;
        assert Convert(t2s, a.description) == a.description;
      }
      assert r == results.value;
    }
  }

  /** Normalising twice is normalising once whenever the conversion is
      idempotent: converted text that came out empty is left alone. */
  lemma NormalizeIdempotent(t2s: string -> string, results: Option<seq<Article>>)
    requires forall s :: t2s(t2s(s)) == t2s(s)
    ensures NormalizeResults(t2s, NormalizeResults(t2s, results)) == NormalizeResults(t2s, results)
  {
    var once := NormalizeResults(t2s, results);
    if once.Some? {
      var twice := NormalizeResults(t2s, once).value;
      forall i | 0 <= i < |twice|
        ensures twice[i] == once.value[i]
      {
        var a := once.value[i];
        assert Convert(t2s, a.title) == a.title;
        assert Convert(t2s, a.description) == a.description;
      }
      assert twice == once.value;
    }
  }

  /** The `/api/news` handler given the news API's answer to the query it
      sent. A non-2xx answer is relayed by status with a fixed message; a
      thrown error, or a body whose `results` cannot be read, becomes 500
      with another; otherwise the envelope is relayed with 200, only its
      `results` normalised, and caching disabled. Only that last case
      replies with a 2xx status. */
  function Handle(param: Option<string>, t2s: string -> string, upstream: Upstream): (x: Exchange)
    ensures x.query == ReplaceOr(SelectKeywords(param))
    ensures upstream.UpstreamReply? && !IsOkStatus(upstream.status) ==>
      x.reply == GatewayReply(upstream.status, Message(UpstreamFailedMessage), false)
    ensures upstream.Threw? || (IsOkStatus(upstream.status) && upstream.body.None?) ==>
      x.reply == GatewayReply(ProxyErrorStatus, Message(ProxyErrorMessage), false)
    ensures upstream.UpstreamReply? && IsOkStatus(upstream.status) && upstream.body.Some? ==>
      var e := upstream.body.value;
      x.reply == GatewayReply(SuccessStatus, Data(e.(results := NormalizeResults(t2s, e.results))), true)
    ensures IsOkStatus(x.reply.status) <==> x.reply.body.Data?
  {
    var query := UpstreamQuery(param);
    match upstream
    case Threw =>
      Exchange(query, GatewayReply(ProxyErrorStatus, Message(ProxyErrorMessage), false))
    case UpstreamReply(status, body) =>
      if !IsOkStatus(status) then
        Exchange(query, GatewayReply(status, Message(UpstreamFailedMessage), false))
      else if body.None? then
        Exchange(query, GatewayReply(ProxyErrorStatus, Message(ProxyErrorMessage), false))
      else
        var e := body.value;
        Exchange(query, GatewayReply(SuccessStatus, Data(e.(results := NormalizeResults(t2s, e.results))), true))
  }
}
