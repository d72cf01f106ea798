/** The two fixed keyword lists: the page's primary interest list
    (script.js) and the gateway's fallback list (server.js), both written in
    the news API's `OR` syntax, and what the `" OR "` rewrite makes of them. */
module Keywords {
  import opened OrRewrite

  const PrimaryKeywords := "加密货币 OR 数字货币 OR 政策 OR 监管 OR 美国 OR 中国 OR 关税"
  const PrimaryTerms := ["加密货币", "数字货币", "政策", "监管", "美国", "中国", "关税"]

  const FallbackKeywords := "黄金 OR 美股 OR 有色金属"
  const FallbackTerms := ["黄金", "美股", "有色金属"]

  /** Each list is its terms, none holding a space or an `O`, joined by
      `" OR "`. */
  lemma PrimaryJoined()
    ensures PrimaryKeywords == Join(PrimaryTerms, Separator)
  {
  }

  lemma PrimaryTermsPlain()
    ensures |PrimaryTerms| > 0 && PrimaryTerms[0] != ""
    ensures forall i :: 0 <= i < |PrimaryTerms| ==> ' ' !in PrimaryTerms[i] && 'O' !in PrimaryTerms[i]
  {
  }

  lemma FallbackJoined()
    ensures FallbackKeywords == Join(FallbackTerms, Separator)
    ensures forall i :: 0 <= i < |FallbackTerms| ==> ' ' !in FallbackTerms[i] && 'O' !in FallbackTerms[i]
  {
  }

  /** Rewriting a space-free OR-joined list of terms without an `O` gives
      the space-joined terms, on which a second rewrite changes nothing. */
  lemma {:induction false} RewriteSettles(ws: seq<string>)
    requires forall i :: 0 <= i < |ws| ==> ' ' !in ws[i] && 'O' !in ws[i]
    ensures ReplaceOr(Join(ws, Separator)) == Join(ws, " ")
    ensures !ContainsOr(Join(ws, " "))
    ensures ReplaceOr(Join(ws, " ")) == Join(ws, " ")
  {
    ReplaceOrJoin(ws);
    JoinAvoids(ws, " ", 'O');
    NoLetterONoOr(Join(ws, " "));
    ReplaceOrIdentity(Join(ws, " "));
  }

  /** The page already rewrites the primary list before sending it, so the
      gateway's own rewrite of that value is the identity. */
  lemma PrimaryQuerySettled()
    ensures ReplaceOr(PrimaryKeywords) == Join(PrimaryTerms, " ")
    ensures ReplaceOr(ReplaceOr(PrimaryKeywords)) == ReplaceOr(PrimaryKeywords)
    ensures ReplaceOr(PrimaryKeywords) != ""
  {
    PrimaryJoined();
    PrimaryTermsPlain();
    RewriteSettles(PrimaryTerms);
    JoinStartsWithFirst(PrimaryTerms, " ");
  }

  /** The gateway's fallback list reaches the news API as its terms joined
      by spaces. */
  lemma FallbackQuerySettled()
    ensures ReplaceOr(FallbackKeywords) == Join(FallbackTerms, " ")
    ensures !ContainsOr(ReplaceOr(FallbackKeywords))
  {
    FallbackJoined();
    RewriteSettles(FallbackTerms);
  }
}
