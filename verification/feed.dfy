/** The page's render step, `displayNews` in script.js: filter the articles
    against the session's seen-set, keep the first ten survivors, record their
    fingerprints and turn each into a displayed item. */
module Feed {
  import opened Optional
  import opened JsValues
  import opened Articles

  const MaxShown := 10
  const SummaryLimit := 100
  const Ellipsis := "..."
  const UnknownSource := "未知"

  /** One displayed news block. `placeholder` selects the placeholder label;
      its negation is the "important" highlight. */
  datatype Item = Item(title: string, summary: string, source: string, link: string, placeholder: bool)

  /** What the container shows: the "no relevant news" message or a list. */
  datatype Outcome = NoNews | Shown(items: seq<Item>)

  /** The render's effect: the seen-set afterwards and what is displayed. */
  datatype Rendered = Rendered(seen: set<string>, outcome: Outcome)

  /** The dedup key: the title as text followed by `description || ''`. A
      missing, null or empty description contributes nothing, so such
      articles share the key of their bare title. */
  function Fingerprint(a: Article): (key: string)
    ensures Truthy(a.description) ==> key == Coerce(a.title) + a.description.text
    ensures !Truthy(a.description) ==> key == Coerce(a.title)
  {
    Coerce(a.title) + OrElse(a.description, "")
  }

  function Fingerprints(articles: seq<Article>): set<string> {
    set a | a in articles :: Fingerprint(a)
  }

  /** The key does not mark where the title ends: distinct articles can
      share it, and once one is shown the other is filtered as seen. */
  lemma FingerprintCollision()
    ensures var a := Article(Text("ab"), Text("c"), Absent, Absent, Absent);
      var b := Article(Text("a"), Text("bc"), Absent, Absent, Absent);
      && a != b && Fingerprint(a) == Fingerprint(b) == "abc"
      && Render({"abc"}, Some([b]), false) == Rendered({"abc"}, NoNews)
  {
  }

  /** The articles whose fingerprint is not in `seen`, in input order.
      Duplicates inside `articles` are kept: only `seen` is consulted. */
  function Unseen(seen: set<string>, articles: seq<Article>): (u: seq<Article>)
    ensures |u| <= |articles|
    ensures forall a :: a in u <==> a in articles && Fingerprint(a) !in seen
    ensures forall a :: Fingerprint(a) !in seen ==> multiset(u)[a] == multiset(articles)[a]
  {
    if |articles| == 0 then []
    else
      var rest := Unseen(seen, articles[1..]);
      assert articles == [articles[0]] + articles[1..];
      if Fingerprint(articles[0]) in seen then rest else [articles[0]] + rest
  }

  /** Filtering distributes over concatenation, so relative order is kept. */
  lemma {:induction false} UnseenAppend(seen: set<string>, xs: seq<Article>, ys: seq<Article>)
    ensures Unseen(seen, xs + ys) == Unseen(seen, xs) + Unseen(seen, ys)
  {
    if |xs| > 0 {
      assert (xs + ys)[1..] == xs[1..] + ys;
      UnseenAppend(seen, xs[1..], ys);
    } else {
      assert xs + ys == ys;
    }
  }

  /** The articles the render shows: the first `min(10, |Unseen|)` unseen ones. */
  function Selected(seen: set<string>, articles: seq<Article>): (s: seq<Article>)
    ensures |s| <= MaxShown
    ensures s <= Unseen(seen, articles)
    ensures |s| < MaxShown ==> s == Unseen(seen, articles)
    ensures forall a :: a in s ==> a in articles && Fingerprint(a) !in seen
  {
    var u := Unseen(seen, articles);
    if |u| <= MaxShown then u else u[..MaxShown]
  }

  /** The summary: the description (empty if missing), cut to its first 100
      characters followed by "..." when it is longer than that. */
  function Summary(description: Field): (s: string)
    ensures var d := OrElse(description, "");
      && (|d| <= SummaryLimit ==> s == d)
      && (|d| > SummaryLimit ==>
            |s| == SummaryLimit + |Ellipsis| && s[..SummaryLimit] == d[..SummaryLimit] && s[SummaryLimit..] == Ellipsis)
  {
    var d := OrElse(description, "");
    if |d| > SummaryLimit then d[..SummaryLimit] + Ellipsis else d
  }

  /** Summarising a summary changes nothing, and no summary is longer
      than 103 characters. */
  lemma SummaryIdempotent(description: Field)
    ensures |Summary(description)| <= SummaryLimit + |Ellipsis|
    ensures Summary(Text(Summary(description))) == Summary(description)
  {
  }

  /** The displayed block for one article: the title as text, the summary,
      `source_id || '未知'`, the link as text and the placeholder flag. */
  function ToItem(a: Article, isPlaceholder: bool): (r: Item)
    ensures Truthy(a.sourceId) ==> r.source == a.sourceId.text
    ensures !Truthy(a.sourceId) ==> r.source == UnknownSource
    ensures r.title == Coerce(a.title) && r.link == Coerce(a.link)
    ensures r.summary == Summary(a.description)
    ensures r.placeholder == isPlaceholder
  {
    Item(Coerce(a.title), Summary(a.description), OrElse(a.sourceId, UnknownSource), Coerce(a.link), isPlaceholder)
  }

  function Items(shown: seq<Article>, isPlaceholder: bool): seq<Item> {
    seq(|shown|, i requires 0 <= i < |shown| => ToItem(shown[i], isPlaceholder))
  }

  /** `displayNews(articles, isPlaceholder)` against the seen-set `seen`.
      Nothing to show (no list, an empty list or only already-seen articles)
      leaves the seen-set as it was; otherwise the items are exactly the
      selected articles in order, and the seen-set grows by their
      fingerprints and by nothing else. */
  function Render(seen: set<string>, articles: Option<seq<Article>>, isPlaceholder: bool): (r: Rendered)
    ensures r.outcome.NoNews? <==> articles.None? || Unseen(seen, articles.value) == []
    ensures r.outcome.NoNews? ==> r.seen == seen
    ensures r.outcome.Shown? ==>
      var shown := Selected(seen, articles.value);
      && 1 <= |r.outcome.items| == |shown| <= MaxShown
      && (forall i :: 0 <= i < |shown| ==> r.outcome.items[i] == ToItem(shown[i], isPlaceholder))
      && r.seen == seen + Fingerprints(shown)
    ensures seen <= r.seen
  {
    if articles.None? || |articles.value| == 0 then
      Rendered(seen, NoNews)
    else
      var shown := Selected(seen, articles.value);
      if |shown| == 0 then
        Rendered(seen, NoNews)
      else
        Rendered(seen + Fingerprints(shown), Shown(Items(shown, isPlaceholder)))
  }

  /** Nothing new to show exactly when every article was seen before; the
      seen-set is then unchanged. */
  lemma AllSeenShowsNothing(seen: set<string>, articles: seq<Article>, isPlaceholder: bool)
    ensures Render(seen, Some(articles), isPlaceholder) == Rendered(seen, NoNews)
        <==> forall a :: a in articles ==> Fingerprint(a) in seen
  {
    var u := Unseen(seen, articles);
    if u != [] {
      assert u[0] in u;
    }
  }

  /** The unseen articles a render leaves for a later cycle. */
  function Overflow(seen: set<string>, articles: seq<Article>): seq<Article> {
    Unseen(seen, articles)[|Selected(seen, articles)|..]
  }

  /** Whatever a render shows, the seen-set afterwards is the old one plus
      the fingerprints of the selected articles. */
  lemma RenderSeen(seen: set<string>, articles: seq<Article>, p: bool)
    ensures Render(seen, Some(articles), p).seen == seen + Fingerprints(Selected(seen, articles))
  {
  }

  /** Rendering the same list twice shows nothing the second time exactly
      when every unseen article that did not fit in the first ten shares a
      fingerprint with one that did; in particular whenever at most ten
      articles were unseen. */
  lemma RenderTwice(seen: set<string>, articles: seq<Article>, p: bool, q: bool)
    ensures var first := Render(seen, Some(articles), p);
      (Render(first.seen, Some(articles), q).outcome.NoNews?
       <==> forall a :: a in Overflow(seen, articles) ==> Fingerprint(a) in Fingerprints(Selected(seen, articles)))
    ensures |Unseen(seen, articles)| <= MaxShown ==>
      Render(Render(seen, Some(articles), p).seen, Some(articles), q).outcome.NoNews?
  {
  }
}
