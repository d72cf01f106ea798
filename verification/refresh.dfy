/** The page's refresh cycle, `fetchNews` in script.js: query the gateway with
    the primary keywords, fall back to a keyword-less query when the primary
    one reports no results, and hand the chosen list to the render step. The
    two fetches are given as response values. */
module Refresh {
  import opened Optional
  import opened JsValues
  import opened Articles
  import opened OrRewrite
  import opened Feed
  import opened Keywords

  /** What a `fetch` of the gateway settles to: a rejected promise, or a reply
      whose body either parses to an envelope or makes reading it throw
      (not JSON, or JSON `null`). */
  datatype Response = Unreachable | Reply(status: int, body: Option<Envelope>)

  /** The two requests to `/api/news` a cycle can issue. */
  datatype Request = PrimaryRequest | FallbackRequest

  /** The `keywords` parameter as the gateway receives it after URL
      decoding: the primary list with its separators rewritten, or none. */
  function KeywordsParam(r: Request): Option<string> {
    match r
    case PrimaryRequest => Some(ReplaceOr(PrimaryKeywords))
    case FallbackRequest => None
  }

  /** What the container ends up showing: the load-failure message, or the
      render step's outcome together with the placeholder flag passed to it. */
  datatype Display = LoadFailed | Rendering(placeholder: bool, outcome: Outcome)

  /** One cycle: the requests issued in order, the seen-set afterwards and
      the display. */
  datatype CycleResult = CycleResult(requests: seq<Request>, seen: set<string>, display: Display)

  /** The envelope a response yields, or None when the cycle throws on it:
      rejected fetch, status outside 2xx, or unreadable body. */
  function Parsed(r: Response): Option<Envelope> {
    if r.Reply? && IsOkStatus(r.status) then r.body else None
  }

  /** The articles a response could hand to the render step. */
  function ResultsOf(r: Response): seq<Article> {
    var d := Parsed(r);
    if d.Some? && d.value.results.Some? then d.value.results.value else []
  }

  /** The cycle ends in the load-failure message. */
  predicate Fails(primary: Response, fallback: Response) {
    Parsed(primary).None? || (!HasResults(Parsed(primary).value) && Parsed(fallback).None?)
  }

  /** One refresh cycle against the seen-set `seen`. At most two requests,
      the keyword-less one only after a successful primary query without
      results; a failure shows the error and leaves the seen-set alone;
      items are placeholders exactly when the fallback was used; the
      seen-set only grows, and only by fingerprints of received articles. */
  function RefreshCycle(seen: set<string>, primary: Response, fallback: Response): (c: CycleResult)
    ensures 1 <= |c.requests| <= 2 && c.requests[0] == PrimaryRequest
    ensures |c.requests| == 2 ==> c.requests[1] == FallbackRequest
    ensures |c.requests| == 2 <==> Parsed(primary).Some? && !HasResults(Parsed(primary).value)
    ensures c.display.LoadFailed? <==> Fails(primary, fallback)
    ensures c.display.LoadFailed? ==> c.seen == seen
    ensures c.display.Rendering? ==> (c.display.placeholder <==> |c.requests| == 2)
    ensures c.display.Rendering? ==>
      var source := if |c.requests| == 1 then primary else fallback;
      Rendered(c.seen, c.display.outcome) == Render(seen, Parsed(source).value.results, c.display.placeholder)
    ensures seen <= c.seen <= seen + Fingerprints(ResultsOf(primary)) + Fingerprints(ResultsOf(fallback))
  {
    match Parsed(primary)
    case None =>
      CycleResult([PrimaryRequest], seen, LoadFailed)
    case Some(data) =>
      if HasResults(data) then
        var r := Render(seen, data.results, false);
        RenderAddsReceived(seen, data.results, false);
        CycleResult([PrimaryRequest], r.seen, Rendering(false, r.outcome))
      else
        match Parsed(fallback)
        case None =>
          CycleResult([PrimaryRequest, FallbackRequest], seen, LoadFailed)
        case Some(fallbackData) =>
          var r := Render(seen, fallbackData.results, true);
          RenderAddsReceived(seen, fallbackData.results, true);
          CycleResult([PrimaryRequest, FallbackRequest], r.seen, Rendering(true, r.outcome))
  }

  /** A render adds only fingerprints of the articles it was given. */
  lemma RenderAddsReceived(seen: set<string>, articles: Option<seq<Article>>, isPlaceholder: bool)
    ensures Render(seen, articles, isPlaceholder).seen
      <= seen + Fingerprints(if articles.Some? then articles.value else [])
  {
  }

  /** Every displayed item carries the placeholder flag exactly when the
      fallback query was issued. */
  lemma PlaceholderMarking(seen: set<string>, primary: Response, fallback: Response)
    ensures var c := RefreshCycle(seen, primary, fallback);
      c.display.Rendering? && c.display.outcome.Shown? ==>
        forall i :: 0 <= i < |c.display.outcome.items| ==>
          c.display.outcome.items[i].placeholder == (|c.requests| == 2)
  {
  }

  /** The fallback response is never consulted unless the fallback query was
      issued. */
  lemma FallbackOnlyWhenIssued(seen: set<string>, primary: Response, f1: Response, f2: Response)
    requires |RefreshCycle(seen, primary, f1).requests| == 1
    ensures RefreshCycle(seen, primary, f1) == RefreshCycle(seen, primary, f2)
  {
  }

  /** Cycles of a session, each a pair of primary and fallback responses:
      the fingerprints of every article the first `n` of them could
      deliver. */
  function SessionFingerprints(cycles: seq<(Response, Response)>, n: nat): set<string>
    requires n <= |cycles|
  {
    if n == 0 then {}
    else
      SessionFingerprints(cycles, n - 1) + Fingerprints(ResultsOf(cycles[n - 1].0)) + Fingerprints(ResultsOf(cycles[n - 1].1))
  }

  /** The articles a cycle shows, in display order: the selected ones of
      the list it renders, or none when it fails or shows "no news". */
  function CycleShown(seen: set<string>, primary: Response, fallback: Response): (shown: seq<Article>)
    ensures forall a :: a in shown ==> Fingerprint(a) !in seen
    ensures RefreshCycle(seen, primary, fallback).seen == seen + Fingerprints(shown)
    ensures var d := RefreshCycle(seen, primary, fallback).display;
      d.Rendering? && d.outcome.Shown? ==>
        |d.outcome.items| == |shown|
        && forall k :: 0 <= k < |shown| ==> d.outcome.items[k] == ToItem(shown[k], d.placeholder)
  {
    var list := if Parsed(primary).Some? && HasResults(Parsed(primary).value) then Parsed(primary)
                else if Parsed(primary).Some? then Parsed(fallback) else None;
    if list.Some? && list.value.results.Some? then
      RenderSeen(seen, list.value.results.value, !HasResults(Parsed(primary).value));
      Selected(seen, list.value.results.value)
    else
      assert Fingerprints([]) == {};
      []
  }

  /** The seen-set a session's cycle `i` starts from: the initial one, or
      the one cycle `i - 1` left. */
  function SeenBefore(seen0: set<string>, trace: seq<CycleResult>, i: nat): set<string>
    requires i <= |trace|
  {
    if i == 0 then seen0 else trace[i - 1].seen
  }

  /** Entry `i` of `trace` is cycle `i` of `cycles`, run against the
      seen-set entry `i - 1` left. */
  ghost predicate RunsCycle(seen0: set<string>, cycles: seq<(Response, Response)>, trace: seq<CycleResult>, i: nat)
    requires i < |trace| <= |cycles|
  {
    trace[i] == RefreshCycle(SeenBefore(seen0, trace, i), cycles[i].0, cycles[i].1)
  }

  /** `trace` is what running the first `|trace|` of `cycles` in order from
      `seen0` produces: each cycle runs against the seen-set the previous one
      left. */
  ghost predicate Threaded(seen0: set<string>, cycles: seq<(Response, Response)>, trace: seq<CycleResult>) {
    && |trace| <= |cycles|
    && forall i :: 0 <= i < |trace| ==> RunsCycle(seen0, cycles, trace, i)
  }

  /** Appending an entry leaves the earlier entries' cycles as they were. */
  lemma {:induction false} RunsCycleKept(seen0: set<string>, cycles: seq<(Response, Response)>,
                                         trace: seq<CycleResult>, c: CycleResult, k: nat)
    requires k < |trace| < |cycles|
    requires RunsCycle(seen0, cycles, trace, k)
    ensures RunsCycle(seen0, cycles, trace + [c], k)
  {
  }

  /** Running the next cycle against the seen-set the last one left extends
      a run by one entry. */
  lemma {:induction false} ThreadedExtend(seen0: set<string>, cycles: seq<(Response, Response)>, trace: seq<CycleResult>)
    requires Threaded(seen0, cycles, trace)
    requires |trace| < |cycles|
    ensures var n := |trace|;
      Threaded(seen0, cycles, trace + [RefreshCycle(SeenBefore(seen0, trace, n), cycles[n].0, cycles[n].1)])
  {
    var n := |trace|;
    var c := RefreshCycle(SeenBefore(seen0, trace, n), cycles[n].0, cycles[n].1);
    forall k | 0 <= k < n
      ensures RunsCycle(seen0, cycles, trace + [c], k)
    {
      RunsCycleKept(seen0, cycles, trace, c, k);
    }
    assert SeenBefore(seen0, trace + [c], n) == SeenBefore(seen0, trace, n);
    assert RunsCycle(seen0, cycles, trace + [c], n);
  }

  /** The responses determine the session: two runs of the same cycles from
      the same seen-set agree entry by entry. */
  lemma {:induction false} SessionDeterministic(seen0: set<string>, cycles: seq<(Response, Response)>,
                                                t1: seq<CycleResult>, t2: seq<CycleResult>, n: nat)
    requires Threaded(seen0, cycles, t1) && Threaded(seen0, cycles, t2)
    requires n <= |t1| == |t2|
    ensures forall k :: 0 <= k < n ==> t1[k] == t2[k]
  {
    if n > 0 {
      var i := n - 1;
      SessionDeterministic(seen0, cycles, t1, t2, i);
      assert SeenBefore(seen0, t1, i) == SeenBefore(seen0, t2, i);
      assert RunsCycle(seen0, cycles, t1, i) && RunsCycle(seen0, cycles, t2, i);
    }
  }

  /** What cycle `i` of a session does to the seen-set: it keeps the old
      set and adds only keys of articles the cycle received. The cycle fails
      exactly when its own responses make it fail. */
  lemma {:induction false} CycleInSession(seen0: set<string>, cycles: seq<(Response, Response)>, trace: seq<CycleResult>, i: nat)
    requires Threaded(seen0, cycles, trace)
    requires i < |trace|
    ensures SeenBefore(seen0, trace, i) <= SeenBefore(seen0, trace, i + 1)
    ensures SeenBefore(seen0, trace, i + 1)
      <= SeenBefore(seen0, trace, i) + Fingerprints(ResultsOf(cycles[i].0)) + Fingerprints(ResultsOf(cycles[i].1))
    ensures trace[i].display.LoadFailed? <==> Fails(cycles[i].0, cycles[i].1)
  {
    assert RunsCycle(seen0, cycles, trace, i);
  }

  /** Cycle `i` of a session records the keys of what it shows. */
  lemma {:induction false} ShownKeysRecorded(seen0: set<string>, cycles: seq<(Response, Response)>, trace: seq<CycleResult>, i: nat)
    requires Threaded(seen0, cycles, trace)
    requires i < |trace|
    ensures Fingerprints(CycleShown(SeenBefore(seen0, trace, i), cycles[i].0, cycles[i].1)) <= SeenBefore(seen0, trace, i + 1)
  {
    assert RunsCycle(seen0, cycles, trace, i);
  }

  /** Subset chaining, stated once so that the solver need not search for
      it among the session's terms. */
  lemma SubsetChain(a: set<string>, b: set<string>, c: set<string>)
    requires a <= b <= c
    ensures a <= c
  {
  }

  /** Running more cycles never shrinks the seen-set. */
  lemma {:induction false} SeenBeforeMonotone(seen0: set<string>, cycles: seq<(Response, Response)>,
                                             trace: seq<CycleResult>, j: nat, i: nat)
    requires Threaded(seen0, cycles, trace)
    requires j <= i <= |trace|
    ensures SeenBefore(seen0, trace, j) <= SeenBefore(seen0, trace, i)
    decreases i
  {
    if j < i {
      SeenBeforeMonotone(seen0, cycles, trace, j, i - 1);
      CycleInSession(seen0, cycles, trace, i - 1);
      SubsetChain(SeenBefore(seen0, trace, j), SeenBefore(seen0, trace, i - 1), SeenBefore(seen0, trace, i));
    }
  }

  /** The seen-set after `n` cycles holds the initial one and otherwise only
      fingerprints of articles those cycles received. */
  lemma {:induction false} SeenWithinReceived(seen0: set<string>, cycles: seq<(Response, Response)>, trace: seq<CycleResult>, n: nat)
    requires Threaded(seen0, cycles, trace)
    requires n <= |trace|
    ensures seen0 <= SeenBefore(seen0, trace, n) <= seen0 + SessionFingerprints(cycles, n)
  {
    if n > 0 {
      var i := n - 1;
      SeenWithinReceived(seen0, cycles, trace, i);
      CycleInSession(seen0, cycles, trace, i);
      var received := Fingerprints(ResultsOf(cycles[i].0)) + Fingerprints(ResultsOf(cycles[i].1));
      SubsetChain(SeenBefore(seen0, trace, i) + received, seen0 + SessionFingerprints(cycles, i) + received,
                  seen0 + SessionFingerprints(cycles, n));
      SubsetChain(SeenBefore(seen0, trace, n), SeenBefore(seen0, trace, i) + received,
                  seen0 + SessionFingerprints(cycles, n));
      SubsetChain(seen0, SeenBefore(seen0, trace, i), SeenBefore(seen0, trace, n));
    }
  }

  /** Within a session no article is shown whose key was shown in an earlier
      cycle: the seen-set carries every shown key forward. */
  lemma {:induction false} SessionNoRepeat(seen0: set<string>, cycles: seq<(Response, Response)>, trace: seq<CycleResult>, i: nat, j: nat)
    requires Threaded(seen0, cycles, trace)
    requires i < j < |trace|
    ensures forall a :: a in CycleShown(SeenBefore(seen0, trace, j), cycles[j].0, cycles[j].1) ==>
      Fingerprint(a) !in Fingerprints(CycleShown(SeenBefore(seen0, trace, i), cycles[i].0, cycles[i].1))
  {
    ShownKeysRecorded(seen0, cycles, trace, i);
    SeenBeforeMonotone(seen0, cycles, trace, i + 1, j);
    var keys := Fingerprints(CycleShown(SeenBefore(seen0, trace, i), cycles[i].0, cycles[i].1));
    SubsetChain(keys, SeenBefore(seen0, trace, i + 1), SeenBefore(seen0, trace, j));
  }

  /** The requests a run made, counted over all its cycles. */
  function RequestCount(trace: seq<CycleResult>): nat {
    if |trace| == 0 then 0 else RequestCount(trace[..|trace| - 1]) + |trace[|trace| - 1].requests|
  }

  /** The initial load and each timer tick, run one after another with the
      seen-set threaded through: each cycle runs against the set the
      previous one left, and the session ends with the set the last one
      left. The seen-set only grows and only by fingerprints of articles the
      session received; a cycle fails exactly when its own responses make
      it fail; and the requests counted are those the cycles made, between
      one and two per cycle. */
  method RunSession(seen0: set<string>, cycles: seq<(Response, Response)>)
    returns (trace: seq<CycleResult>, seen: set<string>, requests: nat)
    ensures |trace| == |cycles| && Threaded(seen0, cycles, trace)
    ensures seen == SeenBefore(seen0, trace, |trace|)
    ensures seen0 <= seen <= seen0 + SessionFingerprints(cycles, |cycles|)
    ensures forall i :: 0 <= i < |cycles| ==> (trace[i].display.LoadFailed? <==> Fails(cycles[i].0, cycles[i].1))
    ensures requests == RequestCount(trace)
    ensures |cycles| <= requests <= 2 * |cycles|
  {
    trace := [];
    seen := seen0;
    requests := 0;
    for i := 0 to |cycles|
      invariant |trace| == i && Threaded(seen0, cycles, trace)
      invariant seen == SeenBefore(seen0, trace, i)
      invariant requests == RequestCount(trace)
      invariant i <= requests <= 2 * i
    {
      var c := RefreshCycle(seen, cycles[i].0, cycles[i].1);
      ThreadedExtend(seen0, cycles, trace);
      assert (trace + [c])[..|trace|] == trace;
      trace := trace + [c];
      seen := c.seen;
      requests := requests + |c.requests|;
    }
    SeenWithinReceived(seen0, cycles, trace, |trace|);
    forall i | 0 <= i < |cycles|
      ensures trace[i].display.LoadFailed? <==> Fails(cycles[i].0, cycles[i].1)
    {
      CycleInSession(seen0, cycles, trace, i);
    }
  }

  const ArticleA := Article(Text("A"), Text("d1"), Text("2024-01-01T10:00:00Z"), Text("x"), Text("u1"))
  const ArticleB := Article(Text("B"), Text("d2"), Text("2024-01-01T11:00:00Z"), Text("y"), Text("u2"))

  lemma ScenarioFirstSelected()
    ensures Selected({}, [ArticleA, ArticleB]) == [ArticleA, ArticleB]
  {
  }

  lemma ScenarioFirstRender()
    ensures Render({}, Some([ArticleA, ArticleB]), false)
      == Rendered({"Ad1", "Bd2"}, Shown([Item("A", "d1", "x", "u1", false), Item("B", "d2", "y", "u2", false)]))
  {
    ScenarioFirstSelected();
    assert Fingerprint(ArticleA) == "Ad1";
    assert Fingerprint(ArticleB) == "Bd2";
    assert Fingerprints([ArticleA, ArticleB]) == {"Ad1", "Bd2"};
  }

  lemma ScenarioSecondRender()
    ensures Render({"Ad1", "Bd2"}, Some([ArticleA, ArticleB]), false) == Rendered({"Ad1", "Bd2"}, NoNews)
  {
    var seen := {"Ad1", "Bd2"};
    assert Fingerprint(ArticleA) == "Ad1";
    assert Fingerprint(ArticleB) == "Bd2";
    assert [ArticleA, ArticleB][1..] == [ArticleB];
    assert [ArticleB][1..] == [];
    assert Unseen(seen, [ArticleB]) == [];
    assert Unseen(seen, [ArticleA, ArticleB]) == [];
  }

  /** First cycle: two fresh articles with a positive count are both shown
      as non-placeholders and their fingerprints recorded. Second cycle
      with the same reply: both are filtered, "no relevant news". */
  lemma RepeatedPrimaryScenario()
    ensures
      var reply := Reply(200, Some(Envelope(Some(2), Some([ArticleA, ArticleB]))));
      var first := RefreshCycle({}, reply, Unreachable);
      && first.requests == [PrimaryRequest]
      && first.seen == {"Ad1", "Bd2"}
      && first.display == Rendering(false, Shown([Item("A", "d1", "x", "u1", false), Item("B", "d2", "y", "u2", false)]))
      && RefreshCycle(first.seen, reply, Unreachable) == CycleResult([PrimaryRequest], first.seen, Rendering(false, NoNews))
  {
    ScenarioFirstRender();
    ScenarioSecondRender();
  }

  /** A primary reply with zero results triggers exactly one keyword-less
      query, and its single article is shown as a placeholder. */
  lemma FallbackScenario()
    ensures
      var c := Article(Text("C"), Absent, Absent, Absent, Text("u3"));
      var primary := Reply(200, Some(Envelope(Some(0), Some([]))));
      var fallback := Reply(200, Some(Envelope(Some(1), Some([c]))));
      var r := RefreshCycle({}, primary, fallback);
      && r.requests == [PrimaryRequest, FallbackRequest]
      && r.display == Rendering(true, Shown([Item("C", "", UnknownSource, "u3", true)]))
      && r.seen == {"C"}
  {
    var c := Article(Text("C"), Absent, Absent, Absent, Text("u3"));
    assert Fingerprint(c) == "C";
    assert Unseen({}, [c]) == [c];
    assert Fingerprints([c]) == {"C"};
  }
}
