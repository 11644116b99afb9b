/** The recommended-products feed (frontend/src/components/product-feed.jsx):
    pages of twelve are fetched as the bottom of the list scrolls into view
    and merged into one list without repeating a product_id; each card shows
    up to three badges. */
module ProductFeed {
  import opened Values
  import Seqs

  const PageSize: nat := 12
  const RecommendedBadge: string := "추천"
  const LoadFailed: string := "상품 정보를 불러오지 못했습니다."

  /** An entry of the list as the server sent it: an object or a null. */
  type Entry = Option<Doc>

  function IdOf(d: Doc): Value {
    Get(d, "product_id", VNull)
  }

  predicate HasNull(list: seq<Entry>) {
    exists i :: 0 <= i < |list| && list[i].None?
  }

  /** `new Set(prev.map(item => item.product_id))`. */
  function ExistingIds(prev: seq<Entry>): (ids: set<Value>)
    requires !HasNull(prev)
    ensures forall v :: v in ids <==> exists i :: 0 <= i < |prev| && IdOf(prev[i].value) == v
  {
    set i | 0 <= i < |prev| :: IdOf(prev[i].value)
  }

  /** The incoming entries kept on a later page: objects whose id is not in ids. */
  predicate Fresh(ids: set<Value>, e: Entry) {
    e.Some? && IdOf(e.value) !in ids
  }

  /** The `setProducts` updater: page 1 replaces the list; a later page
      appends the new objects.  None where a null already in the list makes
      `item.product_id` throw. */
  function Merge(prev: seq<Entry>, incoming: seq<Entry>, page: int): (r: Option<seq<Entry>>)
    ensures page == 1 ==> r == Some(incoming)
    ensures page != 1 ==> (r.None? <==> HasNull(prev))
    ensures r.Some? && page != 1 ==> |prev| <= |r.value| && r.value[..|prev|] == prev
    ensures r.Some? && page != 1 ==> forall e :: e in r.value[|prev|..] ==>
      e in incoming && e.Some? && forall i :: 0 <= i < |prev| ==> IdOf(prev[i].value) != IdOf(e.value)
    ensures r.Some? && page != 1 ==> Seqs.IsSubsequence(r.value[|prev|..], incoming)
  {
    if page == 1 then Some(incoming)
    else if HasNull(prev) then None
    else
      var ids := ExistingIds(prev);
      var deduped := Seqs.Filter((e: Entry) => Fresh(ids, e), incoming);
      assert (prev + deduped)[..|prev|] == prev && (prev + deduped)[|prev|..] == deduped;
      Some(prev + deduped)
  }

  /** Objects with pairwise different ids. */
  predicate DistinctIds(list: seq<Entry>) {
    (forall i :: 0 <= i < |list| ==> list[i].Some?) &&
    forall i, j :: 0 <= i < j < |list| ==> IdOf(list[i].value) != IdOf(list[j].value)
  }

  /** When each page comes without repeats, the merged list never shows a
      product twice. */
  lemma MergeKeepsDistinct(prev: seq<Entry>, incoming: seq<Entry>, page: int)
    requires DistinctIds(prev) && DistinctIds(incoming)
    ensures Merge(prev, incoming, page).Some?
    ensures DistinctIds(Merge(prev, incoming, page).value)
  {
    if page != 1 {
      var r := Merge(prev, incoming, page).value;
      var ids := ExistingIds(prev);
      var deduped := Seqs.Filter((e: Entry) => Fresh(ids, e), incoming);
      assert r == prev + deduped;
      DistinctFiltered(incoming, (e: Entry) => Fresh(ids, e));
      forall i, j | 0 <= i < j < |r|
        ensures IdOf(r[i].value) != IdOf(r[j].value)
      {
        if j >= |prev| && i < |prev| {
          assert r[j] in deduped;
        } else if i >= |prev| {
          assert r[i] == deduped[i - |prev|] && r[j] == deduped[j - |prev|];
        }
      }
      assert forall i :: 0 <= i < |r| ==> r[i].Some? by {
        forall i | |prev| <= i < |r|
          ensures r[i].Some?
        {
          assert r[i] in deduped;
        }
      }
    }
  }

  lemma {:induction false} DistinctFiltered(s: seq<Entry>, f: Entry -> bool)
    requires DistinctIds(s)
    ensures DistinctIds(Seqs.Filter(f, s))
  {
    if s != [] {
      assert DistinctIds(s[1..]) by {
        forall i, j | 0 <= i < j < |s[1..]|
          ensures IdOf(s[1..][i].value) != IdOf(s[1..][j].value)
        {
          assert s[1..][i] == s[i + 1] && s[1..][j] == s[j + 1];
        }
      }
      DistinctFiltered(s[1..], f);
      var rest := Seqs.Filter(f, s[1..]);
      if f(s[0]) {
        forall e | e in rest
          ensures IdOf(e.value) != IdOf(s[0].value)
        {
          var k :| 0 <= k < |s[1..]| && s[1..][k] == e;
          assert e == s[k + 1];
        }
        var r := [s[0]] + rest;
        forall i, j | 0 <= i < j < |r|
          ensures IdOf(r[i].value) != IdOf(r[j].value)
        {
          if i == 0 {
            assert r[j] in rest;
          } else {
            assert r[i] == rest[i - 1] && r[j] == rest[j - 1];
          }
        }
      }
    }
  }

  /** The guard at the top of `fetchProducts`. */
  predicate ShouldFetch(loading: bool, hasMore: bool, page: int) {
    !loading && (hasMore || page == 1)
  }

  /** `deriveBadges`: the first three tags when there are any, otherwise
      "추천" for a recommended product and then the shipping text. */
  function DeriveBadges(product: Doc): (r: seq<Value>)
    ensures |r| <= 3
    ensures Get(product, "tags", VNull).VList? && |Get(product, "tags", VNull).elems| > 0 ==>
      var tags := Get(product, "tags", VNull).elems;
      r == tags[..if |tags| < 3 then |tags| else 3]
    ensures !(Get(product, "tags", VNull).VList? && |Get(product, "tags", VNull).elems| > 0) ==>
      var recommended := Truthy(Get(product, "is_recommended", VNull));
      var shipping := Get(product, "shipping", VNull);
      && |r| == (if recommended then 1 else 0) + (if Truthy(shipping) then 1 else 0)
      && (recommended ==> r[0] == VStr(RecommendedBadge))
      && (Truthy(shipping) ==> r[|r| - 1] == shipping)
  {
    var tags := Get(product, "tags", VNull);
    if tags.VList? && |tags.elems| > 0 then
      tags.elems[..if |tags.elems| < 3 then |tags.elems| else 3]
    else
      var recommended := if Truthy(Get(product, "is_recommended", VNull)) then [VStr(RecommendedBadge)] else [];
      var shipping := Get(product, "shipping", VNull);
      recommended + (if Truthy(shipping) then [shipping] else [])
  }

  /** `Math.max(1, Math.ceil(products.length / 12))`. */
  function DerivedPage(count: nat): (p: nat)
    ensures p >= 1
    ensures count == 0 ==> p == 1
    ensures count > 0 ==> (p - 1) * PageSize < count <= p * PageSize
  {
    if count == 0 then 1 else (count + PageSize - 1) / PageSize
  }

  /** The hook's state and the in-view effect of the feed. */
  datatype FeedState = FeedState(products: seq<Entry>, page: int, hasMore: bool, loading: bool,
                                 error: Option<string>, prevInView: bool)

  /** The in-view effect: the page advances only when the sentinel comes into
      view, more pages exist, nothing is loading and there is no error. */
  function OnInView(st: FeedState, inView: bool): (r: FeedState)
    ensures r.prevInView == inView
    ensures r.page == st.page + 1 <==> inView && !st.prevInView && st.hasMore && !st.loading && st.error.None?
    ensures r.page == st.page || r.page == st.page + 1
    ensures r.(page := st.page, prevInView := st.prevInView) == st
  {
    var next := if inView && !st.prevInView && st.hasMore && !st.loading && st.error.None? then st.page + 1 else st.page;
    st.(page := next, prevInView := inView)
  }

  /** Staying in view does not advance a second time: it takes a fresh
      edge. */
  lemma StayingInViewAdvancesOnce(st: FeedState, n: nat)
    ensures Repeat(st, n).page <= st.page + 1
    ensures n > 0 && st.prevInView ==> Repeat(st, n).page == st.page
  {
    RepeatBound(st, n);
  }

  /** The effect run n times with the sentinel in view. */
  function Repeat(st: FeedState, n: nat): FeedState
    decreases n
  {
    if n == 0 then st else Repeat(OnInView(st, true), n - 1)
  }

  lemma {:induction false} RepeatBound(st: FeedState, n: nat)
    ensures Repeat(st, n).page <= st.page + 1
    ensures n > 0 && st.prevInView ==> Repeat(st, n).page == st.page
    ensures n > 0 ==> Repeat(st, n).prevInView
    decreases n
  {
    if n > 0 {
      var s1 := OnInView(st, true);
      RepeatStill(s1, n - 1);
    }
  }

  lemma {:induction false} RepeatStill(st: FeedState, n: nat)
    requires st.prevInView
    ensures Repeat(st, n).page == st.page && Repeat(st, n).prevInView
    decreases n
  {
    if n > 0 {
      RepeatStill(OnInView(st, true), n - 1);
    }
  }

  /** `usePaginatedProducts` as a state holder. */
  class Feed {
    var products: seq<Entry>
    var page: int
    var hasMore: bool
    var loading: bool
    var error: Option<string>
    var retryCount: nat
    var prevInView: bool

    constructor()
      ensures products == [] && page == 1 && hasMore && !loading && error.None? && retryCount == 0 && !prevInView
    {
      products := [];
      page := 1;
      hasMore := true;
      loading := false;
      error := None;
      retryCount := 0;
      prevInView := false;
    }

    function State(): FeedState
      reads this
    {
      FeedState(products, page, hasMore, loading, error, prevInView)
    }

    /** The start of `fetchProducts`: returns whether a request goes out. */
    method BeginFetch() returns (started: bool)
      modifies this
      ensures started <==> ShouldFetch(old(loading), old(hasMore), old(page))
      ensures started ==> loading && error.None?
      ensures !started ==> State() == old(State())
      ensures products == old(products) && page == old(page) && hasMore == old(hasMore) && retryCount == old(retryCount)
    {
      if loading {
        return false;
      }
      if !hasMore && page != 1 {
        return false;
      }
      loading := true;
      error := None;
      return true;
    }

    /** A successful response: `items` is None when it is not an array.
        Returns whether the list updater threw. */
    method Receive(items: Option<seq<Entry>>, hasMoreFlag: Value) returns (threw: bool)
      modifies this
      ensures threw <==> Merge(old(products), items.GetOr([]), old(page)).None?
      ensures !threw ==> products == Merge(old(products), items.GetOr([]), old(page)).value
      ensures threw ==> products == old(products)
      ensures hasMore == Truthy(hasMoreFlag) && !loading
      ensures page == old(page) && error == old(error) && retryCount == old(retryCount)
    {
      var incoming := items.GetOr([]);
      var merged := Merge(products, incoming, page);
      threw := merged.None?;
      if !threw {
        products := merged.value;
      }
      hasMore := Truthy(hasMoreFlag);
      loading := false;
    }

    /** A failed request: its message, or the default one when empty. */
    method Fail(message: string)
      modifies this
      ensures error == Some(if message == "" then LoadFailed else message) && !loading
      ensures products == old(products) && page == old(page) && hasMore == old(hasMore) && retryCount == old(retryCount)
    {
      error := Some(if message == "" then LoadFailed else message);
      loading := false;
    }

    method Retry()
      modifies this
      ensures retryCount == old(retryCount) + 1 && error.None?
      ensures products == old(products) && page == old(page) && hasMore == old(hasMore) && loading == old(loading)
    {
      retryCount := retryCount + 1;
      error := None;
    }

    method InViewChanged(inView: bool)
      modifies this
      ensures State() == OnInView(old(State()), inView)
      ensures retryCount == old(retryCount)
    {
      if inView && !prevInView && hasMore && !loading && error.None? {
        page := page + 1;
      }
      prevInView := inView;
    }
  }
}
