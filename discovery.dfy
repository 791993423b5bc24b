/** The unique-author discovery of the current revision (execute.go,
    `getFirstFlickrResultsWithSearchTerm`): walk the license tiers in a
    fixed order, page through each tier until a page is not a full batch,
    keep the first photo of every owner name not seen before, and return as
    soon as `n` photos are kept.

    The search endpoint is an oracle `search(license, page)`: for the run's
    fixed query, key and batch size it yields the photos of that page, or an
    error. */
module Discovery {
  import opened Types
  import opened UniqueOwners

  /** Licenses from least to most restrictive. */
  const LicensesInPreferredOrder: seq<int> := [4, 5, 2, 1, 7, 6, 3, 9, 10, 8, 0]

  type Search = (int, nat) -> Result<seq<Photo>>

  /** The key the current revision deduplicates on. */
  function OwnerName(p: Photo): string
  {
    p.ownerName
  }

  /** Page size: one photo for a single result, larger pages when more
      distinct owners are needed. */
  function BatchSize(n: int): (b: int)
    ensures n <= 1 ==> b == 1
    ensures 2 <= n <= 5 ==> b == 100
    ensures n > 5 ==> b == 500
  {
    var b := if n > 1 then 100 else 1;
    if n > 5 then 500 else b
  }

  /** Tier 0 ("All Rights Reserved") is searched only when opted in. */
  predicate Searched(t: int, includeZero: bool)
  {
    t != 0 || includeZero
  }

  /** The tiers of `tiers` that are searched, in order. */
  function SearchedTiers(tiers: seq<int>, includeZero: bool): seq<int>
  {
    if tiers == [] then []
    else (if Searched(tiers[0], includeZero) then [tiers[0]] else [])
         + SearchedTiers(tiers[1..], includeZero)
  }

  lemma {:induction false} SearchedTiersAppend(a: seq<int>, b: seq<int>, includeZero: bool)
    ensures SearchedTiers(a + b, includeZero) == SearchedTiers(a, includeZero) + SearchedTiers(b, includeZero)
  {
    if a == [] {
      assert a + b == b;
    } else {
      assert (a + b)[1..] == a[1..] + b;
      SearchedTiersAppend(a[1..], b, includeZero);
    }
  }

  /** Tiers other than 0 are always searched. */
  lemma {:induction false} SearchedTiersWithoutZero(tiers: seq<int>, includeZero: bool)
    requires 0 !in tiers
    ensures SearchedTiers(tiers, includeZero) == tiers
  {
    if tiers != [] {
      assert tiers == [tiers[0]] + tiers[1..];
      SearchedTiersWithoutZero(tiers[1..], includeZero);
    }
  }

  /** The tiers are visited exactly as 4,5,2,1,7,6,3,9,10,8 and then 0 when
      it is opted in. */
  lemma PreferredOrder(includeZero: bool)
    ensures SearchedTiers(LicensesInPreferredOrder, includeZero)
         == [4, 5, 2, 1, 7, 6, 3, 9, 10, 8] + (if includeZero then [0] else [])
  {
    var front := [4, 5, 2, 1, 7, 6, 3, 9, 10, 8];
    assert LicensesInPreferredOrder == front + [0];
    SearchedTiersAppend(front, [0], includeZero);
    SearchedTiersWithoutZero(front, includeZero);
  }

  /** A page ends its tier: the search failed, or the page is not a full batch. */
  predicate EndsTier(r: Result<seq<Photo>>, batch: int)
  {
    r.Failure? || |r.value| != batch
  }

  /** The provider eventually returns a short page (or an error) on every
      searched tier: page `last(t)` of tier `t` ends it. The source relies
      on this to leave its paging loop; the model states it. */
  predicate Exhausts(search: Search, batch: int, includeZero: bool, tiers: seq<int>, last: int -> nat)
  {
    forall t :: t in tiers && Searched(t, includeZero) ==> 1 <= last(t) && EndsTier(search(t, last(t)), batch)
  }

  /** One search call and what it returned. */
  datatype Fetch = Fetch(tier: int, page: nat, result: Result<seq<Photo>>)

  /** The pages of tier `t` from page `page` up to the first page that ends
      the tier. */
  function TierFetches(search: Search, batch: int, t: int, page: nat, last: nat): (fs: seq<Fetch>)
    requires 1 <= page <= last && EndsTier(search(t, last), batch)
    ensures fs != [] && fs[0] == Fetch(t, page, search(t, page))
    decreases last - page
  {
    var f := Fetch(t, page, search(t, page));
    if EndsTier(f.result, batch) then [f]
    else [f] + TierFetches(search, batch, t, page + 1, last)
  }

  /** `fs` followed by `rest`, unless `fs` ends in a failed search. */
  function Continue(fs: seq<Fetch>, rest: seq<Fetch>): seq<Fetch>
  {
    if fs != [] && fs[|fs| - 1].result.Failure? then fs else fs + rest
  }

  /** Every search discovery would make if it never stopped early: the
      searched tiers in order, the pages of each tier from 1, ending at the
      first failed search. */
  function Stream(search: Search, batch: int, includeZero: bool, tiers: seq<int>, last: int -> nat): seq<Fetch>
    requires Exhausts(search, batch, includeZero, tiers, last)
    decreases |tiers|
  {
    if tiers == [] then []
    else if !Searched(tiers[0], includeZero) then Stream(search, batch, includeZero, tiers[1..], last)
    else Continue(TierFetches(search, batch, tiers[0], 1, last(tiers[0])),
                  Stream(search, batch, includeZero, tiers[1..], last))
  }

  /** The photos of the successful pages of `fs`, in order. */
  function Photos(fs: seq<Fetch>): seq<Photo>
  {
    if fs == [] then []
    else Photos(fs[..|fs| - 1]) + (match fs[|fs| - 1].result
                                   case Success(ps) => ps
                                   case Failure(_) => [])
  }

  /** What a discovery returns and the searches it made. */
  datatype Run = Run(result: Result<seq<Photo>>, fetched: seq<Fetch>)

  /** Read `stream` from position `i` with `acc` found so far: stop at a
      failed search, or at the page where the `n`-th distinct owner appears. */
  function Consume(stream: seq<Fetch>, n: nat, i: nat, acc: seq<Photo>): Run
    requires i <= |stream|
    decreases |stream| - i
  {
    if i == |stream| then Run(Success(acc), stream)
    else match stream[i].result
      case Failure(e) => Run(Failure(e), stream[..i + 1])
      case Success(ps) =>
        var acc' := Extend(acc, ps, OwnerName);
        if |acc'| >= n then Run(Success(acc'[..n]), stream[..i + 1])
        else Consume(stream, n, i + 1, acc')
  }

  /** The outcome of a discovery for `n` photos over the tiers `tiers`. */
  function DiscoverOver(search: Search, n: nat, includeZero: bool, tiers: seq<int>, last: int -> nat): Run
    requires Exhausts(search, BatchSize(n), includeZero, tiers, last)
  {
    Consume(Stream(search, BatchSize(n), includeZero, tiers, last), n, 0, [])
  }

  /** The outcome of a discovery for `n` photos. */
  function Discover(search: Search, n: nat, includeZero: bool, last: int -> nat): Run
    requires Exhausts(search, BatchSize(n), includeZero, LicensesInPreferredOrder, last)
  {
    DiscoverOver(search, n, includeZero, LicensesInPreferredOrder, last)
  }

  // ---------------------------------------------------------------------
  // The discovery loop
  // ---------------------------------------------------------------------

  /** Searching page `p` of tier `t` is the next element of the stream, and
      what follows it depends on whether the page ends the tier. */
  lemma PageStep(search: Search, batch: int, t: int, p: nat, last: nat,
                 fetched: seq<Fetch>, rest: seq<Fetch>, stream: seq<Fetch>)
    requires 1 <= p <= last && EndsTier(search(t, last), batch)
    requires stream == fetched + Continue(TierFetches(search, batch, t, p, last), rest)
    ensures var f := Fetch(t, p, search(t, p));
      && |fetched| < |stream| && stream[|fetched|] == f
      && (f.result.Failure? ==> stream == fetched + [f])
      && (!EndsTier(f.result, batch) ==>
            p + 1 <= last
            && stream == fetched + [f] + Continue(TierFetches(search, batch, t, p + 1, last), rest))
      && (f.result.Success? && EndsTier(f.result, batch) ==> stream == fetched + [f] + rest)
  {
    var f := Fetch(t, p, search(t, p));
    var tier := TierFetches(search, batch, t, p, last);
    if !EndsTier(f.result, batch) {
      var tail := TierFetches(search, batch, t, p + 1, last);
      assert tier == [f] + tail;
      assert Continue(tier, rest) == [f] + Continue(tail, rest);
    }
  }

  /** One step of `Consume` on a failed search. */
  lemma ConsumeFailure(stream: seq<Fetch>, n: nat, i: nat, acc: seq<Photo>)
    requires i < |stream| && stream[i].result.Failure?
    ensures Consume(stream, n, i, acc) == Run(Failure(stream[i].result.error), stream[..i + 1])
  {
  }

  /** One step of `Consume` on a page that leaves fewer than `n` owners. */
  lemma ConsumeShort(stream: seq<Fetch>, n: nat, i: nat, acc: seq<Photo>)
    requires i < |stream| && stream[i].result.Success?
    requires |Extend(acc, stream[i].result.value, OwnerName)| < n
    ensures Consume(stream, n, i, acc) == Consume(stream, n, i + 1, Extend(acc, stream[i].result.value, OwnerName))
  {
  }

  /** One step of `Consume` on a page that completes `n` owners. */
  lemma ConsumeComplete(stream: seq<Fetch>, n: nat, i: nat, acc: seq<Photo>)
    requires i < |stream| && stream[i].result.Success?
    requires |Extend(acc, stream[i].result.value, OwnerName)| >= n
    ensures Consume(stream, n, i, acc) == Run(Success(Extend(acc, stream[i].result.value, OwnerName)[..n]), stream[..i + 1])
  {
  }

  /** A prefix of `e` fixes the first `|a|` elements of `e`. */
  lemma FullPrefix(a: seq<Photo>, e: seq<Photo>)
    requires a <= e
    ensures |e| >= |a| && e[..|a|] == a
  {
  }

  /** Store `p` at `result[found]` when its owner name is new. */
  method StoreIfNew(result: array<Photo>, found: nat, uniqueOwners: set<string>, p: Photo)
    returns (found': nat, uniqueOwners': set<string>)
    requires found < result.Length
    requires uniqueOwners == Keys(result[..found], OwnerName)
    modifies result
    ensures found' <= result.Length
    ensures result[..found'] == if OwnerName(p) in Keys(old(result[..found]), OwnerName) then old(result[..found]) else old(result[..found]) + [p]
    ensures uniqueOwners' == Keys(result[..found'], OwnerName)
  {
    found', uniqueOwners' := found, uniqueOwners;
    var owner := p.ownerName;
    if owner !in uniqueOwners {
      ghost var kept := result[..found];
      KeysAppend(kept, [p], OwnerName);
      uniqueOwners' := uniqueOwners + {owner};
      result[found] := p;
      assert result[..found + 1] == kept + [p] by {
        forall k | 0 <= k < found ensures result[k] == kept[k] {
        }
      }
      found' := found + 1;
    }
  }

  /** The scan of one page: store each photo whose owner name is new at
      `result[found]`, and stop as soon as `result` is full. */

  method KeepNewOwners(result: array<Photo>, found: nat, uniqueOwners: set<string>, photos: seq<Photo>)
    returns (found': nat, uniqueOwners': set<string>)
    requires found < result.Length
    requires uniqueOwners == Keys(result[..found], OwnerName)
    modifies result
    ensures found' <= result.Length
    ensures uniqueOwners' == Keys(result[..found'], OwnerName)
    ensures var e := Extend(old(result[..found]), photos, OwnerName);
      if |e| >= result.Length then found' == result.Length && result[..found'] == e[..found']
      else found' < result.Length && result[..found'] == e
  {
    ghost var acc0 := result[..found];
    found', uniqueOwners' := found, uniqueOwners;
    for j := 0 to |photos|
      invariant found' < result.Length
      invariant result[..found'] == Extend(acc0, photos[..j], OwnerName)
      invariant uniqueOwners' == Keys(result[..found'], OwnerName)
    {
      ExtendStep(acc0, photos, j, OwnerName);
      found', uniqueOwners' := StoreIfNew(result, found', uniqueOwners', photos[j]);
      if found' == result.Length {
        ExtendMonotone(acc0, photos, j + 1, OwnerName);
        FullPrefix(result[..found'], Extend(acc0, photos, OwnerName));
        return;
      }
    }
    assert photos[..|photos|] == photos;
  }

  /** `getFirstFlickrResultsWithSearchTerm`: the photos of the first `n`
      distinct owner names met, tier by tier and page by page. `fetched`
      records the searches made. */
  method FindUniqueOwnerPhotos(search: Search, n: int, includeZero: bool, ghost last: int -> nat)
    returns (r: Result<seq<Photo>>, ghost fetched: seq<Fetch>)
    requires n >= 1
    requires Exhausts(search, BatchSize(n), includeZero, LicensesInPreferredOrder, last)
    ensures Run(r, fetched) == Discover(search, n, includeZero, last)
  {
    var batchSize := 1;
    if n > 1 {
      batchSize := 100;
    }
    if n > 5 {
      batchSize := 500;
    }
    r, fetched := SearchTiers(search, n, batchSize, includeZero, LicensesInPreferredOrder, last);
  }

  /** The loop of `getFirstFlickrResultsWithSearchTerm` over `tiers`, with
      page size `batchSize`. */
  method SearchTiers(search: Search, n: int, batchSize: int, includeZero: bool, tiers: seq<int>, ghost last: int -> nat)
    returns (r: Result<seq<Photo>>, ghost fetched: seq<Fetch>)
    requires n >= 1
    requires Exhausts(search, batchSize, includeZero, tiers, last)
    ensures Run(r, fetched) == Consume(Stream(search, batchSize, includeZero, tiers, last), n, 0, [])
  {
    ghost var stream := Stream(search, batchSize, includeZero, tiers, last);
    ghost var goal := Consume(stream, n, 0, []);
    var result := new Photo[n];
    var uniqueOwners: set<string> := {};
    var found := 0;
    fetched := [];
    for ti := 0 to |tiers|
      invariant 0 <= found < n
      invariant stream == fetched + Stream(search, batchSize, includeZero, tiers[ti..], last)
      invariant uniqueOwners == Keys(result[..found], OwnerName)
      invariant goal == Consume(stream, n, |fetched|, result[..found])
    {
      var license := tiers[ti];
      assert tiers[ti..][1..] == tiers[ti + 1..];
      if license == 0 && !includeZero {
        continue;
      }
      assert license in tiers;
      ghost var rest := Stream(search, batchSize, includeZero, tiers[ti + 1..], last);
      var stop;
      stop, r, found, uniqueOwners, fetched :=
        SearchTier(search, batchSize, license, result, found, uniqueOwners, last(license), stream, fetched, rest, goal);
      if stop {
        return;
      }
    }
    assert stream == fetched;
    r := Success(result[..found]);
  }

  /** The paging loop of `getFirstFlickrResultsWithSearchTerm` for one
      license: pages 1, 2, ... until a page is not a full batch. `stop` says
      that the whole discovery ends here, with `r`: on a failed search, or
      when `result` is full. */
  method SearchTier(search: Search, batchSize: int, license: int, result: array<Photo>,
                    found: nat, uniqueOwners: set<string>, ghost last: nat,
                    ghost stream: seq<Fetch>, ghost fetched: seq<Fetch>, ghost rest: seq<Fetch>, ghost goal: Run)
    returns (stop: bool, r: Result<seq<Photo>>, found': nat, uniqueOwners': set<string>, ghost fetched': seq<Fetch>)
    requires 1 <= last && EndsTier(search(license, last), batchSize)
    requires found < result.Length && uniqueOwners == Keys(result[..found], OwnerName)
    requires stream == fetched + Continue(TierFetches(search, batchSize, license, 1, last), rest)
    requires goal == Consume(stream, result.Length, |fetched|, result[..found])
    modifies result
    ensures stop ==> Run(r, fetched') == goal
    ensures !stop ==>
      && found' < result.Length && uniqueOwners' == Keys(result[..found'], OwnerName)
      && stream == fetched' + rest
      && goal == Consume(stream, result.Length, |fetched'|, result[..found'])
  {
    var n := result.Length;
    stop, r := false, Success([]);
    found', uniqueOwners', fetched' := found, uniqueOwners, fetched;
    var foundInLastBatch := batchSize;
    var pageNumber := 1;
    while foundInLastBatch == batchSize
      invariant found' < n
      invariant 1 <= pageNumber <= last + 1
      invariant foundInLastBatch == batchSize ==>
        pageNumber <= last
        && stream == fetched' + Continue(TierFetches(search, batchSize, license, pageNumber, last), rest)
      invariant foundInLastBatch != batchSize ==> stream == fetched' + rest
      invariant uniqueOwners' == Keys(result[..found'], OwnerName)
      invariant goal == Consume(stream, n, |fetched'|, result[..found'])
      decreases last + 1 - pageNumber
    {
      var ps := search(license, pageNumber);
      ghost var i := |fetched'|;
      PageStep(search, batchSize, license, pageNumber, last, fetched', rest, stream);
      fetched' := fetched' + [Fetch(license, pageNumber, ps)];
      if ps.Failure? {
        ConsumeFailure(stream, n, i, result[..found']);
        assert stream[..i + 1] == fetched';
        return true, Failure(ps.error), found', uniqueOwners', fetched';
      }
      var photos := ps.value;
      foundInLastBatch := |photos|;
      ghost var acc0 := result[..found'];
      assert stream[i].result == Success(photos);
      found', uniqueOwners' := KeepNewOwners(result, found', uniqueOwners', photos);
      if found' == n {
        ConsumeComplete(stream, n, i, acc0);
        assert stream[..i + 1] == fetched';
        assert result[..] == result[..found'];
        return true, Success(result[..]), found', uniqueOwners', fetched';
      }
      ConsumeShort(stream, n, i, acc0);
      pageNumber := pageNumber + 1;
    }
  }

  // ---------------------------------------------------------------------
  // What discovery promises
  // ---------------------------------------------------------------------

  /** No search among `fs` failed. */
  predicate NoFailure(fs: seq<Fetch>)
  {
    forall k :: 0 <= k < |fs| ==> fs[k].result.Success?
  }

  /** Each recorded search holds what the provider answered for its tier and page. */
  predicate Answers(fs: seq<Fetch>, search: Search)
  {
    forall k :: 0 <= k < |fs| ==> fs[k].result == search(fs[k].tier, fs[k].page)
  }

  /** Every search is on a tier of `tiers` that is searched at all. */
  predicate OnlySearchedTiers(fs: seq<Fetch>, tiers: seq<int>, includeZero: bool)
  {
    forall k :: 0 <= k < |fs| ==> fs[k].tier in tiers && Searched(fs[k].tier, includeZero)
  }

  /** The searches go through pages 1, 2, 3, ... of a tier, and move on to
      page 1 of another tier exactly when a page ends the tier; nothing
      follows a failed search. */
  predicate Walk(fs: seq<Fetch>, batch: int)
  {
    (fs != [] ==> fs[0].page == 1)
    && forall k :: 0 <= k < |fs| - 1 ==>
         && fs[k].result.Success?
         && if EndsTier(fs[k].result, batch) then fs[k + 1].page == 1
            else fs[k + 1].tier == fs[k].tier && fs[k + 1].page == fs[k].page + 1
  }

  /** The tiers in the order their first page was requested. */
  function Starts(fs: seq<Fetch>): seq<int>
  {
    if fs == [] then [] else (if fs[0].page == 1 then [fs[0].tier] else []) + Starts(fs[1..])
  }

  lemma {:induction false} StartsAppend(a: seq<Fetch>, b: seq<Fetch>)
    ensures Starts(a + b) == Starts(a) + Starts(b)
  {
    if a != [] {
      assert (a + b)[0] == a[0];
      assert (a + b)[1..] == a[1..] + b;
      StartsAppend(a[1..], b);
    } else {
      assert a + b == b;
    }
  }

  lemma {:induction false} StartsPrefix(a: seq<Fetch>, b: seq<Fetch>)
    requires a <= b
    ensures Starts(a) <= Starts(b)
  {
    if a != [] {
      assert a[1..] <= b[1..];
      StartsPrefix(a[1..], b[1..]);
    }
  }

  /** The pages of one tier: consecutive page numbers, every page but the
      last a full batch, the last one ending the tier. */
  lemma {:induction false} TierShape(search: Search, batch: int, t: int, p: nat, last: nat)
    requires 1 <= p <= last && EndsTier(search(t, last), batch)
    ensures var fs := TierFetches(search, batch, t, p, last);
      && (forall k :: 0 <= k < |fs| ==> fs[k] == Fetch(t, p + k, search(t, p + k)))
      && (forall k :: 0 <= k < |fs| - 1 ==> !EndsTier(fs[k].result, batch))
      && EndsTier(fs[|fs| - 1].result, batch)
    decreases last - p
  {
    var fs := TierFetches(search, batch, t, p, last);
    if !EndsTier(search(t, p), batch) {
      TierShape(search, batch, t, p + 1, last);
      var tail := TierFetches(search, batch, t, p + 1, last);
      assert fs == [fs[0]] + tail;
      forall k | 0 <= k < |fs| ensures fs[k] == Fetch(t, p + k, search(t, p + k)) {
        if k > 0 {
          assert fs[k] == tail[k - 1];
        }
      }
      forall k | 0 <= k < |fs| - 1 ensures !EndsTier(fs[k].result, batch) {
        if k > 0 {
          assert fs[k] == tail[k - 1];
        }
      }
    }
  }

  /** Only the first page of a tier is a page 1. */
  lemma {:induction false} TierStarts(search: Search, batch: int, t: int, p: nat, last: nat)
    requires 1 <= p <= last && EndsTier(search(t, last), batch)
    ensures Starts(TierFetches(search, batch, t, p, last)) == (if p == 1 then [t] else [])
    decreases last - p
  {
    var fs := TierFetches(search, batch, t, p, last);
    if !EndsTier(search(t, p), batch) {
      TierStarts(search, batch, t, p + 1, last);
      assert fs[1..] == TierFetches(search, batch, t, p + 1, last);
    } else {
      assert fs[1..] == [];
    }
  }

  /** The searches of one whole tier walk its pages from page 1 and start it once. */
  lemma TierWalk(search: Search, batch: int, t: int, last: nat)
    requires 1 <= last && EndsTier(search(t, last), batch)
    ensures var fs := TierFetches(search, batch, t, 1, last);
      && Walk(fs, batch)
      && Answers(fs, search)
      && (forall k :: 0 <= k < |fs| ==> fs[k].tier == t)
      && Starts(fs) == [t]
  {
    TierShape(search, batch, t, 1, last);
    TierStarts(search, batch, t, 1, last);
  }

  /** Two walks join into one when the first ends its tier successfully. */
  lemma WalkAppend(a: seq<Fetch>, b: seq<Fetch>, batch: int)
    requires Walk(a, batch) && Walk(b, batch) && a != []
    requires a[|a| - 1].result.Success? && EndsTier(a[|a| - 1].result, batch)
    ensures Walk(a + b, batch)
  {
    var s := a + b;
    forall k | 0 <= k < |s| - 1
      ensures s[k].result.Success?
      ensures if EndsTier(s[k].result, batch) then s[k + 1].page == 1
              else s[k + 1].tier == s[k].tier && s[k + 1].page == s[k].page + 1
    {
      if k + 1 < |a| {
        assert s[k] == a[k] && s[k + 1] == a[k + 1];
      } else if k + 1 == |a| {
        assert s[k] == a[k] && s[k + 1] == b[0];
      } else {
        assert s[k] == b[k - |a|] && s[k + 1] == b[k + 1 - |a|];
      }
    }
  }

  /** The stream of searches follows the paging rule, on searched tiers of
      `tiers` only, and each search holds the provider's answer. */
  lemma {:induction false} StreamWalk(search: Search, batch: int, includeZero: bool, tiers: seq<int>, last: int -> nat)
    requires Exhausts(search, batch, includeZero, tiers, last)
    ensures var s := Stream(search, batch, includeZero, tiers, last);
      && Walk(s, batch)
      && Answers(s, search)
      && OnlySearchedTiers(s, tiers, includeZero)
    decreases |tiers|
  {
    if tiers != [] {
      var t := tiers[0];
      var rest := Stream(search, batch, includeZero, tiers[1..], last);
      StreamWalk(search, batch, includeZero, tiers[1..], last);
      var s := Stream(search, batch, includeZero, tiers, last);
      if Searched(t, includeZero) {
        var tf := TierFetches(search, batch, t, 1, last(t));
        TierWalk(search, batch, t, last(t));
        if tf[|tf| - 1].result.Success? {
          assert s == tf + rest;
          TierShape(search, batch, t, 1, last(t));
          WalkAppend(tf, rest, batch);
          forall k | 0 <= k < |s|
            ensures s[k].result == search(s[k].tier, s[k].page)
            ensures s[k].tier in tiers && Searched(s[k].tier, includeZero)
          {
            if k >= |tf| {
              assert s[k] == rest[k - |tf|];
            } else {
              assert s[k] == tf[k];
            }
          }
        } else {
          assert s == tf;
        }
      } else {
        assert s == rest;
      }
    }
  }

  /** The stream starts the searched tiers in the order of `tiers`, all of
      them when no search fails. */
  lemma {:induction false} StreamStarts(search: Search, batch: int, includeZero: bool, tiers: seq<int>, last: int -> nat)
    requires Exhausts(search, batch, includeZero, tiers, last)
    ensures var s := Stream(search, batch, includeZero, tiers, last);
      && Starts(s) <= SearchedTiers(tiers, includeZero)
      && (NoFailure(s) ==> Starts(s) == SearchedTiers(tiers, includeZero))
    decreases |tiers|
  {
    if tiers != [] {
      var t := tiers[0];
      var rest := Stream(search, batch, includeZero, tiers[1..], last);
      StreamStarts(search, batch, includeZero, tiers[1..], last);
      var s := Stream(search, batch, includeZero, tiers, last);
      if Searched(t, includeZero) {
        var tf := TierFetches(search, batch, t, 1, last(t));
        TierStarts(search, batch, t, 1, last(t));
        if tf[|tf| - 1].result.Success? {
          assert s == tf + rest;
          StartsAppend(tf, rest);
          if NoFailure(s) {
            forall k | 0 <= k < |rest| ensures rest[k].result.Success? {
              assert rest[k] == s[k + |tf|];
            }
          }
        } else {
          assert s == tf;
          assert !NoFailure(s);
        }
      }
    }
  }

  lemma {:induction false} PhotosPrefix(fs: seq<Fetch>, k: int)
    requires 0 <= k <= |fs|
    ensures Photos(fs[..k]) <= Photos(fs)
    decreases |fs|
  {
    if k < |fs| {
      assert fs[..|fs| - 1][..k] == fs[..k];
      PhotosPrefix(fs[..|fs| - 1], k);
    } else {
      assert fs[..k] == fs;
    }
  }

  lemma ExtendLength(acc: seq<Photo>, a: seq<Photo>, b: seq<Photo>)
    requires a <= b
    ensures |Extend(acc, a, OwnerName)| <= |Extend(acc, b, OwnerName)|
  {
    assert b[..|a|] == a;
    ExtendMonotone(acc, b, |a|, OwnerName);
  }

  /** The searches a run resumed at position `i` makes: a stretch of the
      stream from `i` on, ending at a failed search if it fails. */
  lemma {:induction false} ConsumeSearches(stream: seq<Fetch>, n: nat, i: nat, acc: seq<Photo>)
    requires i <= |stream|
    requires NoFailure(stream[..i])
    ensures var run := Consume(stream, n, i, acc);
      && stream[..i] <= run.fetched <= stream
      && (run.result.Failure? ==> run.fetched != [] && run.fetched[|run.fetched| - 1].result == Failure(run.result.error))
      && (run.result.Success? ==> NoFailure(run.fetched))
      && (run.fetched != [] ==> NoFailure(run.fetched[..|run.fetched| - 1]))
    decreases |stream| - i
  {
    if i == |stream| {
      assert stream[..i] == stream;
    } else if stream[i].result.Success? {
      assert NoFailure(stream[..i + 1]);
      if |Extend(acc, stream[i].result.value, OwnerName)| < n {
        ConsumeSearches(stream, n, i + 1, Extend(acc, stream[i].result.value, OwnerName));
      }
    }
  }

  /** What a run resumed at position `i`, with the owners of the pages
      before it, returns on success. */
  lemma {:induction false} ConsumeResult(stream: seq<Fetch>, n: nat, i: nat, acc: seq<Photo>)
    requires i <= |stream|
    requires acc == Extend([], Photos(stream[..i]), OwnerName) && |acc| < n
    ensures var run := Consume(stream, n, i, acc);
      run.result.Success? ==>
        && run.result.value <= Extend([], Photos(run.fetched), OwnerName)
        && |run.result.value| <= n
        && (|run.result.value| == n
            || (run.fetched == stream && run.result.value == Extend([], Photos(run.fetched), OwnerName)))
    decreases |stream| - i
  {
    if i == |stream| {
      assert stream[..i] == stream;
    } else if stream[i].result.Success? {
      var ps := stream[i].result.value;
      assert stream[..i + 1][..i] == stream[..i];
      assert Photos(stream[..i + 1]) == Photos(stream[..i]) + ps;
      ExtendAppend([], Photos(stream[..i]), ps, OwnerName);
      if |Extend(acc, ps, OwnerName)| < n {
        ConsumeResult(stream, n, i + 1, Extend(acc, ps, OwnerName));
      }
    }
  }

  /** A run resumed at position `i` reads no page past the one that
      completes `n` owners (or fails). */
  lemma {:induction false} ConsumeStops(stream: seq<Fetch>, n: nat, i: nat, acc: seq<Photo>)
    requires i <= |stream|
    requires acc == Extend([], Photos(stream[..i]), OwnerName) && |acc| < n
    ensures var run := Consume(stream, n, i, acc);
      run.fetched != [] ==> |Extend([], Photos(run.fetched[..|run.fetched| - 1]), OwnerName)| < n
    decreases |stream| - i
  {
    if i == |stream| {
      assert stream[..i] == stream;
      if stream != [] {
        PhotosPrefix(stream, |stream| - 1);
        ExtendLength([], Photos(stream[..|stream| - 1]), Photos(stream));
      }
    } else {
      assert stream[..i + 1][..i] == stream[..i];
      match stream[i].result
      case Failure(_) =>
      case Success(ps) =>
        var acc' := Extend(acc, ps, OwnerName);
        if |acc'| < n {
          assert Photos(stream[..i + 1]) == Photos(stream[..i]) + ps;
          ExtendAppend([], Photos(stream[..i]), ps, OwnerName);
          ConsumeStops(stream, n, i + 1, acc');
        }
    }
  }

  /** All that the discovery's contract rests on, for the whole stream. */
  lemma ConsumeSpec(stream: seq<Fetch>, n: nat)
    requires n >= 1
    ensures var run := Consume(stream, n, 0, []);
      && run.fetched <= stream
      && (run.result.Failure? ==> run.fetched != [] && run.fetched[|run.fetched| - 1].result == Failure(run.result.error))
      && (run.result.Success? ==> NoFailure(run.fetched))
      && (run.fetched != [] ==> NoFailure(run.fetched[..|run.fetched| - 1]))
      && (run.result.Success? ==>
            && run.result.value <= Extend([], Photos(run.fetched), OwnerName)
            && |run.result.value| <= n
            && (|run.result.value| == n
                || (run.fetched == stream && run.result.value == Extend([], Photos(run.fetched), OwnerName))))
      && (run.fetched != [] ==> |Extend([], Photos(run.fetched[..|run.fetched| - 1]), OwnerName)| < n)
  {
    assert stream[..0] == [];
    ConsumeSearches(stream, n, 0, []);
    ConsumeResult(stream, n, 0, []);
    ConsumeStops(stream, n, 0, []);
  }

  /** Discovery searches in stream order: its searches are a prefix of the
      walk over tiers and pages, so they visit the searched tiers in the
      preferred order, pages 1, 2, 3, ... of each, and never tier 0 unless
      it is opted in. */
  lemma DiscoverWalk(search: Search, n: nat, includeZero: bool, tiers: seq<int>, last: int -> nat)
    requires n >= 1 && Exhausts(search, BatchSize(n), includeZero, tiers, last)
    ensures var fs := DiscoverOver(search, n, includeZero, tiers, last).fetched;
      && fs <= Stream(search, BatchSize(n), includeZero, tiers, last)
      && Walk(fs, BatchSize(n))
      && Answers(fs, search)
      && OnlySearchedTiers(fs, tiers, includeZero)
      && Starts(fs) <= SearchedTiers(tiers, includeZero)
  {
    var s := Stream(search, BatchSize(n), includeZero, tiers, last);
    ConsumeSpec(s, n);
    StreamWalk(search, BatchSize(n), includeZero, tiers, last);
    StreamStarts(search, BatchSize(n), includeZero, tiers, last);
    var fs := DiscoverOver(search, n, includeZero, tiers, last).fetched;
    StartsPrefix(fs, s);
    assert forall k :: 0 <= k < |fs| ==> fs[k] == s[k];
  }

  /** The photos returned have pairwise-distinct owner names, at most `n` of
      them, and they are the first photos of new owners in (tier, page,
      position) order, in that order. */
  lemma DiscoverUniqueOwners(search: Search, n: nat, includeZero: bool, tiers: seq<int>, last: int -> nat)
    requires n >= 1 && Exhausts(search, BatchSize(n), includeZero, tiers, last)
    ensures var run := DiscoverOver(search, n, includeZero, tiers, last);
      run.result.Success? ==>
        && DistinctOwners(run.result.value, OwnerName)
        && |run.result.value| <= n
        && run.result.value <= Firsts(Photos(run.fetched), {}, OwnerName)
  {
    var s := Stream(search, BatchSize(n), includeZero, tiers, last);
    ConsumeSpec(s, n);
    var run := DiscoverOver(search, n, includeZero, tiers, last);
    if run.result.Success? {
      var all := Extend([], Photos(run.fetched), OwnerName);
      ExtendDistinct([], Photos(run.fetched), OwnerName);
      ExtendSelectsFirsts([], Photos(run.fetched), OwnerName);
      assert Keys([], OwnerName) == {};
      var r := run.result.value;
      assert forall i, j :: 0 <= i < j < |r| ==> r[i] == all[i] && r[j] == all[j];
    }
  }

  /** Discovery returns exactly `n` photos unless every searched tier was
      exhausted, and then it returns the first photo of every owner it saw;
      it stops at the page that yields the `n`-th owner: every shorter run
      of searches had fewer than `n` owners. */
  lemma DiscoverStopsAtN(search: Search, n: nat, includeZero: bool, tiers: seq<int>, last: int -> nat)
    requires n >= 1 && Exhausts(search, BatchSize(n), includeZero, tiers, last)
    ensures var run := DiscoverOver(search, n, includeZero, tiers, last);
      && (run.result.Success? ==>
            |run.result.value| == n
            || run.fetched == Stream(search, BatchSize(n), includeZero, tiers, last))
      && (run.result.Success? && |run.result.value| < n ==>
            run.result.value == Firsts(Photos(run.fetched), {}, OwnerName))
      && forall k :: 0 <= k < |run.fetched| ==> |Extend([], Photos(run.fetched[..k]), OwnerName)| < n
  {
    var s := Stream(search, BatchSize(n), includeZero, tiers, last);
    ConsumeSpec(s, n);
    var fs := DiscoverOver(search, n, includeZero, tiers, last).fetched;
    ExtendSelectsFirsts([], Photos(fs), OwnerName);
    assert Keys([], OwnerName) == {};
    forall k | 0 <= k < |fs| ensures |Extend([], Photos(fs[..k]), OwnerName)| < n {
      var front := fs[..|fs| - 1];
      assert front[..k] == fs[..k];
      PhotosPrefix(front, k);
      ExtendLength([], Photos(fs[..k]), Photos(front));
    }
  }

  /** A failed search ends discovery with that search's error, and only the
      last search can have failed. */
  lemma DiscoverFailure(search: Search, n: nat, includeZero: bool, tiers: seq<int>, last: int -> nat)
    requires n >= 1 && Exhausts(search, BatchSize(n), includeZero, tiers, last)
    ensures var run := DiscoverOver(search, n, includeZero, tiers, last);
      && (run.result.Failure? <==> !NoFailure(run.fetched))
      && (run.result.Failure? ==> run.fetched[|run.fetched| - 1].result == Failure(run.result.error))
  {
    var s := Stream(search, BatchSize(n), includeZero, tiers, last);
    ConsumeSpec(s, n);
  }
}
