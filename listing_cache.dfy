/**
 * The client-side cache of listing drafts (the `['listings']` query) and
 * the updaters the draft, cache and mutation hooks hand to
 * `setQueryData`. Drafts are plain JavaScript objects: maps from property
 * names to values, so that `{...l, ...updates}` is map union and "drops
 * every other field" can be said. An absent cache is `None` (`undefined`).
 */
module ListingCache {
  import opened Wrappers

  datatype JsValue =
    | JStr(s: string)
    | JNull
    | JNum(n: real)
    | JBool(b: bool)
    | JArray(items: seq<JsValue>)
    | JObject(fields: map<string, JsValue>)

  type Obj = map<string, JsValue>

  /** `o.id`: `None` when the property is missing (`undefined`). */
  function IdOf(o: Obj): (r: Option<JsValue>)
    ensures r.Some? <==> "id" in o
  {
    if "id" in o then Some(o["id"]) else None
  }

  /** `o.id === id` for a string `id`. */
  predicate HasId(o: Obj, id: string)
  {
    IdOf(o) == Some(JStr(id))
  }

  /** `prev ?? []`. */
  function OrEmpty(prev: Option<seq<Obj>>): (r: seq<Obj>)
    ensures prev.None? ==> r == []
    ensures prev.Some? ==> r == prev.value
  {
    if prev.Some? then prev.value else []
  }

  /** `xs.map((l) => l.id === id ? f(l) : l)`. */
  function MapWhereId(xs: seq<Obj>, id: string, f: Obj -> Obj): (r: seq<Obj>)
    ensures |r| == |xs|
    ensures forall i :: 0 <= i < |xs| ==> r[i] == if HasId(xs[i], id) then f(xs[i]) else xs[i]
  {
    seq(|xs|, i requires 0 <= i < |xs| => if HasId(xs[i], id) then f(xs[i]) else xs[i])
  }

  function PendingDraft(id: string, url: string): (r: Obj)
    ensures r.Keys == {"id", "url", "status"}
    ensures HasId(r, id) && r["status"] == JStr("pending")
  {
    map["id" := JStr(id), "url" := JStr(url), "status" := JStr("pending")]
  }

  // ---------------------------------------------------------------- useListingDraftMutations

  /** `setListingDraft`: each entry with the id becomes `listing`; length and order are kept. */
  function SetListingDraft(prev: Option<seq<Obj>>, id: string, listing: Obj): (r: seq<Obj>)
    ensures |r| == |OrEmpty(prev)|
    ensures forall i :: 0 <= i < |r| ==> r[i] == if HasId(OrEmpty(prev)[i], id) then listing else OrEmpty(prev)[i]
  {
    MapWhereId(OrEmpty(prev), id, _ => listing)
  }

  /** `{ id: l.id, url: l.url, status: 'pending' }`: a missing `url` is copied as `undefined`, which is modelled by leaving it out. */
  function ResetToPending(l: Obj): (r: Obj)
    ensures r.Keys <= {"id", "url", "status"}
    ensures "status" in r && r["status"] == JStr("pending")
    ensures "id" in l ==> "id" in r && r["id"] == l["id"]
    ensures "url" in l ==> "url" in r && r["url"] == l["url"]
  {
    var withId := if "id" in l then map["id" := l["id"]] else map[];
    var withUrl := if "url" in l then withId["url" := l["url"]] else withId;
    withUrl["status" := JStr("pending")]
  }

  /** `setPendingListingDraft`: the matching entry keeps only its id and url and turns pending. */
  function SetPendingListingDraft(prev: Option<seq<Obj>>, id: string): (r: seq<Obj>)
    ensures |r| == |OrEmpty(prev)|
    ensures forall i :: 0 <= i < |r| ==> r[i] == if HasId(OrEmpty(prev)[i], id) then ResetToPending(OrEmpty(prev)[i]) else OrEmpty(prev)[i]
  {
    MapWhereId(OrEmpty(prev), id, ResetToPending)
  }

  /** `addPendingListingDraft`: exactly one pending entry, at the end. */
  function AddPendingListingDraft(prev: Option<seq<Obj>>, id: string, url: string): (r: seq<Obj>)
    ensures |r| == |OrEmpty(prev)| + 1
    ensures r[..|OrEmpty(prev)|] == OrEmpty(prev)
    ensures r[|OrEmpty(prev)|] == PendingDraft(id, url)
  {
    OrEmpty(prev) + [PendingDraft(id, url)]
  }

  /** `{ ...l, listing: { ...l.listing, ...updates } }` when `l` has a `listing` object. */
  function PatchContent(l: Obj, updates: Obj): (r: Obj)
    ensures "listing" !in l ==> r == l
    ensures r.Keys == l.Keys
    ensures forall k :: k in l && k != "listing" ==> r[k] == l[k]
  {
    if "listing" !in l then l
    else
      var inner := if l["listing"].JObject? then l["listing"].fields else map[];
      l["listing" := JObject(inner + updates)]
  }

  /** `patchListingDraftContent`: the nested listing of the matching entry takes the updates; its status stays. */
  function PatchListingDraftContent(prev: Option<seq<Obj>>, id: string, updates: Obj): (r: seq<Obj>)
    ensures |r| == |OrEmpty(prev)|
    ensures forall i :: 0 <= i < |r| ==> r[i] == if HasId(OrEmpty(prev)[i], id) then PatchContent(OrEmpty(prev)[i], updates) else OrEmpty(prev)[i]
  {
    MapWhereId(OrEmpty(prev), id, l => PatchContent(l, updates))
  }

  /** Whether an entry's id is one of `ids` (`ids.includes(l.id)`). */
  predicate Listed(l: Obj, ids: seq<string>)
  {
    exists i :: 0 <= i < |ids| && HasId(l, ids[i])
  }

  /** `discardListingDrafts`: `filter((l) => !ids.includes(l.id))`. */
  function DiscardListingDrafts(prev: Option<seq<Obj>>, ids: seq<string>): (r: seq<Obj>)
    ensures forall i :: 0 <= i < |r| ==> !Listed(r[i], ids)
    ensures |r| <= |OrEmpty(prev)|
  {
    Keep(OrEmpty(prev), ids)
  }

  function Keep(xs: seq<Obj>, ids: seq<string>): (r: seq<Obj>)
    ensures forall i :: 0 <= i < |r| ==> !Listed(r[i], ids)
    ensures |r| <= |xs|
  {
    if xs == [] then []
    else (if Listed(xs[0], ids) then [] else [xs[0]]) + Keep(xs[1..], ids)
  }

  /** A discard works entry by entry: it distributes over concatenation. */
  lemma {:induction false} KeepAppend(xs: seq<Obj>, ys: seq<Obj>, ids: seq<string>)
    ensures Keep(xs + ys, ids) == Keep(xs, ids) + Keep(ys, ids)
  {
    if xs == [] {
      assert xs + ys == ys;
    } else {
      assert (xs + ys)[0] == xs[0];
      assert (xs + ys)[1..] == xs[1..] + ys;
      KeepAppend(xs[1..], ys, ids);
    }
  }

  /** What a discard keeps: every unlisted entry as often as before, no listed one. */
  lemma {:induction false} KeepCount(xs: seq<Obj>, ids: seq<string>, l: Obj)
    ensures multiset(Keep(xs, ids))[l] == if Listed(l, ids) then 0 else multiset(xs)[l]
  {
    if xs != [] {
      KeepCount(xs[1..], ids, l);
      assert xs == [xs[0]] + xs[1..];
      assert multiset(xs) == multiset([xs[0]]) + multiset(xs[1..]);
      var head := if Listed(xs[0], ids) then [] else [xs[0]];
      assert Keep(xs, ids) == head + Keep(xs[1..], ids);
      assert multiset(Keep(xs, ids)) == multiset(head) + multiset(Keep(xs[1..], ids));
    }
  }

  /** Discarding twice is discarding both lists at once. */
  lemma {:induction false} DiscardTwice(xs: seq<Obj>, a: seq<string>, b: seq<string>)
    ensures Keep(Keep(xs, a), b) == Keep(xs, a + b)
  {
    if xs != [] {
      DiscardTwice(xs[1..], a, b);
      assert Listed(xs[0], a + b) <==> Listed(xs[0], a) || Listed(xs[0], b) by {
        if Listed(xs[0], a + b) {
          var i :| 0 <= i < |a + b| && HasId(xs[0], (a + b)[i]);
          if i >= |a| { assert b[i - |a|] == (a + b)[i]; }
        }
        if Listed(xs[0], a) {
          var i :| 0 <= i < |a| && HasId(xs[0], a[i]);
          assert (a + b)[i] == a[i];
        }
        if Listed(xs[0], b) {
          var i :| 0 <= i < |b| && HasId(xs[0], b[i]);
          assert (a + b)[|a| + i] == b[i];
        }
      }
      var rest := Keep(xs[1..], a);
      if !Listed(xs[0], a) {
        assert Keep(xs, a) == [xs[0]] + rest;
        assert ([xs[0]] + rest)[0] == xs[0];
        assert ([xs[0]] + rest)[1..] == rest;
      } else {
        assert Keep(xs, a) == [] + rest;
        assert [] + rest == rest;
      }
    }
  }

  // ---------------------------------------------------------------- useListingCache

  /** `updateListing`: an absent cache becomes `[]`; the matching entry is shallow-merged with the updates. */
  function UpdateListing(prev: Option<seq<Obj>>, id: string, updates: Obj): (r: seq<Obj>)
    ensures prev.None? ==> r == []
    ensures |r| == |OrEmpty(prev)|
    ensures forall i :: 0 <= i < |r| ==> r[i] == if HasId(OrEmpty(prev)[i], id) then OrEmpty(prev)[i] + updates else OrEmpty(prev)[i]
  {
    if prev.None? then [] else MapWhereId(prev.value, id, l => l + updates)
  }

  /** Two successive updates of one entry are one update with the merged changes, as long as the id is not changed. */
  lemma UpdateTwice(xs: seq<Obj>, id: string, u: Obj, v: Obj)
    requires "id" !in u
    ensures UpdateListing(Some(UpdateListing(Some(xs), id, u)), id, v) == UpdateListing(Some(xs), id, u + v)
  {
    var once := UpdateListing(Some(xs), id, u);
    forall i | 0 <= i < |xs| ensures HasId(once[i], id) == HasId(xs[i], id) {
      if HasId(xs[i], id) {
        assert once[i] == xs[i] + u;
        assert once[i]["id"] == xs[i]["id"];
      }
    }
    assert forall i :: 0 <= i < |xs| && HasId(xs[i], id) ==> (xs[i] + u) + v == xs[i] + (u + v);
  }

  /** `clearListings`. */
  function ClearListings(): (r: seq<Obj>)
    ensures r == []
  {
    []
  }

  /** `getListing`: the first entry with the id (`find`); `None` is `undefined`. */
  function GetListing(cache: Option<seq<Obj>>, id: Option<string>): (r: Option<Obj>)
    ensures r.Some? <==> exists i :: 0 <= i < |OrEmpty(cache)| && IdOf(OrEmpty(cache)[i]) == Some(IdValue(id))
    ensures r.Some? ==> IdOf(r.value) == Some(IdValue(id))
    ensures r.Some? ==> exists i :: (0 <= i < |OrEmpty(cache)| && OrEmpty(cache)[i] == r.value
      && forall j :: 0 <= j < i ==> IdOf(OrEmpty(cache)[j]) != Some(IdValue(id)))
  {
    var k := FindIndex(OrEmpty(cache), IdValue(id));
    if k.Some? then Some(OrEmpty(cache)[k.value]) else None
  }

  /** The value `id` stands for: a string, or `null`. */
  function IdValue(id: Option<string>): (r: JsValue)
    ensures id.Some? <==> r.JStr?
  {
    if id.Some? then JStr(id.value) else JNull
  }

  /** The position of the first entry whose id is `target`. */
  function FindIndex(xs: seq<Obj>, target: JsValue): (r: Option<nat>)
    ensures r.Some? ==> r.value < |xs| && IdOf(xs[r.value]) == Some(target)
    ensures r.Some? ==> forall j :: 0 <= j < r.value ==> IdOf(xs[j]) != Some(target)
    ensures r.None? ==> forall i :: 0 <= i < |xs| ==> IdOf(xs[i]) != Some(target)
  {
    if xs == [] then None
    else if IdOf(xs[0]) == Some(target) then Some(0)
    else
      var k := FindIndex(xs[1..], target);
      if k.Some? then Some(k.value + 1) else None
  }

  /** After `setListingDraft(id, listing)` with a listing that keeps the id, `getListing(id)` finds it, if the id was cached. */
  lemma SetThenGet(prev: Option<seq<Obj>>, id: string, listing: Obj)
    requires HasId(listing, id)
    ensures GetListing(Some(SetListingDraft(prev, id, listing)), Some(id)).Some? <==> exists i :: 0 <= i < |OrEmpty(prev)| && HasId(OrEmpty(prev)[i], id)
    ensures GetListing(Some(SetListingDraft(prev, id, listing)), Some(id)).Some? ==> GetListing(Some(SetListingDraft(prev, id, listing)), Some(id)).value == listing
  {
    var xs := OrEmpty(prev);
    var ys := SetListingDraft(prev, id, listing);
    var r := GetListing(Some(ys), Some(id));
    if exists i :: 0 <= i < |xs| && HasId(xs[i], id) {
      var i :| 0 <= i < |xs| && HasId(xs[i], id);
      assert IdOf(ys[i]) == Some(JStr(id));
    }
    if r.Some? {
      var i :| 0 <= i < |ys| && ys[i] == r.value && IdOf(r.value) == Some(JStr(id));
    }
  }

  // ---------------------------------------------------------------- useListingMutations

  /** The cache after `scrapeListings` registers its URLs: one pending draft per URL, after the existing entries. */
  function AddPendingDrafts(prev: Option<seq<Obj>>, urls: seq<string>, ids: seq<string>): (r: seq<Obj>)
    requires |ids| == |urls|
    ensures |r| == |OrEmpty(prev)| + |urls|
    ensures r[..|OrEmpty(prev)|] == OrEmpty(prev)
    ensures forall i :: 0 <= i < |urls| ==> r[|OrEmpty(prev)| + i] == PendingDraft(ids[i], urls[i])
  {
    var existing := OrEmpty(prev);
    var pending := PendingDrafts(urls, ids);
    ConcatParts(existing, pending);
    existing + pending
  }

  lemma ConcatParts<T>(a: seq<T>, b: seq<T>)
    ensures (a + b)[..|a|] == a
    ensures forall i :: 0 <= i < |b| ==> (a + b)[|a| + i] == b[i]
  {
  }

  function PendingDrafts(urls: seq<string>, ids: seq<string>): (r: seq<Obj>)
    requires |ids| == |urls|
    ensures |r| == |urls|
    ensures forall i :: 0 <= i < |urls| ==> r[i] == PendingDraft(ids[i], urls[i])
  {
    seq(|urls|, i requires 0 <= i < |urls| => PendingDraft(ids[i], urls[i]))
  }

  /** The scrape succeeded: the entry with the returned draft's id becomes that draft. */
  function ScrapeSucceeded(prev: Option<seq<Obj>>, listing: Obj): (r: seq<Obj>)
    ensures |r| == |OrEmpty(prev)|
    ensures forall i :: 0 <= i < |r| ==> r[i] == if IdOf(OrEmpty(prev)[i]) == IdOf(listing) then listing else OrEmpty(prev)[i]
  {
    var xs := OrEmpty(prev);
    seq(|xs|, i requires 0 <= i < |xs| => if IdOf(xs[i]) == IdOf(listing) then listing else xs[i])
  }

  /** The scrape failed: the entry keeps its fields and gains `status: 'error'` and the message. */
  function ScrapeFailed(prev: Option<seq<Obj>>, id: string, message: string): (r: seq<Obj>)
    ensures |r| == |OrEmpty(prev)|
    ensures forall i :: 0 <= i < |r| && HasId(OrEmpty(prev)[i], id) ==>
      r[i] == OrEmpty(prev)[i]["status" := JStr("error")]["error" := JStr(message)]
    ensures forall i :: 0 <= i < |r| && !HasId(OrEmpty(prev)[i], id) ==> r[i] == OrEmpty(prev)[i]
  {
    MapWhereId(OrEmpty(prev), id, l => l["status" := JStr("error")]["error" := JStr(message)])
  }

  /** The extraction succeeded: like a scrape success, but an absent cache stays absent. */
  function ExtractSucceeded(prev: Option<seq<Obj>>, updated: Obj): (r: Option<seq<Obj>>)
    ensures prev.None? <==> r.None?
    ensures r.Some? ==> r.value == ScrapeSucceeded(prev, updated)
  {
    if prev.None? then None else Some(ScrapeSucceeded(prev, updated))
  }

  /** What an extraction mutation's variables are: the draft and the page content; they have no `id`. */
  datatype ExtractVariables = ExtractVariables(listing: Obj, content: string)

  /** `pendingExtractions`: `variables?.id` of each pending extraction, always `undefined`. */
  function PendingIds(pending: seq<ExtractVariables>): (r: seq<Option<JsValue>>)
    ensures |r| == |pending|
    ensures forall i :: 0 <= i < |r| ==> r[i].None?
  {
    seq(|pending|, i requires 0 <= i < |pending| => None)
  }

  /** `isExtractLoading`. */
  function IsExtractLoading(pending: seq<ExtractVariables>, listing: Option<Obj>): bool
  {
    if listing.None? then |PendingIds(pending)| > 0 else IdOf(listing.value) in PendingIds(pending)
  }

  /**
   * With no listing, loading means some extraction is pending. For a
   * listing that has an id the per-listing check can never succeed, since
   * the extraction's variables carry no id.
   */
  lemma ExtractLoadingMeaning(pending: seq<ExtractVariables>, listing: Option<Obj>)
    ensures listing.None? ==> (IsExtractLoading(pending, listing) <==> pending != [])
    ensures listing.Some? && "id" in listing.value ==> !IsExtractLoading(pending, listing)
  {
  }

  /** The ids the selector evidently means to collect: the id of each pending extraction's draft. */
  function PendingListingIds(pending: seq<ExtractVariables>): (r: seq<Option<JsValue>>)
    ensures |r| == |pending|
    ensures forall i :: 0 <= i < |r| ==> r[i] == IdOf(pending[i].listing)
  {
    seq(|pending|, i requires 0 <= i < |pending| => IdOf(pending[i].listing))
  }

  /** `isExtractLoading` over the drafts' ids. */
  function IsExtractLoadingFor(pending: seq<ExtractVariables>, listing: Option<Obj>): bool
  {
    if listing.None? then |PendingListingIds(pending)| > 0 else IdOf(listing.value) in PendingListingIds(pending)
  }

  /** A listing is loading exactly when an extraction of a draft with its id is pending. */
  lemma ExtractLoadingForMeaning(pending: seq<ExtractVariables>, listing: Option<Obj>)
    ensures listing.None? ==> (IsExtractLoadingFor(pending, listing) <==> pending != [])
    ensures listing.Some? ==>
      (IsExtractLoadingFor(pending, listing) <==> exists i :: 0 <= i < |pending| && IdOf(pending[i].listing) == IdOf(listing.value))
  {
    var ids := PendingListingIds(pending);
    if listing.Some? && IsExtractLoadingFor(pending, listing) {
      var i :| 0 <= i < |ids| && ids[i] == IdOf(listing.value);
    }
  }

  /** The draft being extracted: the as-written check says it is not loading, the corrected one says it is. */
  lemma ExtractedDraftNotLoading()
    ensures var draft := map["id" := JStr("a")];
      var pending := [ExtractVariables(draft, "page")];
      !IsExtractLoading(pending, Some(draft)) && IsExtractLoadingFor(pending, Some(draft))
  {
    var draft := map["id" := JStr("a")];
    var pending := [ExtractVariables(draft, "page")];
    assert PendingListingIds(pending)[0] == IdOf(draft);
  }

  /**
   * `scrapeListings` end to end: after the pending drafts are added, each
   * scrape settles in some order and applies its updater. A URL whose
   * request succeeded with a draft of its own id ends up as that draft, a
   * failed one is marked as an error; the entries before are untouched as
   * long as their ids differ from the new ones.
   */
  datatype Outcome = Succeeded(draft: Obj) | Failed(message: string)

  function Settle(cache: seq<Obj>, ids: seq<string>, outcomes: seq<Outcome>): (r: seq<Obj>)
    requires |outcomes| == |ids|
    ensures |r| == |cache|
  {
    if outcomes == [] then cache
    else
      var n := |outcomes| - 1;
      var before := Settle(cache, ids[..n], outcomes[..n]);
      match outcomes[n]
      case Succeeded(d) => ScrapeSucceeded(Some(before), d)
      case Failed(m) => ScrapeFailed(Some(before), ids[n], m)
  }

  /** An entry whose id none of the settled scrapes names is never touched. */
  lemma {:induction false} SettleUntouched(cache: seq<Obj>, ids: seq<string>, outcomes: seq<Outcome>, i: int)
    requires |outcomes| == |ids| && 0 <= i < |cache|
    requires forall k :: 0 <= k < |ids| ==> !HasId(cache[i], ids[k])
    requires forall k :: 0 <= k < |ids| && outcomes[k].Succeeded? ==> IdOf(outcomes[k].draft) == Some(JStr(ids[k]))
    ensures Settle(cache, ids, outcomes)[i] == cache[i]
  {
    if outcomes != [] {
      var n := |outcomes| - 1;
      SettleUntouched(cache, ids[..n], outcomes[..n], i);
      assert !HasId(cache[i], ids[n]);
    }
  }
}
