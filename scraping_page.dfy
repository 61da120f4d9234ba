/**
 * The scraping page: a batch of URLs is scraped, the usable results are
 * split into unique listings and duplicates, the completed ones are
 * pre-selected, and the selected listings are saved.
 */
module ScrapingPage {
  import opened Wrappers
  import opened Text
  import opened DraftListings

  datatype ScrapeStatus = Completed | DuplicateUrlStatus | DuplicateSemantic | Failed

  datatype DuplicateOf = DuplicateOf(listing: Stored, applicationId: string)

  /** A scrape result; the text fields may be missing or empty. */
  datatype ScrapeItem = ScrapeItem(
    id: string, url: string, title: Option<string>, company: Option<string>, domain: Option<string>,
    location: Option<string>, description: Option<string>, postedDate: Option<string>,
    skills: seq<Grounded>, requirements: seq<Grounded>, status: ScrapeStatus, duplicateOf: Option<DuplicateOf>)

  /** The four required fields are all truthy. */
  predicate Usable(x: ScrapeItem)
  {
    Truthy(x.title) && Truthy(x.company) && Truthy(x.domain) && Truthy(x.description)
  }

  predicate IsUnique(x: ScrapeItem)
  {
    x.status == Completed && Usable(x)
  }

  predicate IsDuplicateResult(x: ScrapeItem)
  {
    (x.status == DuplicateUrlStatus || x.status == DuplicateSemantic) && x.duplicateOf.Some? && Usable(x)
  }

  /** `x || null`. */
  function OrNull(x: Option<string>): (r: Option<string>)
    ensures r.Some? <==> Truthy(x)
    ensures r.Some? ==> r == x
  {
    if Truthy(x) then x else None
  }

  function Values(xs: seq<Grounded>): (r: seq<string>)
    ensures |r| == |xs| && forall k :: 0 <= k < |xs| ==> r[k] == xs[k].value
  {
    seq(|xs|, k requires 0 <= k < |xs| => xs[k].value)
  }

  /** The listing a usable result becomes: grounded items flattened to their values, falsy location and date to null. */
  function ToListing(x: ScrapeItem): (r: Stored)
    requires Usable(x)
    ensures r.id == x.id && r.url == x.url
    ensures Some(r.title) == x.title && Some(r.company) == x.company && Some(r.domain) == x.domain
    ensures r.skills == Values(x.skills) && r.requirements == Values(x.requirements)
    ensures r.location == OrNull(x.location) && r.postedDate == OrNull(x.postedDate)
    ensures Some(r.description) == x.description
  {
    Stored(x.id, x.url, x.title.value, x.company.value, x.domain.value, OrNull(x.location),
      x.description.value, OrNull(x.postedDate), Values(x.skills), Values(x.requirements))
  }

  /** `getUniqueListings`. */
  function UniqueListings(rs: seq<ScrapeItem>): (r: seq<Stored>)
    ensures |r| <= |rs|
  {
    if rs == [] then []
    else (if IsUnique(rs[0]) then [ToListing(rs[0])] else []) + UniqueListings(rs[1..])
  }

  /** `getDuplicateListings`. */
  function DuplicateListings(rs: seq<ScrapeItem>): (r: seq<(Stored, DuplicateOf)>)
    ensures |r| <= |rs|
  {
    if rs == [] then []
    else (if IsDuplicateResult(rs[0]) then [(ToListing(rs[0]), rs[0].duplicateOf.value)] else []) + DuplicateListings(rs[1..])
  }

  /** Result `k` of `rs` is unique and yields `l`. */
  predicate UniqueAt(rs: seq<ScrapeItem>, k: int, l: Stored)
  {
    0 <= k < |rs| && IsUnique(rs[k]) && ToListing(rs[k]) == l
  }

  /** Result `k` of `rs` is a usable duplicate yielding `p`. */
  predicate DuplicateAt(rs: seq<ScrapeItem>, k: int, p: (Stored, DuplicateOf))
  {
    0 <= k < |rs| && IsDuplicateResult(rs[k]) && ToListing(rs[k]) == p.0 && rs[k].duplicateOf == Some(p.1)
  }

  /** The unique listings are exactly the listings of the completed, usable results. */
  lemma {:induction false} UniqueExactly(rs: seq<ScrapeItem>, l: Stored)
    ensures l in UniqueListings(rs) <==> exists k :: UniqueAt(rs, k, l)
  {
    if rs != [] {
      var tail := rs[1..];
      var head := if IsUnique(rs[0]) then [ToListing(rs[0])] else [];
      assert UniqueListings(rs) == head + UniqueListings(tail);
      UniqueExactly(tail, l);
      if exists k :: UniqueAt(rs, k, l) {
        var k :| UniqueAt(rs, k, l);
        if k > 0 {
          assert UniqueAt(tail, k - 1, l);
        }
      }
      if exists k :: UniqueAt(tail, k, l) {
        var k :| UniqueAt(tail, k, l);
        assert UniqueAt(rs, k + 1, l);
      }
      if l in head {
        assert UniqueAt(rs, 0, l);
      }
    }
  }

  /** The duplicates are exactly the usable duplicate results that name what they duplicate. */
  lemma {:induction false} DuplicatesExactly(rs: seq<ScrapeItem>, p: (Stored, DuplicateOf))
    ensures p in DuplicateListings(rs) <==> exists k :: DuplicateAt(rs, k, p)
  {
    if rs != [] {
      var tail := rs[1..];
      var head := if IsDuplicateResult(rs[0]) then [(ToListing(rs[0]), rs[0].duplicateOf.value)] else [];
      assert DuplicateListings(rs) == head + DuplicateListings(tail);
      DuplicatesExactly(tail, p);
      if exists k :: DuplicateAt(rs, k, p) {
        var k :| DuplicateAt(rs, k, p);
        if k > 0 {
          assert DuplicateAt(tail, k - 1, p);
        }
      }
      if exists k :: DuplicateAt(tail, k, p) {
        var k :| DuplicateAt(tail, k, p);
        assert DuplicateAt(rs, k + 1, p);
      }
      if p in head {
        assert DuplicateAt(rs, 0, p);
      }
    }
  }

  predicate DistinctIds(rs: seq<ScrapeItem>)
  {
    forall i, j :: 0 <= i < j < |rs| ==> rs[i].id != rs[j].id
  }

  /** With distinct result ids, no listing is both unique and a duplicate. */
  lemma UniqueAndDuplicatesDisjoint(rs: seq<ScrapeItem>, l: Stored, p: (Stored, DuplicateOf))
    requires DistinctIds(rs)
    requires l in UniqueListings(rs) && p in DuplicateListings(rs)
    ensures l.id != p.0.id
  {
    UniqueExactly(rs, l);
    DuplicatesExactly(rs, p);
    var i :| UniqueAt(rs, i, l);
    var j :| DuplicateAt(rs, j, p);
    assert i != j;
  }

  /** The pre-selection: the ids of the completed results, usable or not. */
  function PreSelection(rs: seq<ScrapeItem>): (r: set<string>)
    ensures forall id :: id in r <==> exists k :: 0 <= k < |rs| && rs[k].status == Completed && rs[k].id == id
  {
    set k | 0 <= k < |rs| && rs[k].status == Completed :: rs[k].id
  }

  /** `handleScrape`: the URLs to scrape, one per non-blank line, trimmed; `None` when there are none. */
  function ScrapeRequest(urls: string): (r: Option<seq<string>>)
    ensures r.Some? ==> r.value != [] && forall k :: 0 <= k < |r.value| ==> r.value[k] != []
    ensures r.None? <==> TrimmedLines(Split(urls, '\n')) == []
  {
    var lines := TrimmedLines(Split(urls, '\n'));
    if lines == [] then None else Some(lines)
  }

  /** Listings whose id is selected, in order. */
  function Selected(ls: seq<Stored>, selected: set<string>): (r: seq<Stored>)
    ensures |r| <= |ls|
    ensures forall k :: 0 <= k < |r| ==> r[k].id in selected
  {
    if ls == [] then []
    else (if ls[0].id in selected then [ls[0]] else []) + Selected(ls[1..], selected)
  }

  lemma {:induction false} SelectedExactly(ls: seq<Stored>, selected: set<string>, l: Stored)
    ensures l in Selected(ls, selected) <==> l in ls && l.id in selected
  {
    if ls != [] {
      SelectedExactly(ls[1..], selected, l);
      assert ls == [ls[0]] + ls[1..];
    }
  }

  function DuplicateListingsOnly(ps: seq<(Stored, DuplicateOf)>): (r: seq<Stored>)
    ensures |r| == |ps| && forall k :: 0 <= k < |ps| ==> r[k] == ps[k].0
  {
    seq(|ps|, k requires 0 <= k < |ps| => ps[k].0)
  }

  /** `handleSave`: the selected ones among the unique listings followed by the duplicates' listings. */
  function SaveRequest(result: Option<seq<ScrapeItem>>, selected: set<string>): (r: Option<seq<Stored>>)
    ensures r.None? <==> result.None?
  {
    if result.None? then None
    else Some(Selected(UniqueListings(result.value) + DuplicateListingsOnly(DuplicateListings(result.value)), selected))
  }

  /** What is saved: every selected unique listing and every selected duplicate, and nothing else. */
  lemma SaveExactly(rs: seq<ScrapeItem>, selected: set<string>, l: Stored)
    ensures l in SaveRequest(Some(rs), selected).value <==>
      l.id in selected && (l in UniqueListings(rs) || exists p :: p in DuplicateListings(rs) && p.0 == l)
  {
    var u := UniqueListings(rs);
    var d := DuplicateListingsOnly(DuplicateListings(rs));
    SelectedExactly(u + d, selected, l);
    if l in d {
      var k :| 0 <= k < |d| && d[k] == l;
      assert DuplicateListings(rs)[k] in DuplicateListings(rs);
    }
    if exists p :: p in DuplicateListings(rs) && p.0 == l {
      var p :| p in DuplicateListings(rs) && p.0 == l;
      var k :| 0 <= k < |DuplicateListings(rs)| && DuplicateListings(rs)[k] == p;
      assert d[k] == l;
    }
  }

  /** `handleLoadExisting`'s stand-in result: a stored listing as a completed scrape with unquoted items. */
  function LoadedAsResult(l: Stored): (r: ScrapeItem)
    ensures r.status == Completed && r.duplicateOf.None? && r.id == l.id && r.url == l.url
    ensures Values(r.skills) == l.skills && Values(r.requirements) == l.requirements
    ensures forall k :: 0 <= k < |r.skills| ==> r.skills[k].quote.None?
    ensures forall k :: 0 <= k < |r.requirements| ==> r.requirements[k].quote.None?
  {
    var skills := seq(|l.skills|, k requires 0 <= k < |l.skills| => Grounded(l.skills[k], None));
    var requirements := seq(|l.requirements|, k requires 0 <= k < |l.requirements| => Grounded(l.requirements[k], None));
    assert Values(skills) == l.skills;
    assert Values(requirements) == l.requirements;
    ScrapeItem(l.id, l.url, Some(l.title), Some(l.company), Some(l.domain), l.location,
      Some(l.description), l.postedDate, skills, requirements, Completed, None)
  }

  /** A listing with its four required fields set and no empty location or date survives the trip unchanged. */
  lemma LoadedRoundTrip(l: Stored)
    requires l.title != "" && l.company != "" && l.domain != "" && l.description != ""
    requires l.location != Some("") && l.postedDate != Some("")
    ensures UniqueListings([LoadedAsResult(l)]) == [l]
    ensures DuplicateListings([LoadedAsResult(l)]) == []
    ensures PreSelection([LoadedAsResult(l)]) == {l.id}
  {
    var x := LoadedAsResult(l);
    assert IsUnique(x);
    assert ToListing(x) == l;
    assert UniqueListings([x]) == [ToListing(x)] + UniqueListings([]);
  }

  /** A loaded listing missing a required field is pre-selected but never saved. */
  lemma LoadedWithoutTitle(l: Stored)
    requires l.title == ""
    ensures UniqueListings([LoadedAsResult(l)]) == [] && DuplicateListings([LoadedAsResult(l)]) == []
    ensures PreSelection([LoadedAsResult(l)]) == {l.id}
    ensures SaveRequest(Some([LoadedAsResult(l)]), {l.id}) == Some([])
  {
    var x := LoadedAsResult(l);
    assert !IsUnique(x);
    assert UniqueListings([x]) == UniqueListings([]);
    assert DuplicateListings([x]) == DuplicateListings([]);
  }

  predicate NoneBefore(ls: seq<Stored>, k: int, id: string)
    requires 0 <= k <= |ls|
  {
    forall j :: 0 <= j < k ==> ls[j].id != id
  }

  /** `existingListings.find`: the first listing with the id. */
  function FindById(ls: seq<Stored>, id: string): (r: Option<Stored>)
    ensures r.None? <==> forall k :: 0 <= k < |ls| ==> ls[k].id != id
    ensures r.Some? ==> r.value.id == id && exists k :: 0 <= k < |ls| && ls[k] == r.value && NoneBefore(ls, k, id)
  {
    if ls == [] then None
    else if ls[0].id == id then Some(ls[0])
    else
      var rest := FindById(ls[1..], id);
      if rest.Some? then
        var k :| 0 <= k < |ls[1..]| && ls[1..][k] == rest.value && NoneBefore(ls[1..], k, id);
        assert ls[k + 1] == rest.value && NoneBefore(ls, k + 1, id);
        rest
      else rest
  }

  /** The page's state: the URL text, the last scrape result and the selection. */
  class Page {
    var urls: string
    var result: Option<seq<ScrapeItem>>
    var selected: set<string>

    constructor()
      ensures urls == "" && result.None? && selected == {}
    {
      urls := "";
      result := None;
      selected := {};
    }

    /** A scrape succeeded: the result is shown and its completed listings are pre-selected. */
    method ScrapeSucceeded(rs: seq<ScrapeItem>)
      modifies this
      ensures result == Some(rs) && selected == PreSelection(rs) && urls == old(urls)
    {
      result := Some(rs);
      selected := PreSelection(rs);
    }

    /** `handleSelectionChange`: one id in or out, the rest unchanged. */
    method SelectionChange(id: string, checked: bool)
      modifies this
      ensures checked ==> selected == old(selected) + {id}
      ensures !checked ==> selected == old(selected) - {id}
      ensures result == old(result) && urls == old(urls)
    {
      if checked {
        selected := selected + {id};
      } else {
        selected := selected - {id};
      }
    }

    /** `handleLoadExisting`: a chosen, known listing replaces the result and is pre-selected; otherwise nothing changes. */
    method LoadExisting(existing: seq<Stored>, chosen: string)
      modifies this
      ensures chosen == "" || FindById(existing, chosen).None? ==> result == old(result) && selected == old(selected)
      ensures chosen != "" && FindById(existing, chosen).Some? ==>
        result == Some([LoadedAsResult(FindById(existing, chosen).value)]) && selected == {chosen}
      ensures urls == old(urls)
    {
      if chosen != "" {
        var found := FindById(existing, chosen);
        if found.Some? {
          var rs := [LoadedAsResult(found.value)];
          assert PreSelection(rs) == {chosen} by {
            forall id | id in PreSelection(rs) ensures id == chosen {
              var k :| 0 <= k < |rs| && rs[k].status == Completed && rs[k].id == id;
            }
            assert rs[0].id == chosen;
          }
          result := Some(rs);
          selected := PreSelection(rs);
        }
      }
    }

    /** A save succeeded: the result and the URL text are cleared; the selection stays. */
    method SaveSucceeded()
      modifies this
      ensures result.None? && urls == "" && selected == old(selected)
    {
      result := None;
      urls := "";
    }
  }
}
