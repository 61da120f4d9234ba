/**
 * The listings table's sort state in the URL: `tableSortHandler` writes
 * the first sort entry as `id:desc` or `id:asc` and reads it back, and the
 * query's `sortBy` and `sortOrder` are derived from the state.
 */
module ListingsTable {
  import opened Wrappers
  import opened Text
  import opened UrlParams

  /** One entry of TanStack's `SortingState`. */
  datatype SortEntry = SortEntry(id: string, desc: bool)

  function OrderText(desc: bool): string
  {
    if desc then "desc" else "asc"
  }

  /** `tableSortHandler.serialize`: `null` for no sort, else only the first entry. */
  function SerializeSort(v: seq<SortEntry>): (r: Serialized)
    ensures v == [] <==> r.Absent?
    ensures r.Absent? || r.One?
  {
    if v == [] then Absent else One(v[0].id + ":" + OrderText(v[0].desc))
  }

  /** The text after `val.split(':')` destructured into `[id, desc]`. */
  function ParseSort(val: Option<string>): (r: seq<SortEntry>)
    ensures val.None? || val == Some("") ==> r == []
    ensures val.Some? && val.value != "" ==> |r| == 1
  {
    if val.None? || val.value == "" then []
    else
      var parts := Split(val.value, ':');
      [SortEntry(parts[0], |parts| > 1 && parts[1] == "desc")]
  }

  /** `tableSortHandler.deserialize`: never `null`, so the hook's default is never consulted. */
  function DeserializeSort(es: Entries, key: string): (r: Option<seq<SortEntry>>)
    ensures r.Some?
  {
    Some(ParseSort(First(es, key)))
  }

  /** `sorting[0]?.id || ''`. */
  function SortBy(sorting: seq<SortEntry>): (r: string)
    ensures sorting == [] ==> r == ""
  {
    if sorting == [] then "" else sorting[0].id
  }

  /** `sorting[0]?.desc ? 'desc' : 'asc'`. */
  function SortOrder(sorting: seq<SortEntry>): (r: string)
    ensures r == "desc" <==> sorting != [] && sorting[0].desc
    ensures r != "desc" ==> r == "asc"
  {
    if sorting != [] && sorting[0].desc then "desc" else "asc"
  }

  /** Only the first entry of the sorting state is ever written. */
  lemma OnlyFirstSerialized(v: seq<SortEntry>)
    requires v != []
    ensures SerializeSort(v) == SerializeSort([v[0]])
  {
  }

  /** The order suffix decides `desc`: exactly `desc` gives true, anything else false. */
  lemma {:induction false} DescIffSuffix(id: string, suffix: string)
    requires ':' !in id && ':' !in suffix
    ensures ParseSort(Some(id + ":" + suffix)) == [SortEntry(id, suffix == "desc")]
  {
    SplitPrefix(id, suffix, ':');
    assert id + ":" + suffix == id + [':'] + suffix;
    SplitFree(suffix, ':');
  }

  /** A single entry whose id has no `:` survives the round trip through the URL. */
  lemma {:induction false} SortRoundTrip(e: SortEntry)
    requires ':' !in e.id
    ensures ParseSort(Some(SerializeSort([e]).text)) == [e]
  {
    DescIffSuffix(e.id, OrderText(e.desc));
  }

  /**
   * Through the hook, with the default `[]`: setting no sort, or one entry
   * whose id has no `:`, reads back as what was set.
   */
  lemma {:induction false} HookSortRoundTrip(es: Entries, v: seq<SortEntry>)
    requires |v| <= 1
    requires v != [] ==> ':' !in v[0].id
    ensures HookValue(DeserializeSort(AfterSet(es, "sort", v, [], SerializeSort), "sort"), []) == v
  {
    var after := AfterSet(es, "sort", v, [], SerializeSort);
    AfterSetAll(es, "sort", v, [], SerializeSort, "sort");
    FirstAll(after, "sort");
    if v != [] {
      assert v == [v[0]];
      SortRoundTrip(v[0]);
    }
  }
}
