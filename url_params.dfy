/**
 * A `URLSearchParams` object, the preset parameter handlers of
 * `useUrlSyncedState`, and the hook's read and write paths: a parameter
 * that fails to deserialise reads as the default, and writing the
 * default removes the parameter.
 */
module UrlParams {
  import opened Wrappers

  type Entries = seq<(string, string)>

  /** `params.get(key)`: the first value under `key`. */
  function First(es: Entries, key: string): (r: Option<string>)
    ensures r.Some? <==> exists i :: 0 <= i < |es| && es[i].0 == key
    ensures r.Some? ==> exists i :: 0 <= i < |es| && es[i] == (key, r.value) && forall j :: 0 <= j < i ==> es[j].0 != key
  {
    if es == [] then None
    else if es[0].0 == key then Some(es[0].1)
    else
      var r := First(es[1..], key);
      assert forall i :: 0 < i < |es| ==> es[i] == es[1..][i - 1];
      r
  }

  /** `params.getAll(key)`: every value under `key`, in order. */
  function All(es: Entries, key: string): (r: seq<string>)
    ensures |r| <= |es|
  {
    if es == [] then []
    else (if es[0].0 == key then [es[0].1] else []) + All(es[1..], key)
  }

  /** The entries without any under `key`. */
  function Without(es: Entries, key: string): (r: Entries)
    ensures |r| <= |es|
  {
    if es == [] then []
    else (if es[0].0 == key then [] else [es[0]]) + Without(es[1..], key)
  }

  lemma WithoutAt(es: Entries, i: int, key: string)
    requires 0 <= i < |es|
    ensures Without(es[i..], key) == (if es[i].0 == key then [] else [es[i]]) + Without(es[i + 1..], key)
  {
    assert es[i..][1..] == es[i + 1..];
  }

  /** `params.set(key, v)`: the first entry under `key` takes `v` and the others go; with none, `(key, v)` is appended. */
  function Replaced(es: Entries, key: string, v: string): (r: Entries)
  {
    if es == [] then [(key, v)]
    else if es[0].0 == key then [(key, v)] + Without(es[1..], key)
    else [es[0]] + Replaced(es[1..], key, v)
  }

  lemma {:induction false} AllAppend(es: Entries, more: Entries, key: string)
    ensures All(es + more, key) == All(es, key) + All(more, key)
  {
    if es == [] {
      assert es + more == more;
    } else {
      assert (es + more)[1..] == es[1..] + more;
      AllAppend(es[1..], more, key);
    }
  }

  lemma {:induction false} AllWithout(es: Entries, key: string, k: string)
    ensures All(Without(es, key), k) == if k == key then [] else All(es, k)
  {
    if es != [] {
      AllWithout(es[1..], key, k);
      AllAppend(if es[0].0 == key then [] else [es[0]], Without(es[1..], key), k);
    }
  }

  lemma {:induction false} FirstAll(es: Entries, key: string)
    ensures First(es, key) == if All(es, key) == [] then None else Some(All(es, key)[0])
  {
    if es != [] {
      FirstAll(es[1..], key);
    }
  }

  /** After `set`, the key holds exactly the new value and every other key keeps its values. */
  lemma {:induction false} AllReplaced(es: Entries, key: string, v: string, k: string)
    ensures All(Replaced(es, key, v), k) == if k == key then [v] else All(es, k)
  {
    if es == [] {
    } else if es[0].0 == key {
      AllWithout(es[1..], key, k);
      AllAppend([(key, v)], Without(es[1..], key), k);
      if k != key {
        AllAppend([es[0]], es[1..], k);
      }
    } else {
      AllReplaced(es[1..], key, v, k);
      AllAppend([es[0]], Replaced(es[1..], key, v), k);
    }
  }

  /** Entries appended one by one under the same key. */
  function Under(key: string, vals: seq<string>): (r: Entries)
    ensures |r| == |vals|
    ensures forall i :: 0 <= i < |vals| ==> r[i] == (key, vals[i])
  {
    seq(|vals|, i requires 0 <= i < |vals| => (key, vals[i]))
  }

  lemma {:induction false} AllUnder(key: string, vals: seq<string>, k: string)
    ensures All(Under(key, vals), k) == if k == key then vals else []
  {
    if vals != [] {
      AllUnder(key, vals[1..], k);
      assert Under(key, vals)[1..] == Under(key, vals[1..]);
    }
  }

  /** The search parameters of the current URL, which the updaters change in place. */
  class SearchParams {
    var entries: Entries

    constructor(es: Entries)
      ensures entries == es
    {
      entries := es;
    }

    function Get(key: string): (r: Option<string>)
      reads this
    {
      First(entries, key)
    }

    function GetAll(key: string): (r: seq<string>)
      reads this
    {
      All(entries, key)
    }

    method Delete(key: string)
      modifies this
      ensures entries == Without(old(entries), key)
    {
      var es := entries;
      var kept := [];
      var i := 0;
      while i < |es|
        invariant 0 <= i <= |es|
        invariant Without(es, key) == kept + Without(es[i..], key)
      {
        var step := if es[i].0 == key then [] else [es[i]];
        WithoutAt(es, i, key);
        assert kept + (step + Without(es[i + 1..], key)) == (kept + step) + Without(es[i + 1..], key);
        kept := kept + step;
        i := i + 1;
      }
      entries := kept;
    }

    method Append(key: string, v: string)
      modifies this
      ensures entries == old(entries) + [(key, v)]
    {
      entries := entries + [(key, v)];
    }

    method Set(key: string, v: string)
      modifies this
      ensures entries == Replaced(old(entries), key, v)
    {
      var i := 0;
      while i < |entries| && entries[i].0 != key
        invariant 0 <= i <= |entries|
        invariant Replaced(entries, key, v) == entries[..i] + Replaced(entries[i..], key, v)
      {
        assert entries[i..] == [entries[i]] + entries[i + 1..];
        assert entries[..i + 1] == entries[..i] + [entries[i]];
        i := i + 1;
      }
      if i == |entries| {
        entries := entries + [(key, v)];
      } else {
        assert entries[i..][1..] == entries[i + 1..];
        entries := entries[..i] + [(key, v)] + Without(entries[i + 1..], key);
      }
    }

    /** `values.forEach((val) => params.append(key, val))`. */
    method AppendAll(key: string, vals: seq<string>)
      modifies this
      ensures entries == old(entries) + Under(key, vals)
    {
      var i := 0;
      while i < |vals|
        invariant 0 <= i <= |vals|
        invariant entries == old(entries) + Under(key, vals[..i])
      {
        assert Under(key, vals[..i + 1]) == Under(key, vals[..i]) + [(key, vals[i])];
        Append(key, vals[i]);
        i := i + 1;
      }
      assert vals[..i] == vals;
    }

    /** `setValue`: the key's old values go; the serialised form is written unless the value is the default. */
    method SetValue<T(==)>(key: string, newValue: T, defaultValue: T, serialize: T -> Serialized)
      modifies this
      ensures entries == AfterSet(old(entries), key, newValue, defaultValue, serialize)
    {
      var result := if newValue == defaultValue then Absent else serialize(newValue);
      Delete(key);
      match result
      case Absent =>
      case Many(vals) => AppendAll(key, vals);
      case One(s) => Append(key, s);
    }
  }

  // ---------------------------------------------------------------- handlers and the hook

  /** What `serialize` returns: `null`, one string, or a list of strings. */
  datatype Serialized = Absent | One(text: string) | Many(vals: seq<string>)

  /** The entries that writing `result` under `key` appends. */
  function Written(key: string, result: Serialized): Entries
  {
    match result
    case Absent => []
    case One(s) => [(key, s)]
    case Many(vals) => Under(key, vals)
  }

  /**
   * The parameters after `setValue(newValue)`. The hook compares values by
   * `JSON.stringify`; here by equality.
   */
  function AfterSet<T(==)>(es: Entries, key: string, newValue: T, defaultValue: T, serialize: T -> Serialized): Entries
  {
    Without(es, key) + Written(key, if newValue == defaultValue then Absent else serialize(newValue))
  }

  /** The hook's value: the parsed parameter, or the default when parsing gives `null`. */
  function HookValue<T>(parsed: Option<T>, defaultValue: T): (r: T)
    ensures parsed.None? ==> r == defaultValue
    ensures parsed.Some? ==> r == parsed.value
  {
    if parsed.Some? then parsed.value else defaultValue
  }

  function StringSerialize(v: string): Serialized { One(v) }

  function StringDeserialize(es: Entries, key: string): Option<string>
  {
    First(es, key)
  }

  function BooleanSerialize(b: bool): Serialized { One(if b then "true" else "false") }

  function BooleanDeserialize(es: Entries, key: string): (r: Option<bool>)
    ensures r.Some? <==> First(es, key) == Some("true") || First(es, key) == Some("false")
  {
    var val := First(es, key);
    if val == Some("true") then Some(true) else if val == Some("false") then Some(false) else None
  }

  /** `val ? Number(val) : null`; `Number` itself is a parameter. */
  function NumberDeserialize(es: Entries, key: string, toNumber: string -> real): (r: Option<real>)
    ensures r.None? <==> First(es, key).None? || First(es, key) == Some("")
  {
    var val := First(es, key);
    if val.Some? && val.value != "" then Some(toNumber(val.value)) else None
  }

  function ArraySerialize(v: seq<string>): Serialized { Many(v) }

  function ArrayDeserialize(es: Entries, key: string): (r: Option<seq<string>>)
    ensures r.Some? ==> r.value != []
  {
    var vals := All(es, key);
    if |vals| > 0 then Some(vals) else None
  }

  /** Which handler the hook uses: a custom one wins; with neither, the hook throws. */
  datatype HandlerSource = Custom | Preset

  function ChooseHandler(hasType: bool, hasCustom: bool): (r: Result<HandlerSource, string>)
    ensures r.Err? <==> !hasType && !hasCustom
    ensures hasCustom ==> r == Ok(Custom)
    ensures !hasCustom && hasType ==> r == Ok(Preset)
  {
    if hasCustom then Ok(Custom)
    else if hasType then Ok(Preset)
    else Err("useUrlSyncedState: You must provide either a 'type' or a 'custom' handler.")
  }

  lemma AfterSetAll<T>(es: Entries, key: string, newValue: T, defaultValue: T, serialize: T -> Serialized, k: string)
    ensures var result := if newValue == defaultValue then Absent else serialize(newValue);
      All(AfterSet(es, key, newValue, defaultValue, serialize), k)
        == (if k == key then [] else All(es, k)) + All(Written(key, result), k)
  {
    var result := if newValue == defaultValue then Absent else serialize(newValue);
    AllAppend(Without(es, key), Written(key, result), key);
    AllAppend(Without(es, key), Written(key, result), k);
    AllWithout(es, key, k);
  }

  /** `setValue` touches no other parameter. */
  lemma OtherKeysUntouched<T>(es: Entries, key: string, newValue: T, defaultValue: T, serialize: T -> Serialized, k: string)
    requires k != key
    ensures All(AfterSet(es, key, newValue, defaultValue, serialize), k) == All(es, k)
  {
    AfterSetAll(es, key, newValue, defaultValue, serialize, k);
    var result := if newValue == defaultValue then Absent else serialize(newValue);
    match result
    case Absent =>
    case One(s) =>
    case Many(vals) => AllUnder(key, vals, k);
  }

  /** Writing the default removes the key altogether. */
  lemma DefaultRemovesKey<T>(es: Entries, key: string, defaultValue: T, serialize: T -> Serialized)
    ensures All(AfterSet(es, key, defaultValue, defaultValue, serialize), key) == []
  {
    AfterSetAll(es, key, defaultValue, defaultValue, serialize, key);
  }

  /** A string written through the hook reads back as itself (the default by absence). */
  lemma StringRoundTrip(es: Entries, key: string, v: string, defaultValue: string)
    ensures HookValue(StringDeserialize(AfterSet(es, key, v, defaultValue, StringSerialize), key), defaultValue) == v
  {
    AfterSetAll(es, key, v, defaultValue, StringSerialize, key);
    FirstAll(AfterSet(es, key, v, defaultValue, StringSerialize), key);
  }

  /** A boolean written through the hook reads back as itself. */
  lemma BooleanRoundTrip(es: Entries, key: string, b: bool, defaultValue: bool)
    ensures HookValue(BooleanDeserialize(AfterSet(es, key, b, defaultValue, BooleanSerialize), key), defaultValue) == b
  {
    AfterSetAll(es, key, b, defaultValue, BooleanSerialize, key);
    FirstAll(AfterSet(es, key, b, defaultValue, BooleanSerialize), key);
  }

  /** Any stored text other than `true` and `false` reads as `null`, hence as the default. */
  lemma BooleanOtherText(es: Entries, key: string, defaultValue: bool)
    requires First(es, key).Some? && First(es, key) != Some("true") && First(es, key) != Some("false")
    ensures HookValue(BooleanDeserialize(es, key), defaultValue) == defaultValue
  {
  }

  /**
   * A non-empty list written through the hook reads back in order; the empty
   * list writes nothing and so reads back as the default.
   */
  lemma ArrayRoundTrip(es: Entries, key: string, vals: seq<string>, defaultValue: seq<string>)
    ensures vals != [] ==> HookValue(ArrayDeserialize(AfterSet(es, key, vals, defaultValue, ArraySerialize), key), defaultValue) == vals
    ensures vals == [] ==> HookValue(ArrayDeserialize(AfterSet(es, key, vals, defaultValue, ArraySerialize), key), defaultValue) == defaultValue
  {
    AfterSetAll(es, key, vals, defaultValue, ArraySerialize, key);
    AllUnder(key, vals, key);
  }
}
