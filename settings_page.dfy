/**
 * The settings page: the settings tree flattened into one form value per
 * `section.field` key, the sections and fields shown for the current
 * "show advanced" switch, and the submission of the fields the user
 * changed.
 */
module SettingsPage {
  import opened Wrappers
  import opened ConfigSchemas

  /** A field's current value as the settings endpoint returns it. */
  datatype Value = StringValue(s: string) | NumberValue(n: real) | BooleanValue(b: bool)

  datatype Field = Field(value: Value, title: string, description: string, exposure: Exposure)

  /** A section and its fields, in `Object.entries` order. */
  datatype Section = Section(title: string, description: string, fields: seq<(string, Field)>)

  type Settings = seq<(string, Section)>

  // ---------------------------------------------------------------- default values

  /** The form key of a field: `${section}.${fieldName}`. */
  function FlatKey(section: string, field: string): (r: string)
    ensures |r| == |section| + 1 + |field| && r[|section|] == '.'
  {
    section + "." + field
  }

  /** One section's keys, written field by field, a later field overwriting an earlier one with the same key. */
  function FieldsMap(section: string, fields: seq<(string, Field)>): map<string, Value>
  {
    if fields == [] then map[]
    else
      var last := fields[|fields| - 1];
      FieldsMap(section, fields[..|fields| - 1])[FlatKey(section, last.0) := last.1.value]
  }

  /** The whole tree, written section by section. */
  function Flatten(ss: Settings): map<string, Value>
  {
    if ss == [] then map[]
    else
      var last := ss[|ss| - 1];
      Flatten(ss[..|ss| - 1]) + FieldsMap(last.0, last.1.fields)
  }

  /** `defaultValues`: `{}` when the settings have not loaded, otherwise the flattened tree. */
  method DefaultValues(settings: Option<Settings>) returns (result: map<string, Value>)
    ensures settings.None? ==> result == map[]
    ensures settings.Some? ==> result == Flatten(settings.value)
  {
    result := map[];
    if settings.None? {
      return;
    }
    var ss := settings.value;
    var i := 0;
    while i < |ss|
      invariant 0 <= i <= |ss|
      invariant result == Flatten(ss[..i])
    {
      var name := ss[i].0;
      var fields := ss[i].1.fields;
      var before := result;
      var j := 0;
      while j < |fields|
        invariant 0 <= j <= |fields|
        invariant result == before + FieldsMap(name, fields[..j])
      {
        assert fields[..j + 1][..j] == fields[..j];
        result := result[FlatKey(name, fields[j].0) := fields[j].1.value];
        j := j + 1;
      }
      assert fields[..j] == fields;
      assert ss[..i + 1][..i] == ss[..i];
      i := i + 1;
    }
    assert ss[..i] == ss;
  }

  /** Some field of some section is flattened to `k`. */
  predicate Declares(ss: Settings, k: string)
  {
    exists i, j :: 0 <= i < |ss| && 0 <= j < |ss[i].1.fields| && k == FlatKey(ss[i].0, ss[i].1.fields[j].0)
  }

  lemma {:induction false} FieldsMapKeys(section: string, fields: seq<(string, Field)>, k: string)
    ensures k in FieldsMap(section, fields) <==> exists j :: 0 <= j < |fields| && k == FlatKey(section, fields[j].0)
  {
    if fields != [] {
      FieldsMapKeys(section, fields[..|fields| - 1], k);
      if k in FieldsMap(section, fields) && k != FlatKey(section, fields[|fields| - 1].0) {
        var j :| 0 <= j < |fields| - 1 && k == FlatKey(section, fields[..|fields| - 1][j].0);
        assert fields[j] == fields[..|fields| - 1][j];
      }
      if exists j :: 0 <= j < |fields| && k == FlatKey(section, fields[j].0) {
        var j :| 0 <= j < |fields| && k == FlatKey(section, fields[j].0);
        if j < |fields| - 1 {
          assert fields[..|fields| - 1][j] == fields[j];
        }
      }
    }
  }

  /** The flattened keys are exactly the keys of the declared fields. */
  lemma {:induction false} FlattenKeys(ss: Settings, k: string)
    ensures k in Flatten(ss) <==> Declares(ss, k)
  {
    if ss != [] {
      var n := |ss| - 1;
      var init := ss[..n];
      FlattenKeys(init, k);
      FieldsMapKeys(ss[n].0, ss[n].1.fields, k);
      if Declares(init, k) {
        var i, j :| 0 <= i < |init| && 0 <= j < |init[i].1.fields| && k == FlatKey(init[i].0, init[i].1.fields[j].0);
        assert init[i] == ss[i];
      }
      if Declares(ss, k) {
        var i, j :| 0 <= i < |ss| && 0 <= j < |ss[i].1.fields| && k == FlatKey(ss[i].0, ss[i].1.fields[j].0);
        if i < n {
          assert init[i] == ss[i];
        }
      }
    }
  }

  /** A section name without a dot is recovered from the key: the first dot ends it. */
  lemma FlatKeySection(a: string, b: string, c: string, d: string)
    requires '.' !in a && '.' !in c
    requires FlatKey(a, b) == FlatKey(c, d)
    ensures a == c && b == d
  {
    var k := FlatKey(a, b);
    if |a| != |c| {
      assert false;
    }
    assert a == k[..|a|] == c;
    assert b == k[|a| + 1..] == d;
  }

  lemma {:induction false} FieldsMapValue(section: string, fields: seq<(string, Field)>, j: nat)
    requires j < |fields|
    requires forall p, q :: 0 <= p < q < |fields| ==> fields[p].0 != fields[q].0
    ensures FlatKey(section, fields[j].0) in FieldsMap(section, fields)
    ensures FieldsMap(section, fields)[FlatKey(section, fields[j].0)] == fields[j].1.value
  {
    var n := |fields| - 1;
    if j < n {
      var init := fields[..n];
      assert init[j] == fields[j];
      FieldsMapValue(section, init, j);
      FlatKeyField(section, fields[j].0, fields[n].0);
    }
  }

  /** Within one section, the key determines the field name. */
  lemma FlatKeyField(section: string, a: string, b: string)
    ensures FlatKey(section, a) == FlatKey(section, b) ==> a == b
  {
    assert a == FlatKey(section, a)[|section| + 1..];
    assert b == FlatKey(section, b)[|section| + 1..];
  }

  /** No two sections share a name, no section name has a dot, and no section repeats a field name. */
  predicate WellKeyed(ss: Settings)
  {
    (forall p, q :: 0 <= p < q < |ss| ==> ss[p].0 != ss[q].0)
    && (forall p :: 0 <= p < |ss| ==> '.' !in ss[p].0)
    && (forall p, a, b :: 0 <= p < |ss| && 0 <= a < b < |ss[p].1.fields| ==> ss[p].1.fields[a].0 != ss[p].1.fields[b].0)
  }

  /** With well-formed names, every field gets its own key, holding that field's value. */
  lemma {:induction false} FlattenValue(ss: Settings, i: nat, j: nat)
    requires WellKeyed(ss)
    requires i < |ss| && j < |ss[i].1.fields|
    ensures FlatKey(ss[i].0, ss[i].1.fields[j].0) in Flatten(ss)
    ensures Flatten(ss)[FlatKey(ss[i].0, ss[i].1.fields[j].0)] == ss[i].1.fields[j].1.value
  {
    var n := |ss| - 1;
    var k := FlatKey(ss[i].0, ss[i].1.fields[j].0);
    if i == n {
      FieldsMapValue(ss[n].0, ss[n].1.fields, j);
    } else {
      var init := ss[..n];
      assert init[i] == ss[i];
      assert WellKeyed(init);
      FlattenValue(init, i, j);
      FieldsMapKeys(ss[n].0, ss[n].1.fields, k);
      if k in FieldsMap(ss[n].0, ss[n].1.fields) {
        var q :| 0 <= q < |ss[n].1.fields| && k == FlatKey(ss[n].0, ss[n].1.fields[q].0);
        FlatKeySection(ss[i].0, ss[i].1.fields[j].0, ss[n].0, ss[n].1.fields[q].0);
        assert false;
      }
    }
  }

  // ---------------------------------------------------------------- visible sections

  /** Normal and secret fields always show; advanced ones only with the switch on. */
  predicate Visible(e: Exposure, showAdvanced: bool)
  {
    e == Normal || e == Secret || (e == Advanced && showAdvanced)
  }

  function VisibleFields(fields: seq<(string, Field)>, showAdvanced: bool): (r: seq<(string, Field)>)
    ensures |r| <= |fields|
  {
    if fields == [] then []
    else
      var rest := VisibleFields(fields[1..], showAdvanced);
      if Visible(fields[0].1.exposure, showAdvanced) then [fields[0]] + rest else rest
  }

  /** A field is listed iff it belongs to the section and is visible. */
  lemma {:induction false} VisibleFieldsExactly(fields: seq<(string, Field)>, showAdvanced: bool, f: (string, Field))
    ensures f in VisibleFields(fields, showAdvanced) <==> f in fields && Visible(f.1.exposure, showAdvanced)
  {
    if fields != [] {
      VisibleFieldsExactly(fields[1..], showAdvanced, f);
      assert fields == [fields[0]] + fields[1..];
    }
  }

  /** With the switch on nothing is hidden. */
  lemma {:induction false} AdvancedShowsAll(fields: seq<(string, Field)>)
    ensures VisibleFields(fields, true) == fields
  {
    if fields != [] {
      AdvancedShowsAll(fields[1..]);
      assert fields == [fields[0]] + fields[1..];
    }
  }

  /** A section as displayed: its name as id, its title and description, and its visible fields. */
  datatype Shown = Shown(id: string, title: string, description: string, fields: seq<(string, Field)>)

  function Project(s: (string, Section), showAdvanced: bool): (r: Shown)
  {
    Shown(s.0, s.1.title, s.1.description, VisibleFields(s.1.fields, showAdvanced))
  }

  /** `.filter((section) => section.fields.length > 0)`. */
  function DropBare(xs: seq<Shown>): (r: seq<Shown>)
    ensures forall k :: 0 <= k < |r| ==> r[k].fields != [] && r[k] in xs
  {
    if xs == [] then []
    else if xs[0].fields == [] then DropBare(xs[1..])
    else [xs[0]] + DropBare(xs[1..])
  }

  /** `visibleSections`: `[]` when the settings have not loaded. */
  function VisibleSections(settings: Option<Settings>, showAdvanced: bool): (r: seq<Shown>)
    ensures settings.None? ==> r == []
    ensures forall k :: 0 <= k < |r| ==> r[k].fields != []
  {
    match settings
    case None => []
    case Some(ss) => DropBare(seq(|ss|, i requires 0 <= i < |ss| => Project(ss[i], showAdvanced)))
  }

  /** `a` is `b` with some elements left out, in the same order. */
  predicate Subsequence<T(==)>(a: seq<T>, b: seq<T>)
    decreases |b|
  {
    a == [] || (b != [] && ((a[0] == b[0] && Subsequence(a[1..], b[1..])) || Subsequence(a, b[1..])))
  }

  lemma {:induction false} DropBareKeepsOrder(xs: seq<Shown>)
    ensures Subsequence(DropBare(xs), xs)
  {
    if xs != [] {
      DropBareKeepsOrder(xs[1..]);
      if xs[0].fields != [] {
        assert DropBare(xs)[1..] == DropBare(xs[1..]);
      }
    }
  }

  lemma {:induction false} DropBareExactly(xs: seq<Shown>, s: Shown)
    ensures s in DropBare(xs) <==> s in xs && s.fields != []
  {
    if xs != [] {
      DropBareExactly(xs[1..], s);
      assert xs == [xs[0]] + xs[1..];
    }
  }

  /** The shown sections are the projected sections with a visible field, in the settings' order. */
  lemma VisibleSectionsExactly(ss: Settings, showAdvanced: bool, s: Shown)
    ensures var projected := seq(|ss|, i requires 0 <= i < |ss| => Project(ss[i], showAdvanced));
      Subsequence(VisibleSections(Some(ss), showAdvanced), projected) &&
      (s in VisibleSections(Some(ss), showAdvanced) <==> s in projected && s.fields != [])
  {
    var projected := seq(|ss|, i requires 0 <= i < |ss| => Project(ss[i], showAdvanced));
    DropBareKeepsOrder(projected);
    DropBareExactly(projected, s);
  }

  // ---------------------------------------------------------------- submission

  /** `data[key]`: a key the form does not hold reads as `undefined`. */
  function Lookup(data: map<string, Value>, k: string): (r: Option<Value>)
    ensures r.Some? <==> k in data
  {
    if k in data then Some(data[k]) else None
  }

  /** What the submission sends: every key marked dirty, with the form's value for it. */
  function DirtySpec(dirtyFields: map<string, bool>, data: map<string, Value>): (r: map<string, Option<Value>>)
    ensures forall k :: k in r <==> k in dirtyFields && dirtyFields[k]
  {
    map k | k in dirtyFields && dirtyFields[k] :: Lookup(data, k)
  }

  /** `dirtyData`: built key by key from `dirtyFields`, keeping the truthy entries. */
  method DirtyData(dirtyFields: map<string, bool>, data: map<string, Value>) returns (result: map<string, Option<Value>>)
    ensures result == DirtySpec(dirtyFields, data)
  {
    result := map[];
    var todo := dirtyFields.Keys;
    while todo != {}
      invariant todo <= dirtyFields.Keys
      invariant forall k :: k in result <==> k in dirtyFields && k !in todo && dirtyFields[k]
      invariant forall k :: k in result ==> result[k] == Lookup(data, k)
      decreases todo
    {
      var k :| k in todo;
      if dirtyFields[k] {
        result := result[k := Lookup(data, k)];
      }
      todo := todo - {k};
    }
  }

  /** An untouched form sends nothing, and every value sent is the one in the form. */
  lemma DirtyDataMeaning(dirtyFields: map<string, bool>, data: map<string, Value>, k: string)
    ensures (forall d :: d in dirtyFields ==> !dirtyFields[d]) ==> DirtySpec(dirtyFields, data) == map[]
    ensures k in DirtySpec(dirtyFields, data) && k in data ==> DirtySpec(dirtyFields, data)[k] == Some(data[k])
  {
  }
}
