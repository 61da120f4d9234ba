/**
 * The form list inputs built on react-hook-form field arrays: the sortable
 * list input (its root, text input and delete button) and the bullet
 * input. A field array is a list of fields, each an item object with a key
 * the library generates; `insert`, `update` and `append` give the touched
 * field a new key (supplied here as a parameter), `remove` and `move` carry
 * keys along.
 */
module FieldArray {
  import opened Wrappers
  import opened JsArray
  import opened Text

  /** A form item: a plain object of string properties. */
  type Item = map<string, string>

  /** A field: its generated key and its item, which is `None` when `undefined` was stored. */
  datatype Field = Field(key: string, item: Option<Item>)

  function Keys(fs: seq<Field>): (r: seq<string>)
    ensures |r| == |fs| && forall k :: 0 <= k < |fs| ==> r[k] == fs[k].key
  {
    seq(|fs|, k requires 0 <= k < |fs| => fs[k].key)
  }

  /** `{...o}`: spreading `undefined` gives an empty object. */
  function Spread(o: Option<Item>): (r: Item)
    ensures o.Some? ==> r == o.value
    ensures o.None? ==> r == map[]
  {
    if o.Some? then o.value else map[]
  }

  /** `{...o, value: line}`. */
  function WithValue(o: Option<Item>, line: string): (r: Item)
    ensures "value" in r && r["value"] == line
    ensures forall p :: p in Spread(o) && p != "value" ==> p in r && r[p] == Spread(o)[p]
  {
    Spread(o)["value" := line]
  }

  /** A field as the form hands it out: its item with the key under `id`. */
  function FieldObject(f: Field): (r: Item)
    ensures "id" in r && r["id"] == f.key
  {
    Spread(f.item)["id" := f.key]
  }

  /** What the root uses as the item template: the first default of the array, `{}` when there is no default array, `undefined` for an empty one. */
  datatype RootDefaults = NoArray | DefaultArray(items: seq<Item>)

  function DefaultItem(d: RootDefaults): (r: Option<Item>)
    ensures d.NoArray? ==> r == Some(map[])
    ensures d.DefaultArray? && d.items != [] ==> r == Some(d.items[0])
    ensures d.DefaultArray? && d.items == [] ==> r.None?
  {
    match d
    case NoArray => Some(map[])
    case DefaultArray(items) => if items == [] then None else Some(items[0])
  }

  // ---------------------------------------------------------------- pasted lines

  /**
   * The lines of a paste: split at each newline, trimmed, blanks dropped.
   * The pattern `\r?\n` also drops a `\r` before the newline; trimming
   * removes that `\r` anyway, so splitting at `\n` alone gives the same lines.
   */
  function PasteLines(text: string): (r: seq<string>)
    ensures forall k :: 0 <= k < |r| ==> r[k] != []
  {
    TrimmedLines(Split(text, '\n'))
  }

  /** Each pasted line is a piece of the text between newlines, trimmed, so it holds no newline. */
  lemma PasteLinesPieces(text: string)
    ensures forall k :: 0 <= k < |PasteLines(text)| ==> PasteLines(text)[k] in Trims(Split(text, '\n'))
    ensures forall k :: 0 <= k < |PasteLines(text)| ==> '\n' !in PasteLines(text)[k]
  {
    var parts := Split(text, '\n');
    var r := PasteLines(text);
    TrimmedLinesFrom(parts);
    forall k | 0 <= k < |r|
      ensures '\n' !in r[k]
    {
      var j :| 0 <= j < |parts| && r[k] == Trims(parts)[j];
      TrimAvoids(parts[j], '\n');
    }
  }

  /** The fields the remaining pasted lines become, in order, from the template. */
  function PastedFields(lines: seq<string>, template: Option<Item>, keys: seq<string>): (r: seq<Field>)
    requires |keys| == |lines|
    ensures |r| == |lines|
    ensures forall k :: 0 <= k < |r| ==> r[k] == Field(keys[k], Some(WithValue(template, lines[k])))
  {
    seq(|lines|, k requires 0 <= k < |lines| => Field(keys[k], Some(WithValue(template, lines[k]))))
  }

  /** Inserting right after the fields added so far extends them. */
  lemma InsertAfterAdded(pre: seq<Field>, added: seq<Field>, post: seq<Field>, next: Field)
    ensures Insert(pre + added + post, |pre| + |added|, next) == pre + (added + [next]) + post
  {
    var xs := pre + added + post;
    var at := |pre| + |added|;
    assert xs[..at] == pre + added;
    assert xs[at..] == post;
  }

  lemma PastedFieldsGrow(lines: seq<string>, template: Option<Item>, keys: seq<string>, i: nat)
    requires |keys| == |lines| && i < |lines|
    ensures PastedFields(lines[..i + 1], template, keys[..i + 1])
      == PastedFields(lines[..i], template, keys[..i]) + [Field(keys[i], Some(WithValue(template, lines[i])))]
  {
  }

  /** The text an item shows. */
  function ValueText(f: Field): (r: Option<string>)
  {
    if f.item.Some? && "value" in f.item.value then Some(f.item.value["value"]) else None
  }

  /** The sortable list input. */
  class SortableList {
    var fields: seq<Field>
    const disabled: bool
    const readOnly: bool
    const defaultItem: Option<Item>

    constructor(fields: seq<Field>, disabled: bool, readOnly: bool, defaults: RootDefaults)
      ensures this.fields == fields && this.disabled == disabled && this.readOnly == readOnly
      ensures defaultItem == DefaultItem(defaults)
    {
      this.fields := fields;
      this.disabled := disabled;
      this.readOnly := readOnly;
      defaultItem := DefaultItem(defaults);
    }

    /** The effect that keeps the list non-empty: an empty list gets the default item appended. */
    method EnsureNonEmpty(newKey: string)
      modifies this
      ensures old(fields) == [] ==> fields == [Field(newKey, defaultItem)]
      ensures old(fields) != [] ==> fields == old(fields)
      ensures |fields| >= 1
    {
      if |fields| == 0 {
        fields := fields + [Field(newKey, defaultItem)];
      }
    }

    /**
     * `handlePaste` on the item at `index`. A paste without a newline, or
     * one with no non-blank line, changes nothing. Otherwise the first line
     * replaces the item's value (keeping its other properties, and its key
     * under `id`) and the other lines follow it as new items built from the
     * default item. `keys` are the keys the library generates, one per line.
     */
    method HandlePaste(index: nat, text: string, keys: seq<string>)
      modifies this
      requires index < |fields|
      requires |keys| == |PasteLines(text)|
      ensures '\n' !in text || PasteLines(text) == [] ==> fields == old(fields)
      ensures '\n' in text && PasteLines(text) != [] ==>
        fields == old(fields)[..index]
                  + [Field(keys[0], Some(WithValue(Some(FieldObject(old(fields)[index])), PasteLines(text)[0])))]
                  + PastedFields(PasteLines(text)[1..], defaultItem, keys[1..])
                  + old(fields)[index + 1..]
    {
      if '\n' !in text {
        return;
      }
      var lines := PasteLines(text);
      if |lines| == 0 {
        return;
      }
      var first := Field(keys[0], Some(WithValue(Some(FieldObject(fields[index])), lines[0])));
      ghost var before := fields;
      fields := Replace(fields, index, first);
      ghost var replaced := fields;
      assert replaced[..index + 1] == before[..index] + [first];
      assert replaced[index + 1..] == before[index + 1..];
      ghost var added := PastedFields(lines[1..], defaultItem, keys[1..]);
      InsertPasted(index + 1, lines[1..], keys[1..]);
      assert fields == before[..index] + [first] + added + before[index + 1..];
    }

    /** The `forEach` that inserts the remaining pasted lines one after the other from position `at`. */
    method InsertPasted(at: nat, rest: seq<string>, restKeys: seq<string>)
      modifies this
      requires at <= |fields| && |restKeys| == |rest|
      ensures fields == old(fields)[..at] + PastedFields(rest, defaultItem, restKeys) + old(fields)[at..]
    {
      var pre := fields[..at];
      var post := fields[at..];
      assert fields == pre + PastedFields(rest[..0], defaultItem, restKeys[..0]) + post;
      var i := 0;
      while i < |rest|
        invariant 0 <= i <= |rest|
        invariant fields == pre + PastedFields(rest[..i], defaultItem, restKeys[..i]) + post
      {
        var next := Field(restKeys[i], Some(WithValue(defaultItem, rest[i])));
        InsertAfterAdded(pre, PastedFields(rest[..i], defaultItem, restKeys[..i]), post, next);
        PastedFieldsGrow(rest, defaultItem, restKeys, i);
        fields := Insert(fields, at + i, next);
        i := i + 1;
      }
      assert rest[..i] == rest && restKeys[..i] == restKeys;
    }

    /** `handleKeyDown`: Enter inserts the default item below; Backspace in an empty item removes it unless it is the only one. */
    method HandleKeyDown(index: nat, key: string, targetValue: string, newKey: string)
      modifies this
      requires index < |fields|
      ensures key == "Enter" ==> fields == Insert(old(fields), index + 1, Field(newKey, defaultItem))
      ensures key == "Backspace" && targetValue == "" && |old(fields)| > 1 ==> fields == RemoveAt(old(fields), index)
      ensures key != "Enter" && !(key == "Backspace" && targetValue == "" && |old(fields)| > 1) ==> fields == old(fields)
    {
      var count := |fields|;
      if key == "Enter" {
        fields := Insert(fields, index + 1, Field(newKey, defaultItem));
      }
      if key == "Backspace" && targetValue == "" && count > 1 {
        fields := RemoveAt(fields, index);
      }
    }

    /** The root's `handleDragEnd`: ignored while disabled or read-only; otherwise the dragged field moves onto the target's position. */
    method HandleDragEnd(active: string, over: Option<string>)
      modifies this
      requires active in Keys(fields)
      requires over.Some? ==> over.value in Keys(fields)
      ensures disabled || readOnly || over.None? || over.value == active ==> fields == old(fields)
      ensures !disabled && !readOnly && over.Some? && over.value != active ==>
        fields == ArrayMove(old(fields), IndexOf(Keys(old(fields)), active), IndexOf(Keys(old(fields)), over.value))
    {
      if disabled || readOnly {
        return;
      }
      if over.Some? && active != over.value {
        var from := IndexOf(Keys(fields), active);
        var to := IndexOf(Keys(fields), over.value);
        fields := ArrayMove(fields, from, to);
      }
    }

    /** The delete button is locked while disabled, read-only, or down to one item. */
    function IsLocked(): (r: bool)
      reads this
      ensures !r ==> |fields| >= 2
    {
      disabled || readOnly || |fields| <= 1
    }

    /** A click on the delete button of the item at `index`: a locked button does nothing. */
    method DeleteClick(index: nat)
      modifies this
      requires index < |fields|
      ensures old(IsLocked()) ==> fields == old(fields)
      ensures !old(IsLocked()) ==> fields == RemoveAt(old(fields), index) && |fields| == |old(fields)| - 1
      ensures |fields| >= 1
    {
      if !IsLocked() {
        fields := RemoveAt(fields, index);
      }
    }
  }

  /** A paste puts each line in its own item, in order, starting at the pasted item, and shifts the items after it. */
  lemma PasteLayout(fs: seq<Field>, index: nat, text: string, template: Option<Item>, keys: seq<string>)
    requires index < |fs| && |keys| == |PasteLines(text)| && PasteLines(text) != []
    ensures var r := fs[..index]
                     + [Field(keys[0], Some(WithValue(Some(FieldObject(fs[index])), PasteLines(text)[0])))]
                     + PastedFields(PasteLines(text)[1..], template, keys[1..])
                     + fs[index + 1..];
      && |r| == |fs| + |PasteLines(text)| - 1
      && (forall k :: 0 <= k < |PasteLines(text)| ==> ValueText(r[index + k]) == Some(PasteLines(text)[k]))
      && (forall k :: 0 <= k < index ==> r[k] == fs[k])
      && (forall k :: index < k < |fs| ==> r[k + |PasteLines(text)| - 1] == fs[k])
  {
    PlaceLines(fs, index, PasteLines(text), template, keys);
  }

  /** The layout of a paste, for any non-empty list of lines. */
  lemma PlaceLines(fs: seq<Field>, index: nat, lines: seq<string>, template: Option<Item>, keys: seq<string>)
    requires index < |fs| && |keys| == |lines| && lines != []
    ensures var r := fs[..index]
                     + [Field(keys[0], Some(WithValue(Some(FieldObject(fs[index])), lines[0])))]
                     + PastedFields(lines[1..], template, keys[1..])
                     + fs[index + 1..];
      && |r| == |fs| + |lines| - 1
      && (forall k :: 0 <= k < |lines| ==> ValueText(r[index + k]) == Some(lines[k]))
      && (forall k :: 0 <= k < index ==> r[k] == fs[k])
      && (forall k :: index < k < |fs| ==> r[k + |lines| - 1] == fs[k])
  {
    var head := fs[..index] + [Field(keys[0], Some(WithValue(Some(FieldObject(fs[index])), lines[0])))];
    var added := PastedFields(lines[1..], template, keys[1..]);
    var r := head + added + fs[index + 1..];
    forall k | 0 <= k < |lines| ensures ValueText(r[index + k]) == Some(lines[k]) {
      if k > 0 {
        assert r[index + k] == added[k - 1];
      }
    }
  }

  /** The bullet input: drag, insert above and below, delete. */
  class BulletList {
    var fields: seq<Field>
    const disabled: bool

    constructor(fields: seq<Field>, disabled: bool)
      ensures this.fields == fields && this.disabled == disabled
    {
      this.fields := fields;
      this.disabled := disabled;
    }

    /** An empty bullet: `{ value: '' }`. */
    static function EmptyBullet(): (r: Item)
      ensures r.Keys == {"value"} && r["value"] == ""
    {
      map["value" := ""]
    }

    /** Drag is ignored only while disabled; read-only is not checked here. */
    method HandleDragEnd(active: string, over: Option<string>)
      modifies this
      requires active in Keys(fields)
      requires over.Some? ==> over.value in Keys(fields)
      ensures disabled || over.None? || over.value == active ==> fields == old(fields)
      ensures !disabled && over.Some? && over.value != active ==>
        fields == ArrayMove(old(fields), IndexOf(Keys(old(fields)), active), IndexOf(Keys(old(fields)), over.value))
    {
      if disabled {
        return;
      }
      if over.Some? && active != over.value {
        var from := IndexOf(Keys(fields), active);
        var to := IndexOf(Keys(fields), over.value);
        fields := ArrayMove(fields, from, to);
      }
    }

    method InsertAbove(index: nat, newKey: string)
      modifies this
      requires index < |fields|
      ensures fields == Insert(old(fields), index, Field(newKey, Some(EmptyBullet())))
    {
      fields := Insert(fields, index, Field(newKey, Some(EmptyBullet())));
    }

    method InsertBelow(index: nat, newKey: string)
      modifies this
      requires index < |fields|
      ensures fields == Insert(old(fields), index + 1, Field(newKey, Some(EmptyBullet())))
    {
      fields := Insert(fields, index + 1, Field(newKey, Some(EmptyBullet())));
    }

    /** Delete has no guard: the last bullet can be removed too. */
    method Delete(index: nat)
      modifies this
      requires index < |fields|
      ensures fields == RemoveAt(old(fields), index)
      ensures |fields| == |old(fields)| - 1
    {
      fields := RemoveAt(fields, index);
    }
  }

  /** Insert-above and insert-below put the empty bullet right before and right after the item. */
  lemma InsertAroundItem(fs: seq<Field>, index: nat, newKey: string)
    requires index < |fs|
    ensures Insert(fs, index, Field(newKey, Some(BulletList.EmptyBullet())))[index + 1] == fs[index]
    ensures Insert(fs, index + 1, Field(newKey, Some(BulletList.EmptyBullet())))[index] == fs[index]
    ensures Insert(fs, index, Field(newKey, Some(BulletList.EmptyBullet())))[index] == Field(newKey, Some(BulletList.EmptyBullet()))
    ensures Insert(fs, index + 1, Field(newKey, Some(BulletList.EmptyBullet())))[index + 1] == Field(newKey, Some(BulletList.EmptyBullet()))
  {
    var x := Field(newKey, Some(BulletList.EmptyBullet()));
    assert Insert(fs, index, x)[index + 1..] == fs[index..];
    assert Insert(fs, index + 1, x)[..index + 1] == fs[..index + 1];
  }
}
