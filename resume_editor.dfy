/**
 * The visual resume editor: the list of sections and, inside a detailed
 * section, its list of items. Each list keeps a parallel list of drag ids
 * (`idsRef`) that is resized on every render and spliced in lockstep with
 * the list it labels. The editors hand the new list to their parent; the
 * model assumes the parent stores it, so the field is the list the next
 * render sees.
 */
module ResumeEditor {
  import opened Wrappers
  import opened JsArray

  datatype Item = Item(title: string, subtitle: Option<string>, startDate: Option<string>, endDate: Option<string>, bullets: seq<string>)

  datatype Content =
    | DetailedContent(items: seq<Item>)
    | SimpleContent(bullets: seq<string>)
    | ParagraphContent(text: string)

  datatype Section = Section(id: string, kind: string, title: string, order: int, content: Content)

  /** The item an add inserts: empty title and dates and one empty bullet. */
  function BlankItem(): (r: Item)
    ensures r.title == "" && r.subtitle == Some("") && r.startDate == Some("") && r.endDate == Some("")
    ensures r.bullets == [""]
  {
    Item("", Some(""), Some(""), Some(""), [""])
  }

  /** The content a new section of kind `kind` starts with; an unknown kind gets the simple layout. */
  function NewContent(kind: string): (r: Content)
    ensures kind == "detailed" ==> r == DetailedContent([BlankItem()])
    ensures kind == "paragraph" ==> r == ParagraphContent("")
    ensures kind != "detailed" && kind != "paragraph" ==> r == SimpleContent([""])
  {
    match kind
    case "detailed" => DetailedContent([BlankItem()])
    case "paragraph" => ParagraphContent("")
    case _ => SimpleContent([""])
  }

  function NewSection(id: string, kind: string, index: int): (r: Section)
    ensures r.kind == kind && r.title == "New Section" && r.content == NewContent(kind) && r.id == id
  {
    Section(id, kind, "New Section", index, NewContent(kind))
  }

  /** The sections after their `order` is rewritten to their position. */
  function Renumber(ss: seq<Section>): (r: seq<Section>)
    ensures |r| == |ss|
    ensures forall i :: 0 <= i < |r| ==> r[i].order == i
    ensures forall i :: 0 <= i < |r| ==> r[i].(order := ss[i].order) == ss[i]
  {
    seq(|ss|, i requires 0 <= i < |ss| => ss[i].(order := i))
  }

  /** Renumbering forgets the previous orders: renumbering a renumbered list, or any list that differs only in its orders, gives the same list. */
  lemma RenumberForgetsOrder(ss: seq<Section>, ts: seq<Section>)
    requires |ss| == |ts|
    requires forall i :: 0 <= i < |ss| ==> ss[i].(order := 0) == ts[i].(order := 0)
    ensures Renumber(ss) == Renumber(ts)
  {
    forall i | 0 <= i < |ss| ensures Renumber(ss)[i] == Renumber(ts)[i] {
      assert ss[i].(order := 0).(order := i) == ss[i].(order := i);
      assert ts[i].(order := 0).(order := i) == ts[i].(order := i);
    }
  }

  /** `nextSections.forEach((section, i) => { section.order = i; })`. */
  method RenumberSections(ss: seq<Section>) returns (r: seq<Section>)
    ensures r == Renumber(ss)
  {
    r := ss;
    var i := 0;
    while i < |r|
      invariant 0 <= i <= |r| == |ss|
      invariant forall k :: 0 <= k < i ==> r[k] == ss[k].(order := k)
      invariant forall k :: i <= k < |r| ==> r[k] == ss[k]
    {
      r := r[i := r[i].(order := i)];
      i := i + 1;
    }
  }

  /** The render-time resync of the drag ids: grown with newIds ids or cut to `n`. */
  function Resized(ids: seq<string>, n: nat, newIds: seq<string>): (r: seq<string>)
    requires |ids| < n ==> |newIds| == n - |ids|
    ensures |r| == n
    ensures |ids| <= n ==> r[..|ids|] == ids
    ensures |ids| >= n ==> r == ids[..n]
  {
    if |ids| < n then ids + newIds
    else if |ids| > n then ids[..n]
    else ids
  }

  /** Fresh ids are distinct and new. */
  predicate FreshFor(newIds: seq<string>, ids: seq<string>)
  {
    Distinct(newIds) && forall k :: 0 <= k < |newIds| ==> newIds[k] !in ids
  }

  /** A resync keeps the ids distinct. */
  lemma ResizedDistinct(ids: seq<string>, n: nat, newIds: seq<string>)
    requires |ids| < n ==> |newIds| == n - |ids|
    requires Distinct(ids) && FreshFor(newIds, ids)
    ensures Distinct(Resized(ids, n, newIds))
  {
    var r := Resized(ids, n, newIds);
    if |ids| < n {
      forall i, j | 0 <= i < j < |r| ensures r[i] != r[j] {
        if j >= |ids| && i < |ids| {
          assert r[j] == newIds[j - |ids|];
          assert r[i] == ids[i];
        } else if i >= |ids| {
          assert r[i] == newIds[i - |ids|] && r[j] == newIds[j - |ids|];
        }
      }
    }
  }

  /** Inserting an id that is not there keeps the ids distinct. */
  lemma InsertDistinct(ids: seq<string>, i: int, x: string)
    requires Distinct(ids) && x !in ids
    ensures Distinct(Insert(ids, i, x))
  {
    var s := SpliceStart(|ids|, i);
    var r := Insert(ids, i, x);
    forall a, b | 0 <= a < b < |r| ensures r[a] != r[b] {
      if a < s && b > s {
        assert r[a] == ids[a] && r[b] == ids[b - 1];
      } else if a > s {
        assert r[a] == ids[a - 1] && r[b] == ids[b - 1];
      } else if a == s {
        assert r[b] == ids[b - 1];
      } else if b == s {
        assert r[a] == ids[a];
      } else {
        assert r[a] == ids[a] && r[b] == ids[b];
      }
    }
  }

  /** Removing keeps the ids distinct. */
  lemma RemoveDistinct(ids: seq<string>, i: int)
    requires Distinct(ids)
    ensures Distinct(RemoveAt(ids, i))
  {
    var s := SpliceStart(|ids|, i);
    if s < |ids| {
      var r := RemoveAt(ids, i);
      forall a, b | 0 <= a < b < |r| ensures r[a] != r[b] {
        if b < s {
          assert r[a] == ids[a] && r[b] == ids[b];
        } else if a < s {
          assert r[a] == ids[a] && r[b] == ids[b + 1];
        } else {
          assert r[a] == ids[a + 1] && r[b] == ids[b + 1];
        }
      }
    }
  }

  /** Moving keeps the ids distinct. */
  lemma MoveDistinct(ids: seq<string>, from: nat, to: nat)
    requires Distinct(ids) && from < |ids| && to < |ids|
    ensures Distinct(ArrayMove(ids, from, to))
  {
    RemoveDistinct(ids, from);
    var rest := RemoveAt(ids, from);
    InsertDistinct(rest, to, ids[from]);
  }

  /** The section list editor. */
  class VisualEditor {
    var sections: seq<Section>
    var ids: seq<string>

    /** The drag ids never repeat. */
    predicate Valid()
      reads this
    {
      Distinct(ids)
    }

    /** The ids line up with the sections, as they do after every render. */
    predicate Synced()
      reads this
    {
      Valid() && |ids| == |sections|
    }

    constructor(sections: seq<Section>)
      ensures this.sections == sections && ids == []
      ensures Valid()
    {
      this.sections := sections;
      ids := [];
    }

    /** The render-time resync. */
    method SyncIds(newIds: seq<string>)
      modifies this
      requires Valid() && FreshFor(newIds, ids)
      requires |ids| < |sections| ==> |newIds| == |sections| - |ids|
      ensures Synced()
      ensures sections == old(sections)
      ensures ids == Resized(old(ids), |sections|, newIds)
    {
      ResizedDistinct(ids, |sections|, newIds);
      ids := Resized(ids, |sections|, newIds);
    }

    /** `addSectionAtIndex`: a new section of the kind at the index, a newIds drag id beside it, and the orders renumbered. */
    method AddSectionAtIndex(index: int, kind: string, sectionId: string, freshId: string)
      modifies this
      requires Synced() && freshId !in ids
      ensures Synced()
      ensures sections == Renumber(Insert(old(sections), index, NewSection(sectionId, kind, index)))
      ensures ids == Insert(old(ids), index, freshId)
    {
      var next := RenumberSections(Insert(sections, index, NewSection(sectionId, kind, index)));
      InsertDistinct(ids, index, freshId);
      sections := next;
      ids := Insert(ids, index, freshId);
    }

    /** `removeSectionAtIndex`: refused while at most one section is left. */
    method RemoveSectionAtIndex(index: int)
      modifies this
      requires Synced()
      ensures Synced()
      ensures |old(sections)| <= 1 ==> sections == old(sections) && ids == old(ids)
      ensures |old(sections)| > 1 ==> sections == Renumber(RemoveAt(old(sections), index))
      ensures |old(sections)| > 1 ==> ids == RemoveAt(old(ids), index)
    {
      if |sections| <= 1 {
        return;
      }
      var next := RenumberSections(RemoveAt(sections, index));
      RemoveDistinct(ids, index);
      sections := next;
      ids := RemoveAt(ids, index);
    }

    /** `updateSection`: only the one position changes, and nothing is renumbered. */
    method UpdateSection(index: nat, updated: Section)
      modifies this
      requires Synced() && index < |sections|
      ensures Synced()
      ensures sections == Replace(old(sections), index, updated)
      ensures ids == old(ids)
    {
      sections := Replace(sections, index, updated);
    }

    /** `handleDragEnd`: without a target, or onto itself, nothing happens; otherwise sections and ids move alike and are renumbered. */
    method HandleDragEnd(active: string, over: Option<string>)
      modifies this
      requires Synced() && active in ids
      requires over.Some? ==> over.value in ids
      ensures Synced()
      ensures over.None? || over.value == active ==> sections == old(sections) && ids == old(ids)
      ensures over.Some? && over.value != active ==>
        sections == Renumber(ArrayMove(old(sections), IndexOf(old(ids), active), IndexOf(old(ids), over.value)))
      ensures over.Some? && over.value != active ==>
        ids == ArrayMove(old(ids), IndexOf(old(ids), active), IndexOf(old(ids), over.value))
    {
      if over.None? || active == over.value {
        return;
      }
      var from := IndexOf(ids, active);
      var to := IndexOf(ids, over.value);
      var next := RenumberSections(ArrayMove(sections, from, to));
      MoveDistinct(ids, from, to);
      ids := ArrayMove(ids, from, to);
      sections := next;
    }
  }

  /** The item list editor of one detailed section. */
  class DetailedItemEditor {
    var items: seq<Item>
    var ids: seq<string>

    predicate Valid()
      reads this
    {
      Distinct(ids)
    }

    predicate Synced()
      reads this
    {
      Valid() && |ids| == |items|
    }

    constructor(items: seq<Item>)
      ensures this.items == items && ids == []
      ensures Valid()
    {
      this.items := items;
      ids := [];
    }

    method SyncIds(newIds: seq<string>)
      modifies this
      requires Valid() && FreshFor(newIds, ids)
      requires |ids| < |items| ==> |newIds| == |items| - |ids|
      ensures Synced()
      ensures items == old(items)
      ensures ids == Resized(old(ids), |items|, newIds)
    {
      ResizedDistinct(ids, |items|, newIds);
      ids := Resized(ids, |items|, newIds);
    }

    /** `addAtIndex`: a blank item and a newIds id at the same position. */
    method AddAtIndex(index: int, freshId: string)
      modifies this
      requires Synced() && freshId !in ids
      ensures Synced()
      ensures items == Insert(old(items), index, BlankItem())
      ensures ids == Insert(old(ids), index, freshId)
    {
      InsertDistinct(ids, index, freshId);
      items := Insert(items, index, BlankItem());
      ids := Insert(ids, index, freshId);
    }

    /** `removeAtIndex`: refused while at most one item is left. */
    method RemoveAtIndex(index: int)
      modifies this
      requires Synced()
      ensures Synced()
      ensures |old(items)| <= 1 ==> items == old(items) && ids == old(ids)
      ensures |old(items)| > 1 ==> items == RemoveAt(old(items), index) && ids == RemoveAt(old(ids), index)
    {
      if |items| <= 1 {
        return;
      }
      RemoveDistinct(ids, index);
      items := RemoveAt(items, index);
      ids := RemoveAt(ids, index);
    }

    method UpdateItem(index: nat, updated: Item)
      modifies this
      requires Synced() && index < |items|
      ensures Synced()
      ensures items == Replace(old(items), index, updated) && ids == old(ids)
    {
      items := Replace(items, index, updated);
    }

    method HandleDragEnd(active: string, over: Option<string>)
      modifies this
      requires Synced() && active in ids
      requires over.Some? ==> over.value in ids
      ensures Synced()
      ensures over.None? || over.value == active ==> items == old(items) && ids == old(ids)
      ensures over.Some? && over.value != active ==>
        items == ArrayMove(old(items), IndexOf(old(ids), active), IndexOf(old(ids), over.value))
      ensures over.Some? && over.value != active ==>
        ids == ArrayMove(old(ids), IndexOf(old(ids), active), IndexOf(old(ids), over.value))
    {
      if over.None? || active == over.value {
        return;
      }
      var from := IndexOf(ids, active);
      var to := IndexOf(ids, over.value);
      MoveDistinct(ids, from, to);
      ids := ArrayMove(ids, from, to);
      items := ArrayMove(items, from, to);
    }
  }

  /** After a drag the dragged entry sits where the target was and keeps its id beside it. */
  lemma DragLandsOnTarget<T>(ids: seq<string>, xs: seq<T>, active: string, over: string)
    requires Distinct(ids) && |ids| == |xs| && active in ids && over in ids
    ensures ArrayMove(ids, IndexOf(ids, active), IndexOf(ids, over))[IndexOf(ids, over)] == active
    ensures ArrayMove(xs, IndexOf(ids, active), IndexOf(ids, over))[IndexOf(ids, over)] == xs[IndexOf(ids, active)]
  {
  }
}
