/**
 * The status filter menu (the listings table's `StatusFilterMenu` and the
 * inline copy on the applications page): a draft selection edited by
 * checkboxes, reset when the menu opens, and applied only when it differs
 * from the current filter.
 */
module StatusFilter {
  import opened Schemas

  /**
   * `isDirty`: different lengths, or an element of either list missing from
   * the other. Duplicates are not counted.
   */
  predicate Dirty(draft: seq<StatusEnum>, current: seq<StatusEnum>)
  {
    |draft| != |current|
    || (exists i :: 0 <= i < |draft| && draft[i] !in current)
    || (exists i :: 0 <= i < |current| && current[i] !in draft)
  }

  /** Clean exactly when the lengths agree and each list is included in the other. */
  lemma CleanMeans(draft: seq<StatusEnum>, current: seq<StatusEnum>)
    ensures !Dirty(draft, current) <==> |draft| == |current| && (forall s :: s in draft <==> s in current)
  {
    if |draft| == |current| && (forall s :: s in draft <==> s in current) {
      assert forall i :: 0 <= i < |draft| ==> draft[i] in current;
    }
  }

  /** The same statuses in another order are not a change. */
  lemma PermutationClean(draft: seq<StatusEnum>, current: seq<StatusEnum>)
    requires multiset(draft) == multiset(current)
    ensures !Dirty(draft, current)
  {
    assert |draft| == |multiset(draft)| == |multiset(current)| == |current|;
    forall i | 0 <= i < |draft| ensures draft[i] in current {
      assert draft[i] in multiset(draft);
    }
    forall i | 0 <= i < |current| ensures current[i] in draft {
      assert current[i] in multiset(current);
    }
  }

  /** Duplicates can hide a change: `[Saved, Saved, Applied]` against `[Saved, Applied, Applied]` is clean. */
  lemma DuplicatesHideChange()
    ensures !Dirty([Saved, Saved, Applied], [Saved, Applied, Applied])
    ensures multiset([Saved, Saved, Applied]) != multiset([Saved, Applied, Applied])
  {
    CleanMeans([Saved, Saved, Applied], [Saved, Applied, Applied]);
    assert multiset([Saved, Saved, Applied])[Saved] == 2;
  }

  /** `prev.filter((s) => s !== status)`. */
  function Unchecked(statuses: seq<StatusEnum>, status: StatusEnum): (r: seq<StatusEnum>)
    ensures status !in r
    ensures forall s :: s != status ==> multiset(r)[s] == multiset(statuses)[s]
  {
    if statuses == [] then []
    else
      assert statuses == [statuses[0]] + statuses[1..];
      (if statuses[0] == status then [] else [statuses[0]]) + Unchecked(statuses[1..], status)
  }

  /** The menu's state: the applied statuses, the draft and whether the menu is open. */
  class FilterMenu {
    var current: seq<StatusEnum>
    var draft: seq<StatusEnum>
    var open: bool

    constructor(currentStatuses: seq<StatusEnum>)
      ensures current == currentStatuses && draft == currentStatuses && !open
    {
      current := currentStatuses;
      draft := currentStatuses;
      open := false;
    }

    /** The Apply button is enabled only for a dirty draft. */
    predicate ApplyEnabled()
      reads this
    {
      Dirty(draft, current)
    }

    /** The effect on a new `currentStatuses`: the draft follows it. */
    method CurrentChanged(currentStatuses: seq<StatusEnum>)
      modifies this
      ensures current == currentStatuses && draft == currentStatuses && open == old(open)
      ensures !ApplyEnabled()
    {
      current := currentStatuses;
      draft := currentStatuses;
      PermutationClean(draft, current);
    }

    /** Checking appends the status, even when it is already there; unchecking removes every occurrence. */
    method DraftStatusChange(status: StatusEnum, checked: bool)
      modifies this
      ensures checked ==> draft == old(draft) + [status]
      ensures !checked ==> draft == Unchecked(old(draft), status)
      ensures current == old(current) && open == old(open)
    {
      if checked {
        draft := draft + [status];
      } else {
        draft := Unchecked(draft, status);
      }
    }

    /** Opening resets the draft to the current statuses. */
    method OpenChange(isOpen: bool)
      modifies this
      ensures open == isOpen && current == old(current)
      ensures isOpen ==> draft == current && !ApplyEnabled()
      ensures !isOpen ==> draft == old(draft)
    {
      open := isOpen;
      if isOpen {
        draft := current;
        PermutationClean(draft, current);
      }
    }

    /** Apply hands the draft over unchanged and closes the menu. */
    method Apply() returns (applied: seq<StatusEnum>)
      modifies this
      ensures applied == old(draft) && !open
      ensures draft == old(draft) && current == old(current)
    {
      applied := draft;
      open := false;
    }
  }
}
