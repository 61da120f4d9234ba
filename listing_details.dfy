/**
 * The details form of the new-listings page, in its two versions: the
 * details panel (schema-validated, patches the draft's extraction) and the
 * older details form (writes through the listing cache).
 */
module ListingDetails {
  import opened Wrappers
  import opened Text
  import opened DraftListings

  datatype FormValues = FormValues(
    title: string, company: string, location: string, description: string,
    requirements: seq<Grounded>, skills: seq<Grounded>, postedDate: Option<string>)

  /** `location ?? ''` and `location || ''`: the same on a string-or-null. */
  function OrBlank(s: Option<string>): (r: string)
    ensures s.Some? ==> r == s.value
    ensures s.None? ==> r == ""
  {
    if s.Some? then s.value else ""
  }

  /** Stored strings as grounded items without a quote. */
  function Ungrounded(xs: seq<string>): (r: seq<Grounded>)
    ensures |r| == |xs|
    ensures forall k :: 0 <= k < |xs| ==> r[k] == Grounded(xs[k], None)
  {
    seq(|xs|, k requires 0 <= k < |xs| => Grounded(xs[k], None))
  }

  function ValuesOf(xs: seq<Grounded>): (r: seq<string>)
    ensures |r| == |xs| && forall k :: 0 <= k < |xs| ==> r[k] == xs[k].value
  {
    seq(|xs|, k requires 0 <= k < |xs| => xs[k].value)
  }

  function FromExtracted(l: Extracted): (r: FormValues)
    ensures r.title == l.title && r.company == l.company && r.description == l.description && r.postedDate == l.postedDate
    ensures r.location == OrBlank(l.location)
    ensures r.requirements == l.requirements && r.skills == l.skills
  {
    FormValues(l.title, l.company, OrBlank(l.location), l.description, l.requirements, l.skills, l.postedDate)
  }

  function FromStored(o: Stored): (r: FormValues)
    ensures r.title == o.title && r.company == o.company && r.description == o.description && r.postedDate == o.postedDate
    ensures r.location == OrBlank(o.location)
    ensures ValuesOf(r.requirements) == o.requirements && ValuesOf(r.skills) == o.skills
    ensures forall k :: 0 <= k < |r.requirements| ==> r.requirements[k].quote.None?
    ensures forall k :: 0 <= k < |r.skills| ==> r.skills[k].quote.None?
  {
    FormValues(o.title, o.company, OrBlank(o.location), o.description, Ungrounded(o.requirements), Ungrounded(o.skills), o.postedDate)
  }

  const BlankForm := FormValues("", "", "", "", [], [], None)

  // ---------------------------------------------------------------- the details panel

  /** What the panel shows for a selection. */
  datatype Panel = NoSelection | Scraping | LoadFailed(message: string) | Form(draft: Draft)

  function PanelFor(d: Option<Draft>): (r: Panel)
    ensures d.None? <==> r.NoSelection?
    ensures r.Form? ==> d == Some(r.draft) && (d.value.UniqueDraft? || d.value.DuplicateUrlDraft? || d.value.DuplicateContentDraft?)
    ensures r.LoadFailed? ==> r.message != ""
  {
    if d.None? then NoSelection
    else match d.value
      case PendingDraft(_, _) => Scraping
      case ErrorDraft(_, _, e, _) => LoadFailed(if e != "" then e else "An error occurred while loading the listing")
      case _ => Form(d.value)
  }

  /** `getInitialValues`: a URL duplicate shows the stored listing, the others their extraction. */
  function InitialValues(d: Draft): (r: FormValues)
    requires d.UniqueDraft? || d.DuplicateUrlDraft? || d.DuplicateContentDraft?
    ensures d.DuplicateUrlDraft? ==> r == FromStored(d.duplicateOf)
    ensures !d.DuplicateUrlDraft? ==> r == FromExtracted(d.listing)
  {
    if d.DuplicateUrlDraft? then FromStored(d.duplicateOf) else FromExtracted(d.listing)
  }

  /** `detailsSchema`: a title and a company are required. */
  function ValidateDetails(v: FormValues): (r: Result<FormValues, seq<string>>)
    ensures r.Ok? <==> v.title != "" && v.company != ""
    ensures r.Ok? ==> r.value == v
    ensures r.Err? ==> ("Title is required" in r.error <==> v.title == "")
    ensures r.Err? ==> ("Company is required" in r.error <==> v.company == "")
  {
    var errors := (if v.title == "" then ["Title is required"] else []) + (if v.company == "" then ["Company is required"] else []);
    if errors == [] then Ok(v) else Err(errors)
  }

  /** A value that trims to nothing: whitespace only. */
  predicate IsBlank(s: string)
  {
    forall i :: 0 <= i < |s| ==> IsJsSpace(s[i])
  }

  lemma BlankMeansTrimmedEmpty(s: string)
    ensures IsBlank(s) <==> Trim(s) == ""
  {
  }

  /** Items whose value is not blank once trimmed (`value.trim()` truthy), in order. */
  function NonBlank(xs: seq<Grounded>): (r: seq<Grounded>)
    ensures |r| <= |xs|
    ensures forall k :: 0 <= k < |r| ==> !IsBlank(r[k].value)
  {
    if xs == [] then []
    else (if !IsBlank(xs[0].value) then [xs[0]] else []) + NonBlank(xs[1..])
  }

  /** Dropping blanks keeps every other item, as often as before. */
  lemma {:induction false} NonBlankCount(xs: seq<Grounded>, g: Grounded)
    ensures multiset(NonBlank(xs))[g] == if IsBlank(g.value) then 0 else multiset(xs)[g]
  {
    if xs != [] {
      NonBlankCount(xs[1..], g);
      assert xs == [xs[0]] + xs[1..];
      assert multiset(xs) == multiset([xs[0]]) + multiset(xs[1..]);
      var head := if !IsBlank(xs[0].value) then [xs[0]] else [];
      assert NonBlank(xs) == head + NonBlank(xs[1..]);
      assert multiset(NonBlank(xs)) == multiset(head) + multiset(NonBlank(xs[1..]));
    }
  }

  /** Dropping blanks twice is dropping them once. */
  lemma {:induction false} NonBlankIdempotent(xs: seq<Grounded>)
    ensures NonBlank(NonBlank(xs)) == NonBlank(xs)
  {
    if xs != [] {
      NonBlankIdempotent(xs[1..]);
      var rest := NonBlank(xs[1..]);
      if !IsBlank(xs[0].value) {
        assert NonBlank(xs) == [xs[0]] + rest;
        assert ([xs[0]] + rest)[1..] == rest;
      } else {
        assert NonBlank(xs) == [] + rest;
        assert [] + rest == rest;
      }
    }
  }

  /** The panel's submitted payload: blank requirements and blank skills are dropped. */
  function Payload(v: FormValues): (r: FormValues)
    ensures r.(requirements := v.requirements, skills := v.skills) == v
    ensures r.requirements == NonBlank(v.requirements) && r.skills == NonBlank(v.skills)
  {
    v.(requirements := NonBlank(v.requirements), skills := NonBlank(v.skills))
  }

  /** The panel is read-only exactly for URL duplicates. */
  predicate PanelReadOnly(d: Draft)
  {
    StatusOf(d) == DuplicateUrl
  }

  // ---------------------------------------------------------------- the older details form

  /** `getFormValues` as written: a URL duplicate's requirements are filled from its skills and its skills from its requirements. */
  function FormValuesAsWritten(d: Draft): (r: FormValues)
    ensures d.UniqueDraft? || d.DuplicateContentDraft? ==> r == FromExtracted(d.listing)
    ensures d.PendingDraft? || d.ErrorDraft? ==> r == BlankForm
    ensures d.DuplicateUrlDraft? ==> ValuesOf(r.requirements) == d.duplicateOf.skills
    ensures d.DuplicateUrlDraft? ==> ValuesOf(r.skills) == d.duplicateOf.requirements
  {
    match d
    case UniqueDraft(_, _, l, _) => FromExtracted(l)
    case DuplicateUrlDraft(_, _, o, _) =>
      FormValues(o.title, o.company, OrBlank(o.location), o.description, Ungrounded(o.skills), Ungrounded(o.requirements), o.postedDate)
    case DuplicateContentDraft(_, _, l, _, _, _) => FromExtracted(l)
    case _ => BlankForm
  }

  /** The swap shows: a duplicate of a listing with one skill and one different requirement lists the skill as a requirement. */
  lemma SwappedFieldsShow()
    ensures var o := Stored("1", "u", "t", "c", "d", None, "", None, ["Go"], ["5 years"]);
      ValuesOf(FormValuesAsWritten(DuplicateUrlDraft("2", "u", o, "3")).requirements) == ["Go"] != o.requirements
  {
    var o := Stored("1", "u", "t", "c", "d", None, "", None, ["Go"], ["5 years"]);
    assert ["Go"] != o.requirements by {
      assert ["Go"][0] != o.requirements[0];
    }
  }

  /** `getFormValues` as intended: every form field shows the field of the same name. */
  function FormValuesFor(d: Draft): (r: FormValues)
    ensures d.UniqueDraft? || d.DuplicateContentDraft? ==> r == FromExtracted(d.listing)
    ensures d.PendingDraft? || d.ErrorDraft? ==> r == BlankForm
    ensures d.DuplicateUrlDraft? ==> ValuesOf(r.requirements) == d.duplicateOf.requirements
    ensures d.DuplicateUrlDraft? ==> ValuesOf(r.skills) == d.duplicateOf.skills
  {
    match d
    case UniqueDraft(_, _, l, _) => FromExtracted(l)
    case DuplicateUrlDraft(_, _, o, _) => FromStored(o)
    case DuplicateContentDraft(_, _, l, _, _, _) => FromExtracted(l)
    case _ => BlankForm
  }

  /** Corrected, the older form opens with exactly the values the details panel opens with. */
  lemma FormsAgree(d: Draft)
    requires d.UniqueDraft? || d.DuplicateUrlDraft? || d.DuplicateContentDraft?
    ensures FormValuesFor(d) == InitialValues(d)
  {
  }

  /** The values for a selection: no selection gives the blank form. */
  function FormFor(d: Option<Draft>): (r: FormValues)
    ensures d.None? ==> r == BlankForm
    ensures d.Some? ==> r == FormValuesFor(d.value)
  {
    if d.Some? then FormValuesFor(d.value) else BlankForm
  }

  /** The older form's submit: only blank requirements are dropped; blank skills stay. */
  function Submitted(v: FormValues): (r: FormValues)
    ensures r.requirements == NonBlank(v.requirements)
    ensures r.(requirements := v.requirements) == v
  {
    v.(requirements := NonBlank(v.requirements))
  }

  /** A blank skill survives the older form's submit but not the panel's. */
  lemma BlankSkillsKept(v: FormValues, g: Grounded)
    requires g in v.skills && Trim(g.value) == ""
    ensures g in Submitted(v).skills
    ensures g !in Payload(v).skills
  {
    BlankMeansTrimmedEmpty(g.value);
    NonBlankCount(v.skills, g);
  }

  /** Editing is off for both duplicate kinds in the older form, for URL duplicates only in the panel. */
  predicate FormDisabled(d: Draft)
  {
    StatusOf(d) == DuplicateUrl || StatusOf(d) == DuplicateContent
  }

  lemma ReadOnlyRules(d: Draft)
    ensures FormDisabled(d) <==> IsDuplicate(d)
    ensures PanelReadOnly(d) <==> d.DuplicateUrlDraft?
    ensures d.DuplicateContentDraft? ==> FormDisabled(d) && !PanelReadOnly(d)
  {
  }
}
