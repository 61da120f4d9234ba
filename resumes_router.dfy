/**
 * Resume endpoints: `create_resume` attaches an empty resume to an
 * application, and `generate_resume_content` replaces the bullets of the
 * relevant experiences by the LLM's rewrites, orders them newest first and
 * lays them out as the single "Work Experience" section.
 *
 * The relevance search and the LLM calls are parameters: the experiences
 * and the rewritten bullet lists arrive as inputs.
 */
module ResumesRouter {
  import opened Wrappers
  import opened Sorting
  import opened Schemas
  import Url
  import Ranking
  import ApplicationsService

  type Experience = Ranking.Experience

  datatype DetailedItem = DetailedItem(
    title: string, subtitle: Option<string>, startDate: Option<string>, endDate: Option<string>, bullets: seq<string>)

  datatype SectionContent =
    | Detailed(items: seq<DetailedItem>)
    | Simple(bullets: seq<string>)
    | Paragraph(text: string)

  datatype Section = Section(id: string, kind: string, title: string, order: int, content: SectionContent)

  datatype Resume = Resume(id: Uuid, template: string, sections: seq<Section>)

  // ---------------------------------------------------------------- create_resume

  datatype NotFound = NotFound(applicationId: Uuid)

  /**
   * `create_resume`: the application must exist; the new resume uses the
   * configured default template and has no sections, and the application is
   * updated to point at it. Returns the resume, the updated application and
   * the statements of `applications_service.update`.
   */
  method CreateResume(applicationId: Uuid, applications: map<Uuid, Application>, freshId: Uuid, defaultTemplate: string)
    returns (r: Result<(Resume, Application, seq<ApplicationsService.Operation>), NotFound>)
    ensures r.Err? <==> applicationId !in applications
    ensures r.Err? ==> r.error == NotFound(applicationId)
    ensures r.Ok? ==> r.value.0 == Resume(freshId, defaultTemplate, [])
    ensures r.Ok? ==> r.value.1 == applications[applicationId].(resumeId := Some(freshId))
    ensures r.Ok? ==> |r.value.2| == 1 + |applications[applicationId].statusEvents|
    ensures r.Ok? ==> r.value.2[0] == ApplicationsService.DeleteEvents(applications[applicationId].id)
    ensures r.Ok? ==> forall i :: 0 <= i < |applications[applicationId].statusEvents| ==> r.value.2[1 + i] == ApplicationsService.EventInsert(r.value.1, applications[applicationId].statusEvents[i])
  {
    if applicationId !in applications {
      return Err(NotFound(applicationId));
    }
    var application := applications[applicationId];
    var resume := Resume(freshId, defaultTemplate, []);
    application := application.(resumeId := Some(resume.id));
    var ops := ApplicationsService.Update(application);
    return Ok((resume, application, ops));
  }

  // ---------------------------------------------------------------- generate_resume_content

  /** `zip(experiences, responses, strict=False)`: each experience takes the bullets at its position; extras on either side are dropped. */
  method Customise(experiences: seq<Experience>, responses: seq<seq<string>>) returns (r: seq<Experience>)
    ensures |r| == if |experiences| <= |responses| then |experiences| else |responses|
    ensures forall i :: 0 <= i < |r| ==> r[i] == experiences[i].(bullets := responses[i])
  {
    r := [];
    var i := 0;
    while i < |experiences| && i < |responses|
      invariant 0 <= i <= |experiences| && i <= |responses|
      invariant |r| == i
      invariant forall j :: 0 <= j < i ==> r[j] == experiences[j].(bullets := responses[j])
    {
      r := r + [experiences[i].(bullets := responses[i])];
      i := i + 1;
    }
  }

  /** The sort key: `(end_date or '9999-12', start_date or '0000-00')`. */
  function SortKey(e: Experience): (k: (string, string))
    ensures e.endDate.None? ==> k.0 == "9999-12"
    ensures e.endDate.Some? && e.endDate.value != "" ==> k.0 == e.endDate.value
    ensures e.startDate != "" ==> k.1 == e.startDate
  {
    (if e.endDate.Some? && e.endDate.value != "" then e.endDate.value else "9999-12",
     if e.startDate != "" then e.startDate else "0000-00")
  }

  /** Python tuple order on pairs of strings. */
  predicate PairLe(p: (string, string), q: (string, string))
  {
    (Url.LexLe(p.0, q.0) && p.0 != q.0) || (p.0 == q.0 && Url.LexLe(p.1, q.1))
  }

  /** `sorted(..., key=sort_key, reverse=True)`: `a` may precede `b` when its key is not smaller. */
  predicate NewerFirst(a: Experience, b: Experience)
  {
    PairLe(SortKey(b), SortKey(a))
  }

  lemma {:induction false} LexAntisymmetric(a: string, b: string)
    requires Url.LexLe(a, b) && Url.LexLe(b, a)
    ensures a == b
  {
    if a != [] && b != [] {
      LexAntisymmetric(a[1..], b[1..]);
    }
  }

  lemma {:induction false} LexReflexive(a: string)
    ensures Url.LexLe(a, a)
  {
    if a != [] {
      LexReflexive(a[1..]);
    }
  }

  lemma PairOrder()
    ensures forall p, q :: PairLe(p, q) || PairLe(q, p)
    ensures forall p, q, s :: PairLe(p, q) && PairLe(q, s) ==> PairLe(p, s)
  {
    forall p: (string, string), q: (string, string) ensures PairLe(p, q) || PairLe(q, p) {
      Url.LexTotal(p.0, q.0);
      Url.LexTotal(p.1, q.1);
    }
    forall p: (string, string), q: (string, string), s: (string, string) | PairLe(p, q) && PairLe(q, s)
      ensures PairLe(p, s)
    {
      if p.0 != q.0 && q.0 != s.0 {
        Url.LexTransitive(p.0, q.0, s.0);
        if p.0 == s.0 {
          LexAntisymmetric(p.0, q.0);
        }
      } else if p.0 == q.0 && q.0 == s.0 {
        Url.LexTransitive(p.1, q.1, s.1);
      }
    }
  }

  lemma NewerFirstOrder()
    ensures TotalPreorder(NewerFirst)
  {
    PairOrder();
  }

  /** The experiences ordered newest first. */
  function Ordered(experiences: seq<Experience>): seq<Experience>
  {
    Sort(experiences, NewerFirst)
  }

  function ToItem(e: Experience): (d: DetailedItem)
    ensures d.title == e.title && d.subtitle == Some(e.organization)
    ensures d.startDate == Some(e.startDate) && d.endDate == e.endDate && d.bullets == e.bullets
  {
    DetailedItem(e.title, Some(e.organization), Some(e.startDate), e.endDate, e.bullets)
  }

  function Items(experiences: seq<Experience>): (r: seq<DetailedItem>)
    ensures |r| == |experiences|
    ensures forall i :: 0 <= i < |experiences| ==> r[i] == ToItem(experiences[i])
  {
    seq(|experiences|, i requires 0 <= i < |experiences| => ToItem(experiences[i]))
  }

  /** The single "Work Experience" section. */
  function WorkExperience(items: seq<DetailedItem>): (r: seq<Section>)
    ensures |r| == 1 && r[0].id == "1" && r[0].kind == "detailed" && r[0].title == "Work Experience" && r[0].order == 0
    ensures r[0].content == Detailed(items)
  {
    [Section("1", "detailed", "Work Experience", 0, Detailed(items))]
  }

  /** `generate_resume_content`: the resume's new sections. */
  method GenerateResumeContent(experiences: seq<Experience>, responses: seq<seq<string>>) returns (sections: seq<Section>)
    ensures exists customised ::
      && |customised| == (if |experiences| <= |responses| then |experiences| else |responses|)
      && (forall i :: 0 <= i < |customised| ==> customised[i] == experiences[i].(bullets := responses[i]))
      && sections == WorkExperience(Items(Ordered(customised)))
  {
    var customised := Customise(experiences, responses);
    var sorted := Ordered(customised);
    sections := WorkExperience(Items(sorted));
  }

  /** Ordering: every experience is kept exactly once, newest first by (end, start). */
  lemma {:induction false} OrderedFacts(experiences: seq<Experience>)
    ensures multiset(Ordered(experiences)) == multiset(experiences)
    ensures forall i, j :: 0 <= i < j < |Ordered(experiences)| ==>
      PairLe(SortKey(Ordered(experiences)[j]), SortKey(Ordered(experiences)[i]))
  {
    SortPermutation(experiences, NewerFirst);
    NewerFirstOrder();
    SortSorted(experiences, NewerFirst);
  }

  /** Experiences with equal keys keep the order in which the search returned them. */
  lemma OrderedStable(experiences: seq<Experience>, e: Experience)
    ensures Ties(Ordered(experiences), e, NewerFirst) == Ties(experiences, e, NewerFirst)
  {
    NewerFirstOrder();
    SortStable(experiences, e, NewerFirst);
  }

  /**
   * Ongoing experiences come first: anything placed before an experience
   * without an end date has an end key of at least `9999-12`, so no
   * experience that ended earlier precedes an ongoing one.
   */
  lemma OngoingFirst(experiences: seq<Experience>)
    ensures var s := Ordered(experiences);
      forall i, j :: 0 <= i < j < |s| && s[j].endDate.None? ==> Url.LexLe("9999-12", SortKey(s[i]).0)
  {
    var s := Ordered(experiences);
    OrderedFacts(experiences);
    forall i, j | 0 <= i < j < |s| && s[j].endDate.None?
      ensures Url.LexLe("9999-12", SortKey(s[i]).0)
    {
      assert PairLe(SortKey(s[j]), SortKey(s[i]));
    }
  }

  /** Among experiences that both ended, a later end date comes first. */
  lemma LaterEndFirst(experiences: seq<Experience>, i: int, j: int)
    requires 0 <= i < j < |Ordered(experiences)|
    requires var s := Ordered(experiences); s[i].endDate.Some? && s[i].endDate.value != "" && s[j].endDate.Some? && s[j].endDate.value != ""
    ensures Url.LexLe(Ordered(experiences)[j].endDate.value, Ordered(experiences)[i].endDate.value)
  {
    OrderedFacts(experiences);
    LexReflexive(Ordered(experiences)[j].endDate.value);
  }
}
