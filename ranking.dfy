/**
 * The relevance ranking shared by both experience services: vector-search
 * hits are summed per (experience id, bullet index), each experience is
 * scored by the sum of its bullets, the best experiences are taken in
 * stable descending order, and each is cut down to its best bullets, read
 * back from the stored experience by index.
 */
module Ranking {
  import opened Wrappers
  import Sorting

  datatype ExperienceType = FullTime | PartTime | Internship | Freelance | Contract

  datatype Experience = Experience(
    id: string,
    title: string,
    organization: string,
    kind: ExperienceType,
    location: Option<string>,
    startDate: string,
    endDate: Option<string>,
    bullets: seq<string>)

  /** The two listing fields the ranking reads. */
  datatype Listing = Listing(title: string, requirements: seq<string>)

  /**
   * One search result: the stored document, the `experience_id` and
   * `bullet_index` read from its metadata (absent keys are `None`), and
   * its similarity.
   */
  datatype Hit = Hit(text: string, experienceId: Option<string>, bulletIndex: Option<int>, similarity: real)

  /** What the accumulator holds for one bullet: summed score and last document text. */
  datatype BulletHit = BulletHit(index: int, score: real, text: string)

  /** The accumulator entry of one experience; entries keep first-hit order, as a dict does. */
  datatype ExperienceHits = ExperienceHits(id: string, bullets: seq<BulletHit>)

  datatype RankError =
    | NotFound(id: string)       // `get` found no experience with this id
    | BulletIndexError(id: string, index: int)   // `bullets[bullet_index]` out of range

  /** The query text built for one requirement. */
  function Query(title: string, requirement: string): string
  {
    "Role: " + title + "\nAchievement: " + requirement
  }

  const Collection := "experience_bullets"
  /** Results asked of the vector store per requirement. */
  const FanOut := 5

  /** The search results of all queries, concatenated in query order. */
  function Gather(search: (string, string, nat) -> seq<Hit>, queries: seq<string>): seq<Hit>
  {
    if queries == [] then []
    else Gather(search, queries[..|queries| - 1]) + search(Collection, queries[|queries| - 1], FanOut)
  }

  predicate Usable(h: Hit)
  {
    h.experienceId.Some? && h.bulletIndex.Some?
  }

  // ---------------------------------------------------------------- accumulator

  /** `bullets[index]['score'] += sim; bullets[index]['text'] = text` on a default-initialised entry. */
  function AddBullet(bs: seq<BulletHit>, index: int, sim: real, text: string): (r: seq<BulletHit>)
    ensures |r| == |bs| || |r| == |bs| + 1
  {
    if bs == [] then [BulletHit(index, 0.0 + sim, text)]
    else if bs[0].index == index then [BulletHit(index, bs[0].score + sim, text)] + bs[1..]
    else [bs[0]] + AddBullet(bs[1..], index, sim, text)
  }

  function AddTo(acc: seq<ExperienceHits>, id: string, index: int, sim: real, text: string): seq<ExperienceHits>
  {
    if acc == [] then [ExperienceHits(id, AddBullet([], index, sim, text))]
    else if acc[0].id == id then [ExperienceHits(id, AddBullet(acc[0].bullets, index, sim, text))] + acc[1..]
    else [acc[0]] + AddTo(acc[1..], id, index, sim, text)
  }

  /** One step of the accumulation loop; hits without both metadata keys are skipped. */
  function AddHit(acc: seq<ExperienceHits>, h: Hit): seq<ExperienceHits>
  {
    if Usable(h) then AddTo(acc, h.experienceId.value, h.bulletIndex.value, h.similarity, h.text) else acc
  }

  function Accumulate(hits: seq<Hit>): seq<ExperienceHits>
  {
    if hits == [] then [] else AddHit(Accumulate(hits[..|hits| - 1]), hits[|hits| - 1])
  }

  function BulletsOf(acc: seq<ExperienceHits>, id: string): Option<seq<BulletHit>>
  {
    if acc == [] then None else if acc[0].id == id then Some(acc[0].bullets) else BulletsOf(acc[1..], id)
  }

  function ScoreIn(bs: seq<BulletHit>, index: int): Option<real>
  {
    if bs == [] then None else if bs[0].index == index then Some(bs[0].score) else ScoreIn(bs[1..], index)
  }

  function BulletScore(acc: seq<ExperienceHits>, id: string, index: int): Option<real>
  {
    match BulletsOf(acc, id)
    case None => None
    case Some(bs) => ScoreIn(bs, index)
  }

  /** Sum of bullet scores, as `sum(bullet['score'] for bullet in bullets.values())`. */
  function Total(bs: seq<BulletHit>): real
  {
    if bs == [] then 0.0 else bs[0].score + Total(bs[1..])
  }

  // -------------------------------------------------- reference sums over hits

  predicate HitsBullet(h: Hit, id: string, index: int)
  {
    h.experienceId == Some(id) && h.bulletIndex == Some(index)
  }

  predicate HitsExperience(h: Hit, id: string)
  {
    h.experienceId == Some(id) && h.bulletIndex.Some?
  }

  /** Sum of the similarities of all hits naming this bullet. */
  function HitScore(hits: seq<Hit>, id: string, index: int): real
  {
    if hits == [] then 0.0
    else HitScore(hits[..|hits| - 1], id, index) + (if HitsBullet(hits[|hits| - 1], id, index) then hits[|hits| - 1].similarity else 0.0)
  }

  /** Sum of the similarities of all usable hits naming this experience. */
  function ExperienceScore(hits: seq<Hit>, id: string): real
  {
    if hits == [] then 0.0
    else ExperienceScore(hits[..|hits| - 1], id) + (if HitsExperience(hits[|hits| - 1], id) then hits[|hits| - 1].similarity else 0.0)
  }

  predicate AnyHitBullet(hits: seq<Hit>, id: string, index: int)
  {
    exists k :: 0 <= k < |hits| && HitsBullet(hits[k], id, index)
  }

  predicate AnyHitExperience(hits: seq<Hit>, id: string)
  {
    exists k :: 0 <= k < |hits| && HitsExperience(hits[k], id)
  }

  /** Scores do not depend on where the hits come from: the sum over a concatenation splits. */
  lemma {:induction false} HitScoreAppend(a: seq<Hit>, b: seq<Hit>, id: string, index: int)
    ensures HitScore(a + b, id, index) == HitScore(a, id, index) + HitScore(b, id, index)
    decreases |b|
  {
    if b == [] {
      assert a + b == a;
    } else {
      assert (a + b)[..|a + b| - 1] == a + b[..|b| - 1];
      HitScoreAppend(a, b[..|b| - 1], id, index);
    }
  }

  /** Swapping the order in which two query results arrive leaves every bullet score unchanged. */
  lemma HitScoreOrderFree(a: seq<Hit>, b: seq<Hit>, id: string, index: int)
    ensures HitScore(a + b, id, index) == HitScore(b + a, id, index)
  {
    HitScoreAppend(a, b, id, index);
    HitScoreAppend(b, a, id, index);
  }

  // ------------------------------------------------------ accumulator lemmas

  function Indices(bs: seq<BulletHit>): set<int>
  {
    if bs == [] then {} else {bs[0].index} + Indices(bs[1..])
  }

  predicate DistinctIndices(bs: seq<BulletHit>)
  {
    bs == [] || (bs[0].index !in Indices(bs[1..]) && DistinctIndices(bs[1..]))
  }

  function Ids(acc: seq<ExperienceHits>): set<string>
  {
    if acc == [] then {} else {acc[0].id} + Ids(acc[1..])
  }

  /** Distinct ids, and per experience a non-empty list of distinct bullet indices. */
  predicate WellFormed(acc: seq<ExperienceHits>)
  {
    acc == [] ||
    (acc[0].id !in Ids(acc[1..]) && DistinctIndices(acc[0].bullets) && acc[0].bullets != [] && WellFormed(acc[1..]))
  }

  lemma {:induction false} AddBulletShape(bs: seq<BulletHit>, index: int, sim: real, text: string)
    requires DistinctIndices(bs)
    ensures Indices(AddBullet(bs, index, sim, text)) == Indices(bs) + {index}
    ensures DistinctIndices(AddBullet(bs, index, sim, text))
  {
    if bs != [] && bs[0].index != index {
      AddBulletShape(bs[1..], index, sim, text);
    } else if bs != [] {
      assert AddBullet(bs, index, sim, text)[1..] == bs[1..];
    }
  }

  lemma {:induction false} AddBulletTotal(bs: seq<BulletHit>, index: int, sim: real, text: string)
    ensures Total(AddBullet(bs, index, sim, text)) == Total(bs) + sim
  {
    if bs != [] && bs[0].index != index {
      AddBulletTotal(bs[1..], index, sim, text);
    } else if bs != [] {
      assert AddBullet(bs, index, sim, text)[1..] == bs[1..];
    }
  }

  lemma {:induction false} AddBulletScore(bs: seq<BulletHit>, index: int, sim: real, text: string, k: int)
    ensures ScoreIn(AddBullet(bs, index, sim, text), k) ==
      if k == index then Some(ScoreIn(bs, index).GetOr(0.0) + sim) else ScoreIn(bs, k)
  {
    if bs != [] && bs[0].index != index {
      AddBulletScore(bs[1..], index, sim, text, k);
    } else if bs != [] {
      assert AddBullet(bs, index, sim, text)[1..] == bs[1..];
    }
  }

  lemma {:induction false} AddToShape(acc: seq<ExperienceHits>, id: string, index: int, sim: real, text: string)
    requires WellFormed(acc)
    ensures Ids(AddTo(acc, id, index, sim, text)) == Ids(acc) + {id}
    ensures WellFormed(AddTo(acc, id, index, sim, text))
  {
    if acc == [] {
      AddBulletShape([], index, sim, text);
    } else if acc[0].id == id {
      AddBulletShape(acc[0].bullets, index, sim, text);
      assert AddTo(acc, id, index, sim, text)[1..] == acc[1..];
    } else {
      AddToShape(acc[1..], id, index, sim, text);
    }
  }

  lemma {:induction false} AddToBullets(acc: seq<ExperienceHits>, id: string, index: int, sim: real, text: string, other: string)
    ensures BulletsOf(AddTo(acc, id, index, sim, text), other) ==
      if other == id then Some(AddBullet(BulletsOf(acc, id).GetOr([]), index, sim, text)) else BulletsOf(acc, other)
  {
    if acc == [] {
    } else if acc[0].id == id {
      assert AddTo(acc, id, index, sim, text)[1..] == acc[1..];
    } else {
      AddToBullets(acc[1..], id, index, sim, text, other);
    }
  }

  lemma {:induction false} BulletsOfIn(acc: seq<ExperienceHits>, id: string)
    requires WellFormed(acc)
    ensures BulletsOf(acc, id).Some? <==> id in Ids(acc)
    ensures BulletsOf(acc, id).Some? ==> DistinctIndices(BulletsOf(acc, id).value) && BulletsOf(acc, id).value != []
    ensures forall k :: 0 <= k < |acc| && acc[k].id == id ==> BulletsOf(acc, id) == Some(acc[k].bullets)
  {
    if acc != [] {
      BulletsOfIn(acc[1..], id);
      forall k | 0 <= k < |acc| && acc[k].id == id ensures BulletsOf(acc, id) == Some(acc[k].bullets) {
        if k > 0 {
          assert acc[1..][k - 1] == acc[k];
          IdsContain(acc[1..], k - 1);
        }
      }
    }
  }

  lemma {:induction false} IdsContain(acc: seq<ExperienceHits>, k: int)
    requires 0 <= k < |acc|
    ensures acc[k].id in Ids(acc)
  {
    if k > 0 { IdsContain(acc[1..], k - 1); }
  }

  /** The accumulator keeps one entry per experience id that has a usable hit, and no other. */
  lemma {:induction false} AccumulateIds(hits: seq<Hit>, id: string)
    ensures WellFormed(Accumulate(hits))
    ensures id in Ids(Accumulate(hits)) <==> AnyHitExperience(hits, id)
  {
    if hits != [] {
      var init := hits[..|hits| - 1];
      var h := hits[|hits| - 1];
      assert hits == init + [h];
      AccumulateIds(init, id);
      AnyHitExperienceSnoc(init, h, id);
      if Usable(h) { AddToShape(Accumulate(init), h.experienceId.value, h.bulletIndex.value, h.similarity, h.text); }
    }
  }

  /** Each bullet's accumulated score is the sum of the similarities of the hits naming it. */
  lemma {:induction false} AccumulateBulletScore(hits: seq<Hit>, id: string, index: int)
    ensures BulletScore(Accumulate(hits), id, index).GetOr(0.0) == HitScore(hits, id, index)
    ensures BulletScore(Accumulate(hits), id, index).Some? <==> AnyHitBullet(hits, id, index)
  {
    if hits != [] {
      var init := hits[..|hits| - 1];
      var h := hits[|hits| - 1];
      assert hits == init + [h];
      AccumulateBulletScore(init, id, index);
      AnyHitBulletSnoc(init, h, id, index);
      if Usable(h) {
        var before := Accumulate(init);
        AddToBullets(before, h.experienceId.value, h.bulletIndex.value, h.similarity, h.text, id);
        if id == h.experienceId.value {
          AddBulletScore(BulletsOf(before, id).GetOr([]), h.bulletIndex.value, h.similarity, h.text, index);
        }
      }
    }
  }

  /** An experience's entry sums to the similarities of all its usable hits. */
  lemma {:induction false} AccumulateTotal(hits: seq<Hit>, id: string)
    ensures Total(BulletsOf(Accumulate(hits), id).GetOr([])) == ExperienceScore(hits, id)
  {
    if hits != [] {
      var init := hits[..|hits| - 1];
      var h := hits[|hits| - 1];
      AccumulateTotal(init, id);
      if Usable(h) {
        var before := Accumulate(init);
        AddToBullets(before, h.experienceId.value, h.bulletIndex.value, h.similarity, h.text, id);
        if id == h.experienceId.value {
          AddBulletTotal(BulletsOf(before, id).GetOr([]), h.bulletIndex.value, h.similarity, h.text);
        }
      }
    }
  }

  lemma {:induction false} AnyHitBulletSnoc(init: seq<Hit>, h: Hit, id: string, index: int)
    ensures AnyHitBullet(init + [h], id, index) <==> AnyHitBullet(init, id, index) || HitsBullet(h, id, index)
  {
    var hs := init + [h];
    if AnyHitBullet(init, id, index) {
      var k :| 0 <= k < |init| && HitsBullet(init[k], id, index);
      assert hs[k] == init[k];
    }
    if AnyHitBullet(hs, id, index) && !HitsBullet(h, id, index) {
      var k :| 0 <= k < |hs| && HitsBullet(hs[k], id, index);
      assert k < |init| && hs[k] == init[k];
    }
    assert hs[|init|] == h;
  }

  lemma {:induction false} AnyHitExperienceSnoc(init: seq<Hit>, h: Hit, id: string)
    ensures AnyHitExperience(init + [h], id) <==> AnyHitExperience(init, id) || HitsExperience(h, id)
  {
    var hs := init + [h];
    if AnyHitExperience(init, id) {
      var k :| 0 <= k < |init| && HitsExperience(init[k], id);
      assert hs[k] == init[k];
    }
    if AnyHitExperience(hs, id) && !HitsExperience(h, id) {
      var k :| 0 <= k < |hs| && HitsExperience(hs[k], id);
      assert k < |init| && hs[k] == init[k];
    }
    assert hs[|init|] == h;
  }

  // ----------------------------------------------------------- scoring, sorting

  /** `experience_scores`: each accumulator entry with its total, in entry order. */
  function Scores(acc: seq<ExperienceHits>): (r: seq<(string, real)>)
    ensures |r| == |acc|
    ensures forall k :: 0 <= k < |acc| ==> r[k] == (acc[k].id, Total(acc[k].bullets))
  {
    if acc == [] then [] else [(acc[0].id, Total(acc[0].bullets))] + Scores(acc[1..])
  }

  /** `sorted(..., key=lambda x: x[1], reverse=True)` on `(id, total)` pairs. */
  function ByScore(a: (string, real), b: (string, real)): bool { a.1 >= b.1 }

  /** `sorted(..., key=lambda x: x[1]['score'], reverse=True)` on bullet entries. */
  function ByBulletScore(a: BulletHit, b: BulletHit): bool { a.score >= b.score }

  lemma ByScoreTotal()
    ensures Sorting.TotalPreorder(ByScore)
  {
  }

  lemma ByBulletScoreTotal()
    ensures Sorting.TotalPreorder(ByBulletScore)
  {
  }

  /** The `(id, total)` pairs that survive the `[:top_k]` cut, best first. */
  function Ranked(acc: seq<ExperienceHits>, topK: int): seq<(string, real)>
  {
    Sorting.PyPrefix(Sorting.Sort(Scores(acc), ByScore), topK)
  }

  /** The pairs the result loop keeps: the first occurrence of every id not yet added. */
  function Chosen(sel: seq<(string, real)>, added: set<string>): (r: seq<(string, real)>)
    ensures |r| <= |sel|
  {
    if sel == [] then []
    else if sel[0].0 in added then Chosen(sel[1..], added)
    else [sel[0]] + Chosen(sel[1..], added + {sel[0].0})
  }

  // ------------------------------------------------------------------- pruning

  /** Python's `xs[i]`, where a negative index counts from the end. */
  function PyIndex<T>(xs: seq<T>, i: int): (r: Option<T>)
    ensures 0 <= i < |xs| ==> r == Some(xs[i])
    ensures -|xs| <= i < 0 ==> r == Some(xs[|xs| + i])
    ensures r.None? <==> (i >= |xs| || i < -|xs|)
  {
    if 0 <= i < |xs| then Some(xs[i]) else if -|xs| <= i < 0 then Some(xs[|xs| + i]) else None
  }

  /** The bullet entries kept for one experience: best first, at most `maxBullets` of them. */
  function TopBullets(bs: seq<BulletHit>, maxBullets: int): seq<BulletHit>
  {
    Sorting.PyPrefix(Sorting.Sort(bs, ByBulletScore), maxBullets)
  }

  /** `[experience.bullets[bullet_index] for bullet_index, _ in sorted_bullets]`. */
  function BulletTexts(stored: seq<string>, id: string, chosen: seq<BulletHit>): (r: Result<seq<string>, RankError>)
    ensures r.Ok? ==> |r.value| == |chosen|
    ensures r.Ok? ==> forall k :: 0 <= k < |chosen| ==> PyIndex(stored, chosen[k].index) == Some(r.value[k])
    ensures r.Err? <==> exists k :: 0 <= k < |chosen| && PyIndex(stored, chosen[k].index).None?
  {
    if chosen == [] then Ok([])
    else match PyIndex(stored, chosen[0].index)
      case None => Err(BulletIndexError(id, chosen[0].index))
      case Some(t) =>
        match BulletTexts(stored, id, chosen[1..])
        case Err(e) => Err(e)
        case Ok(ts) =>
          assert forall k :: 1 <= k < |chosen| ==> chosen[k] == chosen[1..][k - 1];
          Ok([t] + ts)
  }

  /** One iteration of the result loop for a fresh id: look up, keep the best bullets, copy the rest. */
  function Prune(acc: seq<ExperienceHits>, store: map<string, Experience>, id: string, maxBullets: int): Result<Experience, RankError>
  {
    if id !in store then Err(NotFound(id))
    else
      var experience := store[id];
      match BulletTexts(experience.bullets, id, TopBullets(BulletsOf(acc, id).GetOr([]), maxBullets))
      case Err(e) => Err(e)
      case Ok(ts) => Ok(experience.(bullets := ts))
  }

  /** The result loop: the first error raised wins, otherwise the pruned records in order. */
  function Select(acc: seq<ExperienceHits>, store: map<string, Experience>, sel: seq<(string, real)>, added: set<string>, maxBullets: int): Result<seq<Experience>, RankError>
  {
    if sel == [] then Ok([])
    else if sel[0].0 in added then Select(acc, store, sel[1..], added, maxBullets)
    else
      match Prune(acc, store, sel[0].0, maxBullets)
      case Err(e) => Err(e)
      case Ok(p) =>
        match Select(acc, store, sel[1..], added + {sel[0].0}, maxBullets)
        case Err(e) => Err(e)
        case Ok(ps) => Ok([p] + ps)
  }

  /** What `find_relevant` returns (or raises), as a function of its inputs and oracles. */
  function Relevant(listing: Listing, search: (string, string, nat) -> seq<Hit>, store: map<string, Experience>, topK: int, maxBullets: int): Result<seq<Experience>, RankError>
  {
    if listing.requirements == [] then Ok([])
    else
      var acc := Accumulate(Gather(search, Queries(listing.title, listing.requirements)));
      if acc == [] then Ok([]) else Select(acc, store, Ranked(acc, topK), {}, maxBullets)
  }

  function Queries(title: string, requirements: seq<string>): (r: seq<string>)
    ensures |r| == |requirements|
    ensures forall k :: 0 <= k < |r| ==> r[k] == Query(title, requirements[k])
  {
    if requirements == [] then [] else Queries(title, requirements[..|requirements| - 1]) + [Query(title, requirements[|requirements| - 1])]
  }

  // ------------------------------------------------------ properties of Select

  /** A successful result has one pruned record per chosen id, in order. */
  lemma {:induction false} SelectShape(acc: seq<ExperienceHits>, store: map<string, Experience>, sel: seq<(string, real)>, added: set<string>, maxBullets: int)
    ensures var r := Select(acc, store, sel, added, maxBullets);
      var ch := Chosen(sel, added);
      r.Ok? ==> |r.value| == |ch| && forall k :: 0 <= k < |ch| ==> Prune(acc, store, ch[k].0, maxBullets) == Ok(r.value[k])
  {
    if sel != [] {
      if sel[0].0 in added {
        SelectShape(acc, store, sel[1..], added, maxBullets);
      } else {
        SelectShape(acc, store, sel[1..], added + {sel[0].0}, maxBullets);
      }
    }
  }

  /** The kept ids are distinct, outside `added`, and drawn from `sel`. */
  lemma {:induction false} ChosenFrom(sel: seq<(string, real)>, added: set<string>)
    ensures forall i, j :: 0 <= i < j < |Chosen(sel, added)| ==> Chosen(sel, added)[i].0 != Chosen(sel, added)[j].0
    ensures forall i :: 0 <= i < |Chosen(sel, added)| ==> Chosen(sel, added)[i].0 !in added
    ensures forall i :: 0 <= i < |Chosen(sel, added)| ==> Chosen(sel, added)[i] in sel
  {
    if sel != [] {
      var ch := Chosen(sel, added);
      if sel[0].0 in added {
        var rest := Chosen(sel[1..], added);
        ChosenFrom(sel[1..], added);
        assert ch == rest;
        forall i | 0 <= i < |ch| ensures ch[i] in sel {
          InTail(sel, rest[i]);
        }
      } else {
        var rest := Chosen(sel[1..], added + {sel[0].0});
        ChosenFrom(sel[1..], added + {sel[0].0});
        assert ch == [sel[0]] + rest;
        forall i | 0 <= i < |ch| ensures ch[i].0 !in added && ch[i] in sel {
          if i > 0 {
            assert ch[i] == rest[i - 1];
            InTail(sel, rest[i - 1]);
          }
        }
        forall i, j | 0 <= i < j < |ch| ensures ch[i].0 != ch[j].0 {
          assert ch[j] == rest[j - 1];
          if i > 0 {
            assert ch[i] == rest[i - 1];
          }
        }
      }
    }
  }

  lemma InTail<T>(s: seq<T>, x: T)
    requires s != [] && x in s[1..]
    ensures x in s
  {
    var m :| 0 <= m < |s[1..]| && s[1..][m] == x;
    assert s[m + 1] == x;
  }

  lemma SortedTail<T>(s: seq<T>, le: (T, T) -> bool)
    requires s != [] && Sorting.SortedBy(s, le)
    ensures Sorting.SortedBy(s[1..], le)
  {
    forall i, j | 0 <= i < j < |s[1..]| ensures le(s[1..][i], s[1..][j]) {
      assert le(s[i + 1], s[j + 1]);
    }
  }

  /** The head of an ordered sequence may precede an ordered selection from its tail. */
  lemma ConsSorted<T>(s: seq<T>, rest: seq<T>, le: (T, T) -> bool)
    requires s != [] && Sorting.SortedBy(s, le) && Sorting.SortedBy(rest, le)
    requires forall k :: 0 <= k < |rest| ==> rest[k] in s[1..]
    ensures Sorting.SortedBy([s[0]] + rest, le)
  {
    var ch := [s[0]] + rest;
    forall i, j | 0 <= i < j < |ch| ensures le(ch[i], ch[j]) {
      assert ch[j] == rest[j - 1];
      if i == 0 {
        var m :| 0 <= m < |s[1..]| && s[1..][m] == rest[j - 1];
        assert le(s[0], s[m + 1]);
      } else {
        assert ch[i] == rest[i - 1];
      }
    }
  }

  /** The kept pairs keep the order of `sel`. */
  lemma {:induction false} ChosenSorted(sel: seq<(string, real)>, added: set<string>, le: ((string, real), (string, real)) -> bool)
    requires Sorting.SortedBy(sel, le)
    ensures Sorting.SortedBy(Chosen(sel, added), le)
  {
    if sel != [] {
      SortedTail(sel, le);
      if sel[0].0 in added {
        ChosenSorted(sel[1..], added, le);
      } else {
        var rest := Chosen(sel[1..], added + {sel[0].0});
        ChosenSorted(sel[1..], added + {sel[0].0}, le);
        ChosenFrom(sel[1..], added + {sel[0].0});
        ConsSorted(sel, rest, le);
      }
    }
  }

  /** Every pair in the ranked list is an accumulator entry with its true total. */
  lemma RankedFromScores(acc: seq<ExperienceHits>, topK: int, p: (string, real))
    requires p in Ranked(acc, topK)
    ensures exists k :: 0 <= k < |acc| && p == (acc[k].id, Total(acc[k].bullets))
  {
    var sorted := Sorting.Sort(Scores(acc), ByScore);
    Sorting.SortPermutation(Scores(acc), ByScore);
    assert p in sorted;
    assert p in multiset(Scores(acc));
    var k :| 0 <= k < |Scores(acc)| && Scores(acc)[k] == p;
  }

  /** The ranked list is ordered by total, best first, and `top_k` bounds it. */
  lemma RankedSorted(acc: seq<ExperienceHits>, topK: int)
    ensures Sorting.SortedBy(Ranked(acc, topK), ByScore)
    ensures topK >= 0 ==> |Ranked(acc, topK)| <= topK
  {
    ByScoreTotal();
    Sorting.SortSorted(Scores(acc), ByScore);
  }

  /** The kept bullet entries are accumulator entries, best first, at most `maxBullets` of them. */
  lemma TopBulletsFacts(bs: seq<BulletHit>, maxBullets: int)
    ensures var t := TopBullets(bs, maxBullets);
      && Sorting.SortedBy(t, ByBulletScore)
      && (maxBullets >= 0 ==> |t| <= maxBullets)
      && (forall b :: b in t ==> b in bs)
  {
    ByBulletScoreTotal();
    Sorting.SortSorted(bs, ByBulletScore);
    Sorting.SortPermutation(bs, ByBulletScore);
    var s := Sorting.Sort(bs, ByBulletScore);
    forall b | b in TopBullets(bs, maxBullets) ensures b in bs {
      assert b in s;
      assert b in multiset(s);
    }
  }

  /** A ranked pair carries its experience's true score, and that experience was hit. */
  lemma RankedEntry(hits: seq<Hit>, topK: int, p: (string, real))
    requires p in Ranked(Accumulate(hits), topK)
    ensures p.1 == ExperienceScore(hits, p.0)
    ensures AnyHitExperience(hits, p.0)
  {
    var acc := Accumulate(hits);
    RankedFromScores(acc, topK, p);
    var m :| 0 <= m < |acc| && p == (acc[m].id, Total(acc[m].bullets));
    AccumulateIds(hits, p.0);
    BulletsOfIn(acc, p.0);
    IdsContain(acc, m);
    AccumulateTotal(hits, p.0);
  }

  /** A pruned record is the stored one with at most `maxBullets` of its own bullets. */
  lemma PruneCopies(acc: seq<ExperienceHits>, store: map<string, Experience>, id: string, maxBullets: int)
    requires Prune(acc, store, id, maxBullets).Ok?
    ensures var p := Prune(acc, store, id, maxBullets).value;
      && id in store
      && p == store[id].(bullets := p.bullets)
      && (maxBullets >= 0 ==> |p.bullets| <= maxBullets)
      && (forall k :: 0 <= k < |p.bullets| ==> p.bullets[k] in store[id].bullets)
  {
    var p := Prune(acc, store, id, maxBullets).value;
    var top := TopBullets(BulletsOf(acc, id).GetOr([]), maxBullets);
    TopBulletsFacts(BulletsOf(acc, id).GetOr([]), maxBullets);
    forall k | 0 <= k < |p.bullets| ensures p.bullets[k] in store[id].bullets {
      assert PyIndex(store[id].bullets, top[k].index) == Some(p.bullets[k]);
    }
  }

  /**
   * `e` is what the result loop returns for experience `id`: the stored
   * record whose bullets are the stored bullets at its best hit indices
   * (`KeptBest`), as many as `[:max_bullets]` keeps of the bullets its
   * hits name.
   */
  ghost predicate PrunedRecord(hits: seq<Hit>, store: map<string, Experience>, maxBullets: int, id: string, e: Experience)
  {
    var top := TopBullets(BulletsOf(Accumulate(hits), id).GetOr([]), maxBullets);
    && id in store
    && e == store[id].(bullets := e.bullets)
    && |e.bullets| == |top| == SliceLength(|HitBullets(hits, id)|, maxBullets)
    && (maxBullets >= 0 ==> |e.bullets| <= maxBullets)
    && (forall k :: 0 <= k < |top| ==> PyIndex(store[id].bullets, top[k].index) == Some(e.bullets[k]))
    && (forall k :: 0 <= k < |e.bullets| ==> e.bullets[k] in store[id].bullets)
    && KeptBest(hits, id, top)
  }

  /** A record that prunes without an index error is the stored one cut to its best bullets. */
  lemma PruneRecord(hits: seq<Hit>, store: map<string, Experience>, id: string, maxBullets: int)
    requires Prune(Accumulate(hits), store, id, maxBullets).Ok?
    ensures PrunedRecord(hits, store, maxBullets, id, Prune(Accumulate(hits), store, id, maxBullets).value)
  {
    var acc := Accumulate(hits);
    PruneCopies(acc, store, id, maxBullets);
    PrunedBullets(acc, store, id, maxBullets);
    BulletChoice(hits, id, maxBullets);
  }

  /**
   * The properties promised of `find_relevant`: no requirements or no
   * usable hit gives `[]`; otherwise the result holds one experience per
   * ranked id (none is skipped), as many as `[:top_k]` keeps of the hit
   * experiences, each with at least one hit, ordered by the sum of their
   * similarities (best first, ties in first-hit order), no hit experience
   * left out scoring above one kept, each pruned as `PrunedRecord` says.
   */
  lemma {:induction false} RelevantProperties(listing: Listing, search: (string, string, nat) -> seq<Hit>, store: map<string, Experience>, topK: int, maxBullets: int)
    ensures listing.requirements == [] ==> Relevant(listing, search, store, topK, maxBullets) == Ok([])
    ensures var hits := Gather(search, Queries(listing.title, listing.requirements));
      listing.requirements != [] && Accumulate(hits) == [] ==> Relevant(listing, search, store, topK, maxBullets) == Ok([])
    ensures var hits := Gather(search, Queries(listing.title, listing.requirements));
      var r := Relevant(listing, search, store, topK, maxBullets);
      listing.requirements != [] && r.Ok? ==> |r.value| == SliceLength(|HitExperiences(hits)|, topK)
    ensures var hits := Gather(search, Queries(listing.title, listing.requirements));
      var r := Relevant(listing, search, store, topK, maxBullets);
      listing.requirements != [] && r.Ok? && Accumulate(hits) != [] ==> SelectedBest(hits, store, topK, maxBullets, r.value)
  {
    var hits := Gather(search, Queries(listing.title, listing.requirements));
    var acc := Accumulate(hits);
    var r := Relevant(listing, search, store, topK, maxBullets);
    ExperienceCount(hits);
    if listing.requirements != [] && r.Ok? && acc != [] {
      SelectProperties(hits, store, topK, maxBullets);
    }
  }

  /**
   * `result` is what the result loop returns from the hits: one record
   * per ranked id (none is skipped), at most `top_k` of them, ordered by
   * the sum of their similarities (best first, ties in first-hit order),
   * no hit experience left out scoring above one kept, each pruned as
   * `PrunedRecord` says.
   */
  ghost predicate SelectedBest(hits: seq<Hit>, store: map<string, Experience>, topK: int, maxBullets: int, result: seq<Experience>)
  {
    var ch := Chosen(Ranked(Accumulate(hits), topK), {});
    && ch == Ranked(Accumulate(hits), topK)
    && |result| == |ch|
    && (topK >= 0 ==> |ch| <= topK)
    && (forall i, j :: 0 <= i < j < |ch| ==> ch[i].0 != ch[j].0 && ch[i].1 >= ch[j].1)
    && (forall i, j :: 0 <= i < j < |ch| && ch[i].1 == ch[j].1 ==> FirstHitBefore(hits, ch[i].0, ch[j].0))
    && (forall id :: AnyHitExperience(hits, id) && (forall i :: 0 <= i < |ch| ==> ch[i].0 != id) ==>
          forall i :: 0 <= i < |ch| ==> ExperienceScore(hits, id) <= ch[i].1)
    && (forall i :: 0 <= i < |ch| ==>
          && ch[i].1 == ExperienceScore(hits, ch[i].0)
          && AnyHitExperience(hits, ch[i].0)
          && PrunedRecord(hits, store, maxBullets, ch[i].0, result[i]))
  }

  /** The result loop over the ranked hits, when no lookup fails, returns the best records. */
  lemma SelectProperties(hits: seq<Hit>, store: map<string, Experience>, topK: int, maxBullets: int)
    requires Select(Accumulate(hits), store, Ranked(Accumulate(hits), topK), {}, maxBullets).Ok?
    ensures SelectedBest(hits, store, topK, maxBullets, Select(Accumulate(hits), store, Ranked(Accumulate(hits), topK), {}, maxBullets).value)
  {
    ChosenOrder(hits, topK);
    SelectRecords(hits, store, topK, maxBullets);
  }

  /** The ids the result loop keeps: all the ranked ones, best first, ties in first-hit order. */
  lemma ChosenOrder(hits: seq<Hit>, topK: int)
    ensures var ch := Chosen(Ranked(Accumulate(hits), topK), {});
      && ch == Ranked(Accumulate(hits), topK)
      && (topK >= 0 ==> |ch| <= topK)
      && (forall i, j :: 0 <= i < j < |ch| ==> ch[i].0 != ch[j].0 && ch[i].1 >= ch[j].1)
      && (forall i, j :: 0 <= i < j < |ch| && ch[i].1 == ch[j].1 ==> FirstHitBefore(hits, ch[i].0, ch[j].0))
      && (forall id :: AnyHitExperience(hits, id) && (forall i :: 0 <= i < |ch| ==> ch[i].0 != id) ==>
            forall i :: 0 <= i < |ch| ==> ExperienceScore(hits, id) <= ch[i].1)
  {
    var acc := Accumulate(hits);
    var sel := Ranked(acc, topK);
    var ch := Chosen(sel, {});
    RankedChoice(hits, topK);
    ChosenFrom(sel, {});
    RankedSorted(acc, topK);
    ChosenSorted(sel, {}, ByScore);
    assert Sorting.SortedBy(ch, ByScore);
  }

  /** Each record the result loop returns is the pruned stored record of a ranked, hit experience. */
  lemma SelectRecords(hits: seq<Hit>, store: map<string, Experience>, topK: int, maxBullets: int)
    requires Select(Accumulate(hits), store, Ranked(Accumulate(hits), topK), {}, maxBullets).Ok?
    ensures var ch := Chosen(Ranked(Accumulate(hits), topK), {});
      var r := Select(Accumulate(hits), store, Ranked(Accumulate(hits), topK), {}, maxBullets);
      && |r.value| == |ch|
      && (forall i :: 0 <= i < |ch| ==>
            && ch[i].1 == ExperienceScore(hits, ch[i].0)
            && AnyHitExperience(hits, ch[i].0)
            && PrunedRecord(hits, store, maxBullets, ch[i].0, r.value[i]))
  {
    var acc := Accumulate(hits);
    var sel := Ranked(acc, topK);
    var ch := Chosen(sel, {});
    var r := Select(acc, store, sel, {}, maxBullets);
    SelectShape(acc, store, sel, {}, maxBullets);
    ChosenFrom(sel, {});
    forall i | 0 <= i < |ch|
      ensures ch[i].1 == ExperienceScore(hits, ch[i].0) && AnyHitExperience(hits, ch[i].0)
      ensures PrunedRecord(hits, store, maxBullets, ch[i].0, r.value[i])
    {
      RankedEntry(hits, topK, ch[i]);
      PruneRecord(hits, store, ch[i].0, maxBullets);
    }
  }

  /** The sizes `find_relevant` promises: `[]` without requirements, `[:top_k]` of the hit experiences, at most `max_bullets` bullets each. */
  lemma RelevantSizes(listing: Listing, search: (string, string, nat) -> seq<Hit>, store: map<string, Experience>, topK: int, maxBullets: int)
    ensures listing.requirements == [] ==> Relevant(listing, search, store, topK, maxBullets) == Ok([])
    ensures var r := Relevant(listing, search, store, topK, maxBullets);
      && (r.Ok? && topK >= 0 ==> |r.value| <= topK)
      && (r.Ok? && listing.requirements != [] ==>
            |r.value| == SliceLength(|HitExperiences(Gather(search, Queries(listing.title, listing.requirements)))|, topK))
      && (r.Ok? && maxBullets >= 0 ==> forall i :: 0 <= i < |r.value| ==> |r.value[i].bullets| <= maxBullets)
  {
    var hits := Gather(search, Queries(listing.title, listing.requirements));
    var r := Relevant(listing, search, store, topK, maxBullets);
    RelevantProperties(listing, search, store, topK, maxBullets);
    if listing.requirements != [] && r.Ok? && Accumulate(hits) != [] {
      var ch := Chosen(Ranked(Accumulate(hits), topK), {});
      assert SelectedBest(hits, store, topK, maxBullets, r.value);
      forall i | 0 <= i < |r.value| ensures maxBullets >= 0 ==> |r.value[i].bullets| <= maxBullets {
        assert PrunedRecord(hits, store, maxBullets, ch[i].0, r.value[i]);
      }
    }
  }

  /** Each bullet of a returned record is the stored bullet at the index of a kept hit entry, best first. */
  lemma PrunedBullets(acc: seq<ExperienceHits>, store: map<string, Experience>, id: string, maxBullets: int)
    requires Prune(acc, store, id, maxBullets).Ok?
    ensures var p := Prune(acc, store, id, maxBullets).value;
      var top := TopBullets(BulletsOf(acc, id).GetOr([]), maxBullets);
      && |p.bullets| == |top|
      && Sorting.SortedBy(top, ByBulletScore)
      && (forall k :: 0 <= k < |top| ==> top[k] in BulletsOf(acc, id).GetOr([]) && PyIndex(store[id].bullets, top[k].index) == Some(p.bullets[k]))
  {
    TopBulletsFacts(BulletsOf(acc, id).GetOr([]), maxBullets);
  }

  // ------------------------------------------------ the top-k cut and ties

  /** The experience ids with at least one usable hit. */
  ghost function HitExperiences(hits: seq<Hit>): set<string>
  {
    set k | 0 <= k < |hits| && Usable(hits[k]) :: hits[k].experienceId.value
  }

  /** The bullet indices of experience `id` named by at least one hit. */
  ghost function HitBullets(hits: seq<Hit>, id: string): set<int>
  {
    set k | 0 <= k < |hits| && HitsExperience(hits[k], id) :: hits[k].bulletIndex.value
  }

  /** The first hit on experience `a` comes before any hit on experience `b`. */
  ghost predicate FirstHitBefore(hits: seq<Hit>, a: string, b: string)
  {
    exists k :: 0 <= k < |hits| && HitsExperience(hits[k], a) && forall m :: 0 <= m <= k ==> !HitsExperience(hits[m], b)
  }

  /** The first hit on bullet `m` of experience `id` comes before any hit on its bullet `n`. */
  ghost predicate FirstBulletHitBefore(hits: seq<Hit>, id: string, m: int, n: int)
  {
    exists k :: 0 <= k < |hits| && HitsBullet(hits[k], id, m) && forall j :: 0 <= j <= k ==> !HitsBullet(hits[j], id, n)
  }

  /** `len(xs[:k])` for a list of length `n`. */
  function SliceLength(n: nat, k: int): nat
  {
    if k >= 0 then (if k < n then k else n) else if -k < n then n + k else 0
  }

  /** No two pairs share an id. */
  ghost predicate DistinctIds(s: seq<(string, real)>)
  {
    forall i, j :: 0 <= i < j < |s| ==> s[i].0 != s[j].0
  }

  /**
   * How the bullets `top` of experience `id` were kept: each carries the
   * summed similarity of its hits, no hit bullet left out scores above a
   * kept one, and equal scores keep the order of their first hits.
   */
  ghost predicate KeptBest(hits: seq<Hit>, id: string, top: seq<BulletHit>)
  {
    && (forall k :: 0 <= k < |top| ==> AnyHitBullet(hits, id, top[k].index) && top[k].score == HitScore(hits, id, top[k].index))
    && (forall n :: AnyHitBullet(hits, id, n) && (forall l :: 0 <= l < |top| ==> top[l].index != n) ==>
          forall k :: 0 <= k < |top| ==> HitScore(hits, id, n) <= top[k].score)
    && (forall k, l :: 0 <= k < l < |top| && top[k].score == top[l].score ==> FirstBulletHitBefore(hits, id, top[k].index, top[l].index))
  }

  lemma {:induction false} WellFormedDistinct(acc: seq<ExperienceHits>)
    requires WellFormed(acc)
    ensures forall i, j :: 0 <= i < j < |acc| ==> acc[i].id != acc[j].id
    ensures |Ids(acc)| == |acc|
  {
    if acc != [] {
      WellFormedDistinct(acc[1..]);
      forall i, j | 0 <= i < j < |acc| ensures acc[i].id != acc[j].id {
        IdsContain(acc[1..], j - 1);
        if i > 0 {
          assert acc[i] == acc[1..][i - 1];
        }
      }
      assert Ids(acc) == {acc[0].id} + Ids(acc[1..]);
    }
  }

  lemma DistinctTail(s: seq<(string, real)>)
    requires s != [] && DistinctIds(s)
    ensures DistinctIds(s[1..])
  {
    forall i, j | 0 <= i < j < |s[1..]| ensures s[1..][i].0 != s[1..][j].0 {
      assert s[1..][i] == s[i + 1] && s[1..][j] == s[j + 1];
    }
  }

  lemma {:induction false} CountedOnce(xs: seq<(string, real)>, x: (string, real))
    requires DistinctIds(xs)
    ensures multiset(xs)[x] <= 1
  {
    if xs != [] {
      DistinctTail(xs);
      CountedOnce(xs[1..], x);
      assert xs == [xs[0]] + xs[1..];
      if xs[0] == x {
        forall m | 0 <= m < |xs[1..]| ensures xs[1..][m] != x {
          assert xs[1..][m] == xs[m + 1];
        }
        assert x !in xs[1..];
      }
    }
  }

  lemma CountedTwice<T>(s: seq<T>, i: int, j: int)
    requires 0 <= i < j < |s| && s[i] == s[j]
    ensures multiset(s)[s[i]] >= 2
  {
    assert s == s[..j] + s[j..];
    assert s[..j][i] == s[i];
    assert s[j..][0] == s[i];
  }

  /** Reordering pairs with distinct ids leaves their ids distinct. */
  lemma PermDistinct(xs: seq<(string, real)>, ys: seq<(string, real)>)
    requires multiset(xs) == multiset(ys) && DistinctIds(xs)
    ensures DistinctIds(ys)
  {
    forall i, j | 0 <= i < j < |ys| ensures ys[i].0 != ys[j].0 {
      if ys[i] == ys[j] {
        CountedTwice(ys, i, j);
        CountedOnce(xs, ys[i]);
        assert false;
      } else {
        assert ys[i] in multiset(xs) && ys[j] in multiset(xs);
        var a :| 0 <= a < |xs| && xs[a] == ys[i];
        var b :| 0 <= b < |xs| && xs[b] == ys[j];
        if a > b {
          assert xs[b].0 != xs[a].0;
        }
      }
    }
  }

  /** With distinct ids none outside `added`, the result loop keeps every pair. */
  lemma {:induction false} ChosenAll(sel: seq<(string, real)>, added: set<string>)
    requires DistinctIds(sel)
    requires forall i :: 0 <= i < |sel| ==> sel[i].0 !in added
    ensures Chosen(sel, added) == sel
  {
    if sel != [] {
      var rest := sel[1..];
      DistinctTail(sel);
      forall i | 0 <= i < |rest| ensures rest[i].0 !in added + {sel[0].0} {
        assert rest[i] == sel[i + 1];
      }
      ChosenAll(rest, added + {sel[0].0});
      assert sel == [sel[0]] + rest;
    }
  }

  /** The ranked pairs have distinct ids, so none is skipped, and `top_k` cuts as Python slicing does. */
  lemma RankedAllChosen(acc: seq<ExperienceHits>, topK: int)
    requires WellFormed(acc)
    ensures Chosen(Ranked(acc, topK), {}) == Ranked(acc, topK)
    ensures |Ranked(acc, topK)| == SliceLength(|acc|, topK)
  {
    var s := Sorting.Sort(Scores(acc), ByScore);
    var p := Ranked(acc, topK);
    WellFormedDistinct(acc);
    assert DistinctIds(Scores(acc));
    Sorting.SortPermutation(Scores(acc), ByScore);
    PermDistinct(Scores(acc), s);
    assert p == s[..|p|];
    assert DistinctIds(p);
    ChosenAll(p, {});
  }

  /** An entry cut off by `[:top_k]` scores at most what every kept entry scores. */
  lemma RankedCut(acc: seq<ExperienceHits>, topK: int, k: int, p: (string, real))
    requires 0 <= k < |acc| && p in Ranked(acc, topK)
    requires (acc[k].id, Total(acc[k].bullets)) !in Ranked(acc, topK)
    ensures Total(acc[k].bullets) <= p.1
  {
    ByScoreTotal();
    assert Scores(acc)[k] == (acc[k].id, Total(acc[k].bullets));
    Sorting.SortedCut(Scores(acc), ByScore, topK, p, Scores(acc)[k]);
  }

  /** Ranked entries with equal totals keep their accumulator order. */
  lemma RankedTies(acc: seq<ExperienceHits>, topK: int, i: int, j: int)
    requires 0 <= i < j < |Ranked(acc, topK)| && Ranked(acc, topK)[i].1 == Ranked(acc, topK)[j].1
    ensures exists a, b :: 0 <= a < b < |acc| && acc[a].id == Ranked(acc, topK)[i].0 && acc[b].id == Ranked(acc, topK)[j].0
  {
    var s := Sorting.Sort(Scores(acc), ByScore);
    var p := Ranked(acc, topK);
    ByScoreTotal();
    assert p == s[..|p|];
    assert p[i] == s[i] && p[j] == s[j];
    assert Sorting.Before(s, p[i], p[j]);
    Sorting.SortKeepsTieOrder(Scores(acc), ByScore, p[i], p[j]);
    var a, b :| 0 <= a < b < |Scores(acc)| && Scores(acc)[a] == p[i] && Scores(acc)[b] == p[j];
  }

  /** `AddTo` keeps the existing entries in place and appends a new id at the end. */
  lemma {:induction false} AddToOrder(acc: seq<ExperienceHits>, id: string, index: int, sim: real, text: string)
    ensures var r := AddTo(acc, id, index, sim, text);
      && |r| == (if id in Ids(acc) then |acc| else |acc| + 1)
      && (forall k :: 0 <= k < |acc| ==> r[k].id == acc[k].id)
      && (id !in Ids(acc) ==> r[|acc|].id == id)
  {
    if acc != [] && acc[0].id != id {
      var r := AddTo(acc, id, index, sim, text);
      var rest := AddTo(acc[1..], id, index, sim, text);
      AddToOrder(acc[1..], id, index, sim, text);
      assert r == [acc[0]] + rest;
      assert Ids(acc) == {acc[0].id} + Ids(acc[1..]);
      forall k | 0 <= k < |acc| ensures r[k].id == acc[k].id {
        if k > 0 {
          assert r[k] == rest[k - 1];
        }
      }
    }
  }

  /** `AddBullet` keeps the existing bullets in place and appends a new index at the end. */
  lemma {:induction false} AddBulletOrder(bs: seq<BulletHit>, index: int, sim: real, text: string)
    ensures var r := AddBullet(bs, index, sim, text);
      && |r| == (if index in Indices(bs) then |bs| else |bs| + 1)
      && (forall k :: 0 <= k < |bs| ==> r[k].index == bs[k].index)
      && (index !in Indices(bs) ==> r[|bs|].index == index)
  {
    if bs != [] && bs[0].index != index {
      var r := AddBullet(bs, index, sim, text);
      var rest := AddBullet(bs[1..], index, sim, text);
      AddBulletOrder(bs[1..], index, sim, text);
      assert r == [bs[0]] + rest;
      assert Indices(bs) == {bs[0].index} + Indices(bs[1..]);
      forall k | 0 <= k < |bs| ensures r[k].index == bs[k].index {
        if k > 0 {
          assert r[k] == rest[k - 1];
        }
      }
    }
  }

  lemma FirstHitExtend(hits: seq<Hit>, a: string, b: string)
    requires hits != [] && FirstHitBefore(hits[..|hits| - 1], a, b)
    ensures FirstHitBefore(hits, a, b)
  {
    var init := hits[..|hits| - 1];
    var k :| 0 <= k < |init| && HitsExperience(init[k], a) && forall m :: 0 <= m <= k ==> !HitsExperience(init[m], b);
    assert hits[k] == init[k];
    forall m | 0 <= m <= k ensures !HitsExperience(hits[m], b) {
      assert hits[m] == init[m];
    }
  }

  lemma FirstBulletHitExtend(hits: seq<Hit>, id: string, m: int, n: int)
    requires hits != [] && FirstBulletHitBefore(hits[..|hits| - 1], id, m, n)
    ensures FirstBulletHitBefore(hits, id, m, n)
  {
    var init := hits[..|hits| - 1];
    var k :| 0 <= k < |init| && HitsBullet(init[k], id, m) && forall j :: 0 <= j <= k ==> !HitsBullet(init[j], id, n);
    assert hits[k] == init[k];
    forall j | 0 <= j <= k ensures !HitsBullet(hits[j], id, n) {
      assert hits[j] == init[j];
    }
  }

  /** The accumulator lists experiences in the order of their first hits (dict insertion order). */
  lemma {:induction false} AccumulateOrder(hits: seq<Hit>, a: int, b: int)
    requires 0 <= a < b < |Accumulate(hits)|
    ensures FirstHitBefore(hits, Accumulate(hits)[a].id, Accumulate(hits)[b].id)
  {
    var init := hits[..|hits| - 1];
    AccumulateSnoc(hits);
    if b < |Accumulate(init)| {
      AccumulateOrder(init, a, b);
      FirstHitExtend(hits, Accumulate(init)[a].id, Accumulate(init)[b].id);
    } else {
      NewIdLast(hits, a);
    }
  }

  /** One more hit keeps the entries in place and may append one for a new experience. */
  lemma AccumulateSnoc(hits: seq<Hit>)
    requires hits != []
    ensures var before := Accumulate(hits[..|hits| - 1]);
      var after := Accumulate(hits);
      var h := hits[|hits| - 1];
      && |before| <= |after| <= |before| + 1
      && (forall k :: 0 <= k < |before| ==> after[k].id == before[k].id)
      && (|after| > |before| ==> Usable(h) && h.experienceId.value !in Ids(before) && after[|before|].id == h.experienceId.value)
  {
    var h := hits[|hits| - 1];
    if Usable(h) {
      AddToOrder(Accumulate(hits[..|hits| - 1]), h.experienceId.value, h.bulletIndex.value, h.similarity, h.text);
    }
  }

  /** An experience first hit by the last hit comes after every experience hit before it. */
  lemma NewIdLast(hits: seq<Hit>, a: int)
    requires hits != [] && 0 <= a < |Accumulate(hits[..|hits| - 1])| < |Accumulate(hits)|
    ensures FirstHitBefore(hits, Accumulate(hits)[a].id, Accumulate(hits)[|Accumulate(hits[..|hits| - 1])|].id)
  {
    var init := hits[..|hits| - 1];
    var before := Accumulate(init);
    var h := hits[|hits| - 1];
    AccumulateSnoc(hits);
    var x := before[a].id;
    var y := h.experienceId.value;
    IdsContain(before, a);
    AccumulateIds(init, x);
    AccumulateIds(init, y);
    var k :| 0 <= k < |init| && HitsExperience(init[k], x);
    assert hits[k] == init[k];
    forall m | 0 <= m <= k ensures !HitsExperience(hits[m], y) {
      assert hits[m] == init[m];
    }
  }

  /** Each experience lists its bullets in the order of their first hits. */
  lemma {:induction false} AccumulateBulletOrder(hits: seq<Hit>, id: string, a: int, b: int)
    requires 0 <= a < b < |BulletsOf(Accumulate(hits), id).GetOr([])|
    ensures var bs := BulletsOf(Accumulate(hits), id).GetOr([]);
      FirstBulletHitBefore(hits, id, bs[a].index, bs[b].index)
  {
    var init := hits[..|hits| - 1];
    var before := BulletsOf(Accumulate(init), id).GetOr([]);
    AccumulateBulletSnoc(hits, id);
    if b < |before| {
      AccumulateBulletOrder(init, id, a, b);
      FirstBulletHitExtend(hits, id, before[a].index, before[b].index);
    } else {
      NewBulletLast(hits, id, a);
    }
  }

  /** One more hit keeps an experience's bullets in place and may append one for a new index. */
  lemma AccumulateBulletSnoc(hits: seq<Hit>, id: string)
    requires hits != []
    ensures var before := BulletsOf(Accumulate(hits[..|hits| - 1]), id).GetOr([]);
      var after := BulletsOf(Accumulate(hits), id).GetOr([]);
      var h := hits[|hits| - 1];
      && |before| <= |after| <= |before| + 1
      && (forall k :: 0 <= k < |before| ==> after[k].index == before[k].index)
      && (|after| > |before| ==> HitsExperience(h, id) && h.bulletIndex.value !in Indices(before) && after[|before|].index == h.bulletIndex.value)
  {
    var h := hits[|hits| - 1];
    var before := BulletsOf(Accumulate(hits[..|hits| - 1]), id).GetOr([]);
    if Usable(h) {
      AddToBullets(Accumulate(hits[..|hits| - 1]), h.experienceId.value, h.bulletIndex.value, h.similarity, h.text, id);
      if h.experienceId.value == id {
        AddBulletOrder(before, h.bulletIndex.value, h.similarity, h.text);
      }
    }
  }

  /** A bullet first hit by the last hit comes after every bullet of the same experience hit before it. */
  lemma NewBulletLast(hits: seq<Hit>, id: string, a: int)
    requires hits != []
    requires 0 <= a < |BulletsOf(Accumulate(hits[..|hits| - 1]), id).GetOr([])| < |BulletsOf(Accumulate(hits), id).GetOr([])|
    ensures var before := BulletsOf(Accumulate(hits[..|hits| - 1]), id).GetOr([]);
      var after := BulletsOf(Accumulate(hits), id).GetOr([]);
      FirstBulletHitBefore(hits, id, after[a].index, after[|before|].index)
  {
    var init := hits[..|hits| - 1];
    var before := BulletsOf(Accumulate(init), id).GetOr([]);
    var h := hits[|hits| - 1];
    AccumulateBulletSnoc(hits, id);
    var m := before[a].index;
    var n := h.bulletIndex.value;
    IndicesContain(before, a);
    BulletIndices(init, id, m);
    BulletIndices(init, id, n);
    var k :| 0 <= k < |init| && HitsBullet(init[k], id, m);
    assert hits[k] == init[k];
    forall j | 0 <= j <= k ensures !HitsBullet(hits[j], id, n) {
      assert hits[j] == init[j];
    }
  }

  lemma {:induction false} IndicesContain(bs: seq<BulletHit>, k: int)
    requires 0 <= k < |bs|
    ensures bs[k].index in Indices(bs)
  {
    if k > 0 { IndicesContain(bs[1..], k - 1); }
  }

  /** Distinct indices: one score per index, and as many indices as entries. */
  lemma {:induction false} ScoreInAt(bs: seq<BulletHit>, n: int)
    ensures ScoreIn(bs, n).Some? <==> n in Indices(bs)
    ensures DistinctIndices(bs) ==> |Indices(bs)| == |bs|
    ensures DistinctIndices(bs) ==> forall k :: 0 <= k < |bs| && bs[k].index == n ==> ScoreIn(bs, n) == Some(bs[k].score)
  {
    if bs != [] {
      ScoreInAt(bs[1..], n);
      assert Indices(bs) == {bs[0].index} + Indices(bs[1..]);
      if DistinctIndices(bs) {
        forall k | 0 <= k < |bs| && bs[k].index == n ensures ScoreIn(bs, n) == Some(bs[k].score) {
          if k > 0 {
            assert bs[1..][k - 1] == bs[k];
            IndicesContain(bs[1..], k - 1);
          }
        }
      }
    }
  }

  /** The indices an experience keeps are exactly the bullets its hits name. */
  lemma BulletIndices(hits: seq<Hit>, id: string, n: int)
    ensures n in Indices(BulletsOf(Accumulate(hits), id).GetOr([])) <==> AnyHitBullet(hits, id, n)
    ensures n in Indices(BulletsOf(Accumulate(hits), id).GetOr([])) <==> n in HitBullets(hits, id)
  {
    AccumulateBulletScore(hits, id, n);
    ScoreInAt(BulletsOf(Accumulate(hits), id).GetOr([]), n);
    if AnyHitBullet(hits, id, n) {
      var k :| 0 <= k < |hits| && HitsBullet(hits[k], id, n);
      assert HitsExperience(hits[k], id);
    }
  }

  /**
   * `find_relevant`'s `[:top_k]` over the hit experiences: no id is
   * skipped, the cut keeps as many as Python's slice does, every hit
   * experience left out scores at most what every kept one scores, and
   * equal scores keep the order of their first hits (the sort is stable).
   */
  lemma RankedChoice(hits: seq<Hit>, topK: int)
    ensures var ch := Ranked(Accumulate(hits), topK);
      && Chosen(ch, {}) == ch
      && |ch| == SliceLength(|HitExperiences(hits)|, topK)
      && (forall id :: AnyHitExperience(hits, id) && (forall i :: 0 <= i < |ch| ==> ch[i].0 != id) ==>
            forall i :: 0 <= i < |ch| ==> ExperienceScore(hits, id) <= ch[i].1)
      && (forall i, j :: 0 <= i < j < |ch| && ch[i].1 == ch[j].1 ==> FirstHitBefore(hits, ch[i].0, ch[j].0))
  {
    var acc := Accumulate(hits);
    var ch := Ranked(acc, topK);
    AccumulateIds(hits, "");
    RankedAllChosen(acc, topK);
    ExperienceCount(hits);
    forall id | AnyHitExperience(hits, id) && (forall i :: 0 <= i < |ch| ==> ch[i].0 != id)
      ensures forall i :: 0 <= i < |ch| ==> ExperienceScore(hits, id) <= ch[i].1
    {
      LeftOutScore(hits, topK, id);
    }
    forall i, j | 0 <= i < j < |ch| && ch[i].1 == ch[j].1 ensures FirstHitBefore(hits, ch[i].0, ch[j].0) {
      RankedTies(acc, topK, i, j);
      var a, b :| 0 <= a < b < |acc| && acc[a].id == ch[i].0 && acc[b].id == ch[j].0;
      AccumulateOrder(hits, a, b);
    }
  }

  /** One entry per hit experience. */
  lemma ExperienceCount(hits: seq<Hit>)
    ensures |Accumulate(hits)| == |HitExperiences(hits)|
  {
    var acc := Accumulate(hits);
    AccumulateIds(hits, "");
    WellFormedDistinct(acc);
    forall id ensures id in Ids(acc) <==> id in HitExperiences(hits) {
      AccumulateIds(hits, id);
      if AnyHitExperience(hits, id) {
        var k :| 0 <= k < |hits| && HitsExperience(hits[k], id);
        assert Usable(hits[k]);
      }
    }
    assert Ids(acc) == HitExperiences(hits);
  }

  lemma LeftOutScore(hits: seq<Hit>, topK: int, id: string)
    requires AnyHitExperience(hits, id)
    requires forall i :: 0 <= i < |Ranked(Accumulate(hits), topK)| ==> Ranked(Accumulate(hits), topK)[i].0 != id
    ensures forall i :: 0 <= i < |Ranked(Accumulate(hits), topK)| ==> ExperienceScore(hits, id) <= Ranked(Accumulate(hits), topK)[i].1
  {
    var acc := Accumulate(hits);
    var ch := Ranked(acc, topK);
    AccumulateIds(hits, id);
    IdsHas(acc, id);
    var k :| 0 <= k < |acc| && acc[k].id == id;
    BulletsOfIn(acc, id);
    AccumulateTotal(hits, id);
    assert (acc[k].id, Total(acc[k].bullets)) !in ch;
    forall i | 0 <= i < |ch| ensures ExperienceScore(hits, id) <= ch[i].1 {
      RankedCut(acc, topK, k, ch[i]);
    }
  }

  lemma {:induction false} IdsHas(acc: seq<ExperienceHits>, id: string)
    requires id in Ids(acc)
    ensures exists k :: 0 <= k < |acc| && acc[k].id == id
  {
    if acc[0].id != id {
      IdsHas(acc[1..], id);
      var k :| 0 <= k < |acc[1..]| && acc[1..][k].id == id;
      assert acc[k + 1] == acc[1..][k];
    }
  }

  /** A bullet cut off by `[:max_bullets]` scores at most what every kept bullet scores. */
  lemma TopBulletsCut(bs: seq<BulletHit>, maxBullets: int, x: BulletHit, t: BulletHit)
    requires x in bs && x !in TopBullets(bs, maxBullets) && t in TopBullets(bs, maxBullets)
    ensures x.score <= t.score
  {
    ByBulletScoreTotal();
    Sorting.SortedCut(bs, ByBulletScore, maxBullets, t, x);
  }

  /** Kept bullets with equal scores keep their order in the experience's entry. */
  lemma TopBulletsTies(bs: seq<BulletHit>, maxBullets: int, k: int, l: int)
    requires 0 <= k < l < |TopBullets(bs, maxBullets)|
    requires TopBullets(bs, maxBullets)[k].score == TopBullets(bs, maxBullets)[l].score
    ensures exists a, b :: 0 <= a < b < |bs| && bs[a] == TopBullets(bs, maxBullets)[k] && bs[b] == TopBullets(bs, maxBullets)[l]
  {
    var s := Sorting.Sort(bs, ByBulletScore);
    var t := TopBullets(bs, maxBullets);
    ByBulletScoreTotal();
    assert t == s[..|t|];
    assert t[k] == s[k] && t[l] == s[l];
    assert Sorting.Before(s, t[k], t[l]);
    Sorting.SortKeepsTieOrder(bs, ByBulletScore, t[k], t[l]);
  }

  /**
   * `find_relevant`'s `[:max_bullets]` for one experience: the cut keeps as
   * many as Python's slice does of the bullets its hits name, and the kept
   * ones are the best, ties in first-hit order.
   */
  lemma BulletChoice(hits: seq<Hit>, id: string, maxBullets: int)
    ensures var top := TopBullets(BulletsOf(Accumulate(hits), id).GetOr([]), maxBullets);
      && |top| == SliceLength(|HitBullets(hits, id)|, maxBullets)
      && KeptBest(hits, id, top)
  {
    var acc := Accumulate(hits);
    var bs := BulletsOf(acc, id).GetOr([]);
    var top := TopBullets(bs, maxBullets);
    AccumulateIds(hits, id);
    BulletsOfIn(acc, id);
    BulletCount(hits, id);
    TopBulletsFacts(bs, maxBullets);
    forall k | 0 <= k < |top| ensures AnyHitBullet(hits, id, top[k].index) && top[k].score == HitScore(hits, id, top[k].index) {
      KeptScore(hits, id, bs, top[k]);
    }
    forall n | AnyHitBullet(hits, id, n) && (forall l :: 0 <= l < |top| ==> top[l].index != n)
      ensures forall k :: 0 <= k < |top| ==> HitScore(hits, id, n) <= top[k].score
    {
      BulletIndices(hits, id, n);
      IndexHas(bs, n);
      var m :| 0 <= m < |bs| && bs[m].index == n;
      KeptScore(hits, id, bs, bs[m]);
      forall k | 0 <= k < |top| ensures HitScore(hits, id, n) <= top[k].score {
        TopBulletsCut(bs, maxBullets, bs[m], top[k]);
      }
    }
    forall k, l | 0 <= k < l < |top| && top[k].score == top[l].score
      ensures FirstBulletHitBefore(hits, id, top[k].index, top[l].index)
    {
      TopBulletsTies(bs, maxBullets, k, l);
      var a, b :| 0 <= a < b < |bs| && bs[a] == top[k] && bs[b] == top[l];
      AccumulateBulletOrder(hits, id, a, b);
    }
  }

  /** A bullet entry of an experience carries the summed similarity of its hits. */
  lemma KeptScore(hits: seq<Hit>, id: string, bs: seq<BulletHit>, x: BulletHit)
    requires bs == BulletsOf(Accumulate(hits), id).GetOr([]) && x in bs
    ensures AnyHitBullet(hits, id, x.index) && x.score == HitScore(hits, id, x.index)
  {
    var acc := Accumulate(hits);
    AccumulateIds(hits, id);
    BulletsOfIn(acc, id);
    var k :| 0 <= k < |bs| && bs[k] == x;
    ScoreInAt(bs, x.index);
    IndicesContain(bs, k);
    AccumulateBulletScore(hits, id, x.index);
  }

  lemma {:induction false} IndexHas(bs: seq<BulletHit>, n: int)
    requires n in Indices(bs)
    ensures exists k :: 0 <= k < |bs| && bs[k].index == n
  {
    if bs[0].index != n {
      IndexHas(bs[1..], n);
      var k :| 0 <= k < |bs[1..]| && bs[1..][k].index == n;
      assert bs[k + 1] == bs[1..][k];
    }
  }

  /** One entry per bullet its hits name. */
  lemma BulletCount(hits: seq<Hit>, id: string)
    ensures |BulletsOf(Accumulate(hits), id).GetOr([])| == |HitBullets(hits, id)|
  {
    var bs := BulletsOf(Accumulate(hits), id).GetOr([]);
    AccumulateIds(hits, id);
    BulletsOfIn(Accumulate(hits), id);
    ScoreInAt(bs, 0);
    forall n ensures n in Indices(bs) <==> n in HitBullets(hits, id) {
      BulletIndices(hits, id, n);
    }
    assert Indices(bs) == HitBullets(hits, id);
  }

  // --------------------------------------------------------- stored metadata

  /** `_create_bullet_embedding_text`: the document stored for one bullet. */
  function EmbeddingText(title: string, bullet: string): string
  {
    "Role: " + title + "\nAchievement: " + bullet + "\n"
  }
}
