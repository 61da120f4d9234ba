/**
 * The live experience service: `find_relevant` (the ranking loop over
 * vector-search hits) and the bullet documents `create`/`update` store
 * for it. The vector search and the experience table are parameters:
 * `search(collection, query, k)` returns the hits, `store` maps an id to
 * the record `get` would load (bullets in insertion order).
 */
module ExperiencesService {
  import opened Wrappers
  import Sorting
  import opened Ranking

  /** Python's `[]` on a computation that may raise: keep the prefix or pass the error on. */
  function Prepend<T, E>(xs: seq<T>, r: Result<seq<T>, E>): Result<seq<T>, E>
  {
    if r.Ok? then Ok(xs + r.value) else r
  }

  /**
   * `find_relevant`: one search per requirement, hits summed per bullet,
   * experiences ranked by their summed score, each pruned to its best
   * bullets.
   */
  lemma PrependNothing<T, E>(r: Result<seq<T>, E>)
    ensures Prepend([], r) == r
  {
    if r.Ok? { assert [] + r.value == r.value; }
  }

  lemma PrependTwice<T, E>(xs: seq<T>, ys: seq<T>, r: Result<seq<T>, E>)
    ensures Prepend(xs, Prepend(ys, r)) == Prepend(xs + ys, r)
  {
    if r.Ok? { assert xs + (ys + r.value) == (xs + ys) + r.value; }
  }

  method FindRelevant(
    listing: Listing,
    search: (string, string, nat) -> seq<Hit>,
    store: map<string, Experience>,
    topK: int,
    maxBullets: int)
    returns (r: Result<seq<Experience>, RankError>)
    ensures r == Relevant(listing, search, store, topK, maxBullets)
    ensures listing.requirements == [] ==> r == Ok([])
    ensures r.Ok? && topK >= 0 ==> |r.value| <= topK
    ensures r.Ok? && listing.requirements != [] ==>
      |r.value| == SliceLength(|HitExperiences(Gather(search, Queries(listing.title, listing.requirements)))|, topK)
    ensures r.Ok? && maxBullets >= 0 ==> forall i :: 0 <= i < |r.value| ==> |r.value[i].bullets| <= maxBullets
  {
    RelevantSizes(listing, search, store, topK, maxBullets);
    if listing.requirements == [] {
      return Ok([]);
    }
    var queries := BuildQueries(listing.title, listing.requirements);
    var allHits := SearchAll(search, queries);
    var acc := AccumulateHits(allHits);
    if acc == [] {
      return Ok([]);
    }
    var scores := ScoreAll(acc);
    var ranked := Sorting.PyPrefix(Sorting.Sort(scores, ByScore), topK);
    r := SelectAll(acc, store, ranked, maxBullets);
  }

  /** The query list: `Role: {title}\nAchievement: {requirement}` for each requirement, in order. */
  method BuildQueries(title: string, requirements: seq<string>) returns (queries: seq<string>)
    ensures |queries| == |requirements|
    ensures forall k :: 0 <= k < |requirements| ==> queries[k] == Query(title, requirements[k])
    ensures queries == Queries(title, requirements)
  {
    queries := [];
    var i := 0;
    while i < |requirements|
      invariant 0 <= i <= |requirements|
      invariant queries == Queries(title, requirements[..i])
    {
      assert requirements[..i + 1][..i] == requirements[..i];
      queries := queries + [Query(title, requirements[i])];
      i := i + 1;
    }
    assert requirements[..i] == requirements;
  }

  /** One `k=5` search of `experience_bullets` per query, results concatenated in query order. */
  method SearchAll(search: (string, string, nat) -> seq<Hit>, queries: seq<string>) returns (allHits: seq<Hit>)
    ensures allHits == Gather(search, queries)
  {
    allHits := [];
    var i := 0;
    while i < |queries|
      invariant 0 <= i <= |queries|
      invariant allHits == Gather(search, queries[..i])
    {
      assert queries[..i + 1][..i] == queries[..i];
      allHits := allHits + search(Collection, queries[i], FanOut);
      i := i + 1;
    }
    assert queries[..i] == queries;
  }

  /** The accumulator loop: hits lacking an id or index are skipped, the others summed per bullet. */
  method AccumulateHits(allHits: seq<Hit>) returns (acc: seq<ExperienceHits>)
    ensures acc == Accumulate(allHits)
    ensures WellFormed(acc)
  {
    acc := [];
    var i := 0;
    while i < |allHits|
      invariant 0 <= i <= |allHits|
      invariant acc == Accumulate(allHits[..i])
    {
      assert allHits[..i + 1][..i] == allHits[..i];
      var h := allHits[i];
      i := i + 1;
      if h.experienceId.None? || h.bulletIndex.None? {
        continue;
      }
      acc := AddTo(acc, h.experienceId.value, h.bulletIndex.value, h.similarity, h.text);
    }
    assert allHits[..i] == allHits;
    AccumulateIds(allHits, "");
  }

  /** `experience_scores`: each experience paired with the sum of its bullet scores. */
  method ScoreAll(acc: seq<ExperienceHits>) returns (scores: seq<(string, real)>)
    ensures scores == Scores(acc)
  {
    scores := [];
    var i := 0;
    while i < |acc|
      invariant 0 <= i <= |acc|
      invariant scores == Scores(acc[..i])
    {
      scores := scores + [(acc[i].id, Total(acc[i].bullets))];
      i := i + 1;
    }
    assert acc[..i] == acc;
  }

  /** The result loop: skip ids already added, load, prune, append; the first failure propagates. */
  method SelectAll(acc: seq<ExperienceHits>, store: map<string, Experience>, ranked: seq<(string, real)>, maxBullets: int)
    returns (r: Result<seq<Experience>, RankError>)
    ensures r == Select(acc, store, ranked, {}, maxBullets)
  {
    var result: seq<Experience> := [];
    var added: set<string> := {};
    var i := 0;
    assert ranked[i..] == ranked;
    PrependNothing(Select(acc, store, ranked, {}, maxBullets));
    while i < |ranked|
      invariant 0 <= i <= |ranked|
      invariant Select(acc, store, ranked, {}, maxBullets) == Prepend(result, Select(acc, store, ranked[i..], added, maxBullets))
    {
      var id := ranked[i].0;
      assert ranked[i..][1..] == ranked[i + 1..];
      if id in added {
        i := i + 1;
        continue;
      }
      ghost var before := added;
      added := added + {id};
      if id !in store {
        assert Select(acc, store, ranked[i..], before, maxBullets) == Err(NotFound(id));
        return Err(NotFound(id));
      }
      var experience := store[id];
      var pruned := PruneBullets(experience.bullets, id, TopBullets(BulletsOf(acc, id).GetOr([]), maxBullets));
      if pruned.Err? {
        assert Prune(acc, store, id, maxBullets) == Err(pruned.error);
        assert Select(acc, store, ranked[i..], before, maxBullets) == Err(pruned.error);
        return Err(pruned.error);
      }
      var p := experience.(bullets := pruned.value);
      assert Prune(acc, store, id, maxBullets) == Ok(p);
      assert Select(acc, store, ranked[i..], before, maxBullets) == Prepend([p], Select(acc, store, ranked[i + 1..], added, maxBullets));
      PrependTwice(result, [p], Select(acc, store, ranked[i + 1..], added, maxBullets));
      result := result + [p];
      i := i + 1;
    }
    assert ranked[i..] == [];
    assert result + [] == result;
    return Ok(result);
  }

  /** One step of `BulletTexts`: a bad first index raises, a good one is prepended to the rest. */
  lemma BulletTextsStep(stored: seq<string>, id: string, chosen: seq<BulletHit>)
    requires chosen != []
    ensures PyIndex(stored, chosen[0].index).None? ==> BulletTexts(stored, id, chosen) == Err(BulletIndexError(id, chosen[0].index))
    ensures PyIndex(stored, chosen[0].index).Some? ==>
      BulletTexts(stored, id, chosen) == Prepend([PyIndex(stored, chosen[0].index).value], BulletTexts(stored, id, chosen[1..]))
  {
  }

  /** `[experience.bullets[bullet_index] for bullet_index, _ in sorted_bullets]`, raising on a bad index. */
  method PruneBullets(stored: seq<string>, id: string, top: seq<BulletHit>) returns (r: Result<seq<string>, RankError>)
    ensures r == BulletTexts(stored, id, top)
  {
    var pruned: seq<string> := [];
    var j := 0;
    assert top[j..] == top;
    PrependNothing(BulletTexts(stored, id, top));
    while j < |top|
      invariant 0 <= j <= |top|
      invariant BulletTexts(stored, id, top) == Prepend(pruned, BulletTexts(stored, id, top[j..]))
    {
      assert top[j..][1..] == top[j + 1..];
      var index := top[j].index;
      BulletTextsStep(stored, id, top[j..]);
      if index < -|stored| || index >= |stored| {
        return Err(BulletIndexError(id, index));
      }
      var text := if index >= 0 then stored[index] else stored[|stored| + index];
      assert PyIndex(stored, index) == Some(text);
      PrependTwice(pruned, [text], BulletTexts(stored, id, top[j + 1..]));
      pruned := pruned + [text];
      j := j + 1;
    }
    assert pruned + [] == pruned;
    return Ok(pruned);
  }

  /**
   * The rows and vector documents `create`/`update` write for an
   * experience: bullet `i` is stored as a document tagged with the
   * experience id and `bullet_index = i`.
   */
  method IndexBullets(experience: Experience)
    returns (rows: seq<(string, string)>, documents: seq<string>, metadatas: seq<(string, int)>)
    ensures |rows| == |documents| == |metadatas| == |experience.bullets|
    ensures forall i :: 0 <= i < |experience.bullets| ==>
      && rows[i] == (experience.id, experience.bullets[i])
      && documents[i] == EmbeddingText(experience.title, experience.bullets[i])
      && metadatas[i] == (experience.id, i)
  {
    rows, documents, metadatas := [], [], [];
    var i := 0;
    while i < |experience.bullets|
      invariant 0 <= i <= |experience.bullets|
      invariant |rows| == |documents| == |metadatas| == i
      invariant forall k :: 0 <= k < i ==>
        && rows[k] == (experience.id, experience.bullets[k])
        && documents[k] == EmbeddingText(experience.title, experience.bullets[k])
        && metadatas[k] == (experience.id, k)
    {
      rows := rows + [(experience.id, experience.bullets[i])];
      documents := documents + [EmbeddingText(experience.title, experience.bullets[i])];
      metadatas := metadatas + [(experience.id, i)];
      i := i + 1;
    }
  }

  /** The hit a search returns for a stored document, given its similarity. */
  function HitFor(documents: seq<string>, metadatas: seq<(string, int)>, i: nat, similarity: real): Hit
    requires i < |documents| == |metadatas|
  {
    Hit(documents[i], Some(metadatas[i].0), Some(metadatas[i].1), similarity)
  }

  lemma {:induction false} ScoreInPresent(bs: seq<BulletHit>, k: nat)
    requires k < |bs|
    ensures ScoreIn(bs, bs[k].index).Some?
  {
    if k > 0 && bs[0].index != bs[k].index { ScoreInPresent(bs[1..], k - 1); }
  }

  /**
   * Indices written by `create`/`update` resolve: when every hit naming an
   * experience carries an index inside its stored bullet list, pruning it
   * never fails.
   */
  lemma PruneResolves(hits: seq<Hit>, store: map<string, Experience>, id: string, maxBullets: int)
    requires id in store
    requires forall k :: 0 <= k < |hits| && HitsExperience(hits[k], id) ==> 0 <= hits[k].bulletIndex.value < |store[id].bullets|
    ensures Prune(Accumulate(hits), store, id, maxBullets).Ok?
  {
    var bs := BulletsOf(Accumulate(hits), id).GetOr([]);
    TopBulletsFacts(bs, maxBullets);
    forall b | b in TopBullets(bs, maxBullets) ensures PyIndex(store[id].bullets, b.index).Some? {
      HitBulletInRange(hits, store, id, b);
    }
  }

  lemma HitBulletInRange(hits: seq<Hit>, store: map<string, Experience>, id: string, b: BulletHit)
    requires id in store
    requires forall k :: 0 <= k < |hits| && HitsExperience(hits[k], id) ==> 0 <= hits[k].bulletIndex.value < |store[id].bullets|
    requires b in BulletsOf(Accumulate(hits), id).GetOr([])
    ensures 0 <= b.index < |store[id].bullets|
  {
    var bs := BulletsOf(Accumulate(hits), id).GetOr([]);
    var m :| 0 <= m < |bs| && bs[m] == b;
    ScoreInPresent(bs, m);
    AccumulateBulletScore(hits, id, b.index);
    var k :| 0 <= k < |hits| && HitsBullet(hits[k], id, b.index);
  }

  /** Every document `IndexBullets` writes resolves, through its metadata, to the bullet it embeds. */
  lemma IndexedBulletsResolve(experience: Experience, documents: seq<string>, metadatas: seq<(string, int)>)
    requires |documents| == |metadatas| == |experience.bullets|
    requires forall i :: 0 <= i < |experience.bullets| ==>
      documents[i] == EmbeddingText(experience.title, experience.bullets[i]) && metadatas[i] == (experience.id, i)
    ensures forall i, sim :: 0 <= i < |documents| ==>
      && HitsExperience(HitFor(documents, metadatas, i, sim), experience.id)
      && PyIndex(experience.bullets, HitFor(documents, metadatas, i, sim).bulletIndex.value) == Some(experience.bullets[i])
      && HitFor(documents, metadatas, i, sim).text == EmbeddingText(experience.title, experience.bullets[i])
  {
  }
}
