/**
 * The older experience service. Its `search_relevant_experiences` and its
 * bullet indexing in `save_experience`/`update_experience` follow the same
 * steps as the live service, so they are modelled by the same loops;
 * `load_experience` plays the part of `get` (the `store` parameter).
 */
module ExperienceService {
  import opened Wrappers
  import opened Ranking
  import ExperiencesService

  method SearchRelevantExperiences(
    listing: Listing,
    search: (string, string, nat) -> seq<Hit>,
    store: map<string, Experience>,
    topK: int,
    maxBullets: int)
    returns (r: Result<seq<Experience>, RankError>)
    ensures r == Relevant(listing, search, store, topK, maxBullets)
    ensures listing.requirements == [] ==> r == Ok([])
    ensures r.Ok? && topK >= 0 ==> |r.value| <= topK
    ensures r.Ok? && listing.requirements != [] ==>
      |r.value| == SliceLength(|HitExperiences(Gather(search, Queries(listing.title, listing.requirements)))|, topK)
  {
    r := ExperiencesService.FindRelevant(listing, search, store, topK, maxBullets);
  }

  /** The documents `save_experience` and `update_experience` hand to the vector store. */
  method SaveExperienceDocuments(experience: Experience)
    returns (documents: seq<string>, metadatas: seq<(string, int)>)
    ensures |documents| == |metadatas| == |experience.bullets|
    ensures forall i :: 0 <= i < |experience.bullets| ==>
      && documents[i] == EmbeddingText(experience.title, experience.bullets[i])
      && metadatas[i] == (experience.id, i)
      && PyIndex(experience.bullets, metadatas[i].1) == Some(experience.bullets[i])
  {
    var rows;
    rows, documents, metadatas := ExperiencesService.IndexBullets(experience);
  }
}
