/** The writer protocol over requests whose fingerprints the indexer built. */
module EndToEnd {
  import opened Index
  import opened Tables
  import opened Staging
  import opened CacheSoundness
  import opened WriterProtocol
  import opened Fingerprints
  import opened WriterRuns

  /** What the indexer and its digest guarantee together: no collisions, ids of non-empty USRs are not zero, and a USR
      determines its owner. */
  ghost predicate Indexed(requests: seq<Request>, digest: seq<byte> -> Fingerprint) {
    && CollisionFree(digest)
    && (forall r | r in requests :: FingerprintedBy(r, digest) && SaneItems(r.index.Items()))
    && (forall r, q | r in requests && q in requests :: OwnersAgree(r.index.Items(), q.index.Items()))
  }

  /** From an empty database, any number of writers in any interleaving leave what the committed ones leave one after
      the other without any cache, and every fingerprint in the database stands for content that is there. */
  lemma IndexedWritersAreSerialisable(requests: seq<Request>, digest: seq<byte> -> Fingerprint, steps: seq<Step>)
    requires Indexed(requests, digest)
    ensures var s := Run(requests, Start(requests, EMPTY), steps);
            && SameKeys(s.db, Replay(requests, EMPTY, s.log))
            && ((forall r | r in requests :: DistinctPaths(r)) ==> s.db == Replay(requests, EMPTY, s.log))
            && CacheSound(s.db, requests)
  {
    FingerprintsIdentifyContent(requests, digest);
    assert CacheSound(EMPTY, requests);
    SerialisableRefinement(requests, EMPTY, steps);
    CacheSoundAlways(requests, EMPTY, steps);
  }
}
