/**
 Putting the downloaded file together, and what a completed download therefore writes.
 */
module Assembly {
  import opened Wrappers
  import opened Identity
  import opened Routing
  import opened ChunkFetch
  import opened ChunkFetchSafety
  import opened ChunkFetchLoop

  ghost predicate HasAll(chunks: seq<ChunkDescriptor>, store: map<Cid, Bytes>) {
    forall i :: 0 <= i < |chunks| ==> chunks[i].cid in store
  }

  /** The stored bytes of the chunks, in manifest order. */
  function FileOf(chunks: seq<ChunkDescriptor>, store: map<Cid, Bytes>): Bytes
    requires HasAll(chunks, store)
  {
    if chunks == [] then []
    else
      var n := |chunks| - 1;
      assert HasAll(chunks[..n], store);
      FileOf(chunks[..n], store) + store[chunks[n].cid]
  }

  datatype Assembled = Written(file: Bytes, totalBytes: nat) | MissingChunk(cid: Cid)

  /** Read every chunk in manifest order; the first one the store lacks is an error. */
  method Assemble(chunks: seq<ChunkDescriptor>, store: map<Cid, Bytes>) returns (r: Assembled)
    ensures r.Written? <==> HasAll(chunks, store)
    ensures r.Written? ==> r.file == FileOf(chunks, store) && r.totalBytes == |FileOf(chunks, store)|
    ensures r.MissingChunk? ==> exists i :: 0 <= i < |chunks| && chunks[i].cid == r.cid && r.cid !in store
                                            && forall j :: 0 <= j < i ==> chunks[j].cid in store
  {
    var file, totalBytes, i := [], 0, 0;
    while i < |chunks|
      invariant 0 <= i <= |chunks|
      invariant HasAll(chunks[..i], store)
      invariant file == FileOf(chunks[..i], store) && totalBytes == |file|
    {
      if chunks[i].cid !in store {
        assert forall j :: 0 <= j < i ==> chunks[..i][j] == chunks[j];
        return MissingChunk(chunks[i].cid);
      }
      var data := store[chunks[i].cid];
      file := file + data;
      totalBytes := totalBytes + |data|;
      assert chunks[..i + 1][..i] == chunks[..i];
      i := i + 1;
    }
    assert chunks[..i] == chunks;
    r := Written(file, totalBytes);
  }

  function Concatenation(pieces: seq<Bytes>): Bytes {
    if pieces == [] then [] else Concatenation(pieces[..|pieces| - 1]) + pieces[|pieces| - 1]
  }

  /** The file the manifest commits to, cut into its chunks. */
  ghost predicate CommitsTo(job: Job, pieces: seq<Bytes>) {
    && |pieces| == |job.chunks|
    && forall i :: 0 <= i < |pieces| ==> job.hashOf(pieces[i]) == job.chunks[i].hash
  }

  /** No other bytes have the hash of one of the file's chunks. */
  ghost predicate CollisionFree(job: Job, pieces: seq<Bytes>) {
    forall i, data | 0 <= i < |pieces| && i < |job.chunks| && job.hashOf(data) == job.chunks[i].hash ::
      data == pieces[i]
  }

  /** A completed fetch has, for every chunk, bytes with the hash the manifest gives; every chunk was either fetched or
      already there; and each fetched one is credited to the peer that delivered it. */
  lemma CompletedFetchHolds(job: Job, store0: map<Cid, Bytes>, r: RunResult)
    requires job.Valid() && job.FaithfulCids()
    requires OutcomeOk(job, store0, r) && r.outcome.Completed?
    ensures HasAll(job.chunks, r.state.store)
    ensures forall i :: 0 <= i < |job.chunks| ==> job.hashOf(r.state.store[job.chunks[i].cid]) == job.chunks[i].hash
    ensures r.state.fetched + r.state.skipped == |job.chunks|
    ensures r.state.fetched == DeliveredCount(r.state.trace)
    ensures forall p ::
            (if p in r.state.attribution then r.state.attribution[p] else 0) == DeliveredBy(r.state.trace, p)
  {
    AllDoneCounts(r.state.chunks);
    forall i | 0 <= i < |job.chunks|
      ensures job.chunks[i].cid in r.state.store && job.hashOf(r.state.store[job.chunks[i].cid]) == job.chunks[i].hash
    {
      assert r.state.chunks[i].done;
    }
  }

  lemma {:induction false} CommittedFile(chunks: seq<ChunkDescriptor>, store: map<Cid, Bytes>, pieces: seq<Bytes>)
    requires HasAll(chunks, store) && |pieces| == |chunks|
    requires forall i :: 0 <= i < |chunks| ==> store[chunks[i].cid] == pieces[i]
    ensures FileOf(chunks, store) == Concatenation(pieces)
  {
    if chunks != [] {
      var n := |chunks| - 1;
      CommittedFile(chunks[..n], store, pieces[..n]);
    }
  }

  /** End to end: whatever the network did, what a completed fetch lets `Assemble` write is exactly the file the
      manifest commits to. */
  lemma CompletedDownloadIsTheFile(job: Job, peers: map<PeerId, Address>, store: map<Cid, Bytes>, first: Input,
                                   inputs: seq<Input>, pieces: seq<Bytes>)
    requires job.Valid() && job.FaithfulCids() && CommitsTo(job, pieces) && CollisionFree(job, pieces)
    requires ContentAddressed(job, store) && ValidFetch(job, peers, store, first, inputs)
    requires Fetch(job, peers, store, first, inputs).outcome.Completed?
    ensures var st := Fetch(job, peers, store, first, inputs).state.store;
            HasAll(job.chunks, st) && FileOf(job.chunks, st) == Concatenation(pieces)
  {
    var r := Fetch(job, peers, store, first, inputs);
    EveryFetchIsSafe(job, peers, store, first, inputs);
    CompletedFetchHolds(job, store, r);
    CommittedFile(job.chunks, r.state.store, pieces);
  }

  datatype DownloadResult =
    | Downloaded(file: Bytes, totalBytes: nat, fetched: nat, skipped: nat)
    | ManifestNotKept
    | FetchFailed(error: FetchError)
    | ChunkMissing(cid: Cid)
    | StillWaiting

  /** What a download that has its manifest returns, given how its fetch ends. */
  ghost predicate DownloadOk(chunks: seq<ChunkDescriptor>, manifestKept: bool, fetch: RunResult, r: DownloadResult) {
    if chunks == [] then r == Downloaded([], 0, 0, 0)
    else if !manifestKept then r == ManifestNotKept
    else
      match fetch.outcome
      case Waiting => r == StillWaiting
      case Failed(e) => r == FetchFailed(e)
      case Completed =>
        if HasAll(chunks, fetch.state.store) then
          var file := FileOf(chunks, fetch.state.store);
          r == Downloaded(file, |file|, fetch.state.fetched, fetch.state.skipped)
        else r.ChunkMissing? && r.cid !in fetch.state.store
  }

  /** The download after its manifest arrived: an empty file at once; otherwise keep the manifest, fetch the chunks, and
      write the file. */
  method Download(job: Job, peers: map<PeerId, Address>, store: map<Cid, Bytes>, manifestKept: bool, first: Input,
                  inputs: seq<Input>)
    returns (r: DownloadResult)
    ensures DownloadOk(job.chunks, manifestKept, Fetch(job, peers, store, first, inputs), r)
  {
    if job.chunks == [] {
      return Downloaded([], 0, 0, 0);
    }
    if !manifestKept {
      return ManifestNotKept;
    }
    var fetch := FetchV2PublicChunks(job, peers, store, first, inputs);
    match fetch.outcome
    case Waiting => return StillWaiting;
    case Failed(e) => return FetchFailed(e);
    case Completed =>
      var assembled := Assemble(job.chunks, fetch.state.store);
      match assembled
      case MissingChunk(cid) => return ChunkMissing(cid);
      case Written(file, totalBytes) => return Downloaded(file, totalBytes, fetch.state.fetched, fetch.state.skipped);
  }

  /** A download that meets this and whose fetch completes has the file the manifest commits to, whole: a chunk is never
      missing then. */
  lemma DownloadedIsTheFile(job: Job, peers: map<PeerId, Address>, store: map<Cid, Bytes>, first: Input,
                            inputs: seq<Input>, pieces: seq<Bytes>, r: DownloadResult)
    requires job.Valid() && job.FaithfulCids() && CommitsTo(job, pieces) && CollisionFree(job, pieces)
    requires ContentAddressed(job, store) && ValidFetch(job, peers, store, first, inputs)
    requires DownloadOk(job.chunks, true, Fetch(job, peers, store, first, inputs), r)
    ensures !r.ChunkMissing?
    ensures r.Downloaded? ==>
              && r.file == Concatenation(pieces) && r.totalBytes == |r.file|
              && r.fetched + r.skipped == |job.chunks|
              && (job.chunks != [] ==>
                    r.fetched == DeliveredCount(Fetch(job, peers, store, first, inputs).state.trace))
  {
    var fetch := Fetch(job, peers, store, first, inputs);
    if job.chunks != [] && fetch.outcome.Completed? {
      CompletedDownloadIsTheFile(job, peers, store, first, inputs, pieces);
      EveryFetchIsSafe(job, peers, store, first, inputs);
      CompletedFetchHolds(job, store, fetch);
    }
  }
}
