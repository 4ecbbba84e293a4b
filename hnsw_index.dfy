/** `HnswIndexService`: the vector index over confirmed answers. It keeps, in parallel,
    the normalised vectors and the database ids they belong to, a navigable small-world
    graph over the vectors, and three files: the serialised graph at `pathGraph`, and
    the vectors and ids files beside it (see BinaryFormat).

    The graph is given the service's own vector list as its items (by `AddItems` for
    each added vector, or by `DeserializeGraph(_vectors, ...)` on load), so its items
    are always `vectors`, and a search hit names a position in that list. The graph's
    links, its random levels and its serialised form are not modelled: the graph image
    and the nearest-neighbour search are parameters of the operations that use them. */
module HnswIndex {
  import opened Wrappers
  import opened Text
  import opened BinaryFormat
  import opened Paths

  /** The `k` of `Search` when the caller gives none. */
  const DefaultK: int := 3

  /** `Normalize`: floating-point scaling to unit length. The model keeps only that it
      returns a vector of the same length (`Select(...).ToArray()` or `v` itself). */
  type Normalizer = f: Vector -> Vector | forall v :: |f(v)| == |v| witness (v: Vector) => v

  /** One result of `KNNSearch`: the position of the item and its cosine distance. */
  datatype Neighbour = Neighbour(index: nat, distance: real)

  /** `_graph.KNNSearch(query, k)` over the given items; `None` stands for a `null`
      result list. */
  type Knn = (seq<Vector>, Vector, int) -> Option<seq<Neighbour>>

  /** A search that only names positions of its items. */
  predicate KnnInRange(knn: Knn, items: seq<Vector>, query: Vector, k: int) {
    var hits := knn(items, query, k);
    hits.Some? ==> forall h :: 0 <= h < |hits.value| ==> hits.value[h].index < |items|
  }

  function VectorsPath(pathGraph: string): string {
    ChangeExtension(pathGraph, ".vec")
  }

  function IdsPath(pathGraph: string): string {
    ChangeExtension(pathGraph, ".ids")
  }

  /** The service's files live in one directory under three different names. */
  lemma FilePathsDistinct(pathGraph: string)
    requires pathGraph != []
    ensures VectorsPath(pathGraph) != IdsPath(pathGraph)
    ensures Stem(VectorsPath(pathGraph)) == Stem(pathGraph) == Stem(IdsPath(pathGraph))
  {
    ChangeExtensionDistinct(pathGraph, ".vec", ".ids");
    ChangeExtensionDistinct(pathGraph, ".ids", ".vec");
  }

  /** The file system: file contents by path. */
  class Disk {
    var files: map<string, seq<byte>>

    constructor (files: map<string, seq<byte>>)
      ensures this.files == files
    {
      this.files := files;
    }

    /** `File.Create` followed by the writes of one `BinaryWriter`/stream. */
    method Write(path: string, bytes: seq<byte>)
      modifies this
      ensures files == old(files)[path := bytes]
    {
      files := files[path := bytes];
    }
  }

  /** What the constructor loads: both lists from their files when the graph file and
      both companion files exist, otherwise nothing. A file too short for its header
      or its contents fails with the reader's exception. */
  function LoadState(pathGraph: string, files: map<string, seq<byte>>): (r: Result<(seq<Vector>, seq<i32>), Exception>)
    ensures r.Success? && !(pathGraph in files && VectorsPath(pathGraph) in files && IdsPath(pathGraph) in files)
            ==> r.value == ([], [])
    ensures r.Success? ==> FitsInt32(r.value.0) && FitsInt32(r.value.1) && Uniform(r.value.0)
    ensures r.Success? && r.value.0 != [] ==> FitsInt32(r.value.0[0])
  {
    var vp, ip := VectorsPath(pathGraph), IdsPath(pathGraph);
    if pathGraph in files && vp in files && ip in files then
      match DecodeVectors(files[vp])
      case Failure(e) => Failure(e)
      case Success(vs) =>
        match DecodeIds(files[ip])
        case Failure(e) => Failure(e)
        case Success(ids) => Success((vs, ids))
    else Success(([], []))
  }

  /** The files after a `Save` of a non-empty index: the graph image, then the vectors
      file, then the ids file (skipped when there are no ids). */
  function SavedFiles(files: map<string, seq<byte>>, pathGraph: string, graph: seq<byte>,
                      vectors: seq<Vector>, ids: seq<i32>): map<string, seq<byte>>
    requires FitsInt32(vectors) && vectors != [] && FitsInt32(vectors[0]) && FitsInt32(ids)
  {
    var withVectors := files[pathGraph := graph][VectorsPath(pathGraph) := EncodeVectors(vectors)];
    if ids == [] then withVectors else withVectors[IdsPath(pathGraph) := EncodeIds(ids)]
  }

  /** Reopening the index on what `Save` wrote gives back the same vectors and ids,
      whatever the graph image holds, provided the vectors share one length and each
      has its id. */
  lemma SaveLoadRoundTrip(files: map<string, seq<byte>>, pathGraph: string, graph: seq<byte>,
                          vectors: seq<Vector>, ids: seq<i32>)
    requires pathGraph != []
    requires FitsInt32(vectors) && vectors != [] && FitsInt32(vectors[0]) && Uniform(vectors)
    requires FitsInt32(ids) && |ids| == |vectors|
    ensures LoadState(pathGraph, SavedFiles(files, pathGraph, graph, vectors, ids)) == Success((vectors, ids))
  {
    var saved := SavedFiles(files, pathGraph, graph, vectors, ids);
    FilePathsDistinct(pathGraph);
    assert saved[VectorsPath(pathGraph)] == EncodeVectors(vectors);
    assert saved[IdsPath(pathGraph)] == EncodeIds(ids);
    VectorsRoundTrip(vectors);
    IdsRoundTrip(ids);
  }

  /** Turns the hits into (database id, similarity) pairs, similarity being one minus
      the distance; a hit outside the id list fails as `_ids[idx]` does. */
  function Scores(ids: seq<i32>, hits: seq<Neighbour>): (r: Result<seq<(i32, real)>, Exception>)
    ensures r.Success? <==> forall h :: 0 <= h < |hits| ==> hits[h].index < |ids|
    ensures r.Success? ==> |r.value| == |hits|
    ensures r.Success? ==> forall h :: 0 <= h < |hits| ==>
              r.value[h] == (ids[hits[h].index], 1.0 - hits[h].distance)
    ensures r.Failure? ==> r.error == IndexOutOfRange
  {
    if hits == [] then Success([])
    else if hits[0].index >= |ids| then Failure(IndexOutOfRange)
    else
      var rest := Scores(ids, hits[1..]);
      assert forall h :: 0 < h < |hits| ==> hits[h] == hits[1..][h - 1];
      match rest
      case Failure(e) => Failure(e)
      case Success(tail) => Success([(ids[hits[0].index], 1.0 - hits[0].distance)] + tail)
  }

  class HnswIndexService {
    const pathGraph: string
    var vectors: seq<Vector>
    var ids: seq<i32>

    /** Both lists are .NET lists, and every vector a .NET array. */
    predicate Bounded()
      reads this
    {
      FitsInt32(vectors) && FitsInt32(ids) && forall k :: 0 <= k < |vectors| ==> FitsInt32(vectors[k])
    }

    /** Every vector has its id: true after `Add`, and after loading files that `Save`
        wrote together, but not guaranteed for arbitrary files. */
    predicate Consistent()
      reads this
    {
      |ids| == |vectors|
    }

    constructor Loaded(pathGraph: string, vectors: seq<Vector>, ids: seq<i32>)
      ensures this.pathGraph == pathGraph && this.vectors == vectors && this.ids == ids
    {
      this.pathGraph := pathGraph;
      this.vectors := vectors;
      this.ids := ids;
    }

    /** The constructor: an empty graph, then the vectors, the ids and the graph loaded
        from disk when all three files exist. */
    static method Open(pathGraph: string, disk: Disk) returns (r: Result<HnswIndexService, Exception>)
      ensures r.Failure? <==> LoadState(pathGraph, disk.files).Failure?
      ensures r.Failure? ==> r.error == LoadState(pathGraph, disk.files).error
      ensures r.Success? ==> fresh(r.value) && r.value.pathGraph == pathGraph
                             && (r.value.vectors, r.value.ids) == LoadState(pathGraph, disk.files).value
                             && r.value.Bounded()
    {
      var vectors: seq<Vector> := [];
      var ids: seq<i32> := [];
      var vp, ip := VectorsPath(pathGraph), IdsPath(pathGraph);
      if pathGraph in disk.files && vp in disk.files && ip in disk.files {
        var vs := LoadVectors(disk.files[vp]);
        if vs.Failure? {
          return Failure(vs.error);
        }
        var loaded := LoadIds(disk.files[ip]);
        if loaded.Failure? {
          return Failure(loaded.error);
        }
        vectors, ids := vs.value, loaded.value;
      }
      var svc := new HnswIndexService.Loaded(pathGraph, vectors, ids);
      r := Success(svc);
    }

    /** `Add`: the id is parsed first, so a malformed id changes nothing; then the
        normalised vector and its id are appended to the lists and to the graph. */
    method Add(id: string, vector: Vector, normalize: Normalizer) returns (r: Option<Exception>)
      requires Bounded() && |vectors| < MaxInt32 && |ids| < MaxInt32 && FitsInt32(vector)
      modifies this
      ensures r.Some? <==> ParseInt32(id).Failure?
      ensures r.Some? ==> r.value == ParseInt32(id).error && vectors == old(vectors) && ids == old(ids)
      ensures r.None? ==> ids == old(ids) + [ParseInt32(id).value]
                          && vectors == old(vectors) + [normalize(vector)]
      ensures Bounded()
      ensures old(Consistent()) ==> Consistent()
    {
      var dbId := ParseInt32(id);
      if dbId.Failure? {
        return Some(dbId.error);
      }
      var v := normalize(vector);
      ids := ids + [dbId.value];
      vectors := vectors + [v];
      r := None;
    }

    /** `Search`: the k nearest neighbours of the normalised query, as (database id,
        similarity) pairs in the order the graph returns them; a `null` result is an
        empty list. */
    function Search(query: Vector, k: int, normalize: Normalizer, knn: Knn): (r: Result<seq<(i32, real)>, Exception>)
      reads this
      ensures knn(vectors, normalize(query), k).None? ==> r == Success([])
      ensures knn(vectors, normalize(query), k).Some? ==>
                var hits := knn(vectors, normalize(query), k).value;
                (r.Success? <==> forall h :: 0 <= h < |hits| ==> hits[h].index < |ids|)
                && (r.Success? ==> |r.value| == |hits| && forall h :: 0 <= h < |hits| ==>
                      r.value[h] == (ids[hits[h].index], 1.0 - hits[h].distance))
    {
      match knn(vectors, normalize(query), k)
      case None => Success([])
      case Some(hits) => Scores(ids, hits)
    }

    /** `Save`: nothing happens for an empty index; otherwise the graph image, the
        vectors file and the ids file are written, in that order. */
    method Save(disk: Disk, serializeGraph: seq<Vector> -> seq<byte>)
      requires Bounded()
      modifies disk
      ensures vectors == [] ==> disk.files == old(disk.files)
      ensures vectors != [] ==>
                disk.files == SavedFiles(old(disk.files), pathGraph, serializeGraph(vectors), vectors, ids)
    {
      if |vectors| == 0 {
        return;
      }
      disk.Write(pathGraph, serializeGraph(vectors));
      var vf := SaveVectors(vectors);
      disk.Write(VectorsPath(pathGraph), vf.value);
      var idf := SaveIds(ids);
      if idf.Some? {
        disk.Write(IdsPath(pathGraph), idf.value);
      }
    }
  }

  /** On a consistent index, a search that names only positions of the graph's items
      never fails, and every id it returns is one of the index's ids. */
  lemma ConsistentSearchSucceeds(index: HnswIndexService, query: Vector, k: int, normalize: Normalizer, knn: Knn)
    requires index.Consistent() && KnnInRange(knn, index.vectors, normalize(query), k)
    ensures index.Search(query, k, normalize, knn).Success?
    ensures forall h :: 0 <= h < |index.Search(query, k, normalize, knn).value| ==>
              index.Search(query, k, normalize, knn).value[h].0 in index.ids
  {
    var r := index.Search(query, k, normalize, knn);
    var hits := knn(index.vectors, normalize(query), k);
    if hits.Some? {
      forall h | 0 <= h < |r.value| ensures r.value[h].0 in index.ids {
        assert r.value[h].0 == index.ids[hits.value[h].index];
      }
    }
  }
}
