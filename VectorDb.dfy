/**
 * vector_db.py: the VectorDatabase wrapper around one Qdrant collection,
 * "documents", whose points carry a chunk of text, the file it came from,
 * the data name it was imported under and its position in that file.
 */
module VectorDb {
  import opened Wrappers
  import opened Text
  import opened Qdrant
  import Config

  /** The single page size of every scroll call. */
  const SCROLL_LIMIT: nat := 1000

  /** The search error for a query vector of the wrong dimension (the text
      of the library's own message is not modelled). */
  const DIMENSION_MISMATCH: string := "query vector dimension does not match the collection"

  function Min(a: nat, b: nat): nat
  {
    if a <= b then a else b
  }

  // ---------------------------------------------------------------------------
  // _ensure_collection

  /** The collection _ensure_collection creates: 384 dimensions, cosine. */
  function NewCollection(): Collection
  {
    Collection(VectorParams(Config.VECTOR_SIZE, Cosine), [])
  }

  /** The collections after _ensure_collection. */
  function EnsuredCollections(cols: map<string, Collection>): map<string, Collection>
  {
    if Config.COLLECTION_NAME in cols then cols
    else cols[Config.COLLECTION_NAME := NewCollection()]
  }

  /** The collection exists afterwards; it is created empty, with the
      configured size and cosine distance, only when its name was absent; no
      other collection is touched. */
  lemma EnsureCollectionEffect(cols: map<string, Collection>)
    ensures var r := EnsuredCollections(cols);
            && r.Keys == cols.Keys + {Config.COLLECTION_NAME}
            && (forall n :: n in cols ==> r[n] == cols[n])
            && (Config.COLLECTION_NAME !in cols ==>
                  r[Config.COLLECTION_NAME].params == VectorParams(384, Cosine) &&
                  r[Config.COLLECTION_NAME].points == [])
  {
  }

  /** Calling it twice creates the collection at most once. */
  lemma EnsureCollectionIdempotent(cols: map<string, Collection>)
    ensures EnsuredCollections(EnsuredCollections(cols)) == EnsuredCollections(cols)
  {
  }

  // ---------------------------------------------------------------------------
  // insert_documents

  /** The point insert_documents stores for the pair at `index`. */
  function ChunkPoint(id: PointId, chunk: string, embedding: Vector, fileName: string,
                      dataName: string, index: nat): Point
  {
    Point(id, embedding, Payload(Some(chunk), Some(fileName), Some(dataName), Some(index)))
  }

  // ---------------------------------------------------------------------------
  // search: filter construction

  function NameConditions(names: seq<string>): seq<FieldCondition>
  {
    seq(|names|, i requires 0 <= i < |names| => FieldCondition("data_name", names[i]))
  }

  /** The filter search builds, as written: `Filter(must=[...])`, one
      data_name condition per name, and no filter for None or []. */
  function BuildFilter(dataNames: Option<seq<string>>): (r: Option<Filter>)
    ensures r.None? <==> dataNames.None? || dataNames.value == []
    ensures r.Some? ==>
              && r.value.Must?
              && |r.value.conditions| == |dataNames.value|
              && forall i :: 0 <= i < |dataNames.value| ==>
                   r.value.conditions[i] == FieldCondition("data_name", dataNames.value[i])
  {
    if dataNames.None? || dataNames.value == [] then None
    else Some(Must(NameConditions(dataNames.value)))
  }

  /** As written, a point passes only if its data_name equals every name. */
  lemma BuildFilterMeaning(dataNames: Option<seq<string>>, p: Point)
    ensures Admits(BuildFilter(dataNames), p) <==>
            dataNames.None? ||
            forall i :: 0 <= i < |dataNames.value| ==> p.payload.dataName == Some(dataNames.value[i])
  {
    if dataNames.Some? && dataNames.value != [] {
      var cs := NameConditions(dataNames.value);
      assert forall i :: 0 <= i < |cs| ==> Holds(cs[i], p) == (p.payload.dataName == Some(dataNames.value[i]));
    }
  }

  /** So two different names let no point through at all. */
  lemma MustFilterAdmitsNothing(names: seq<string>, i: nat, j: nat, p: Point)
    requires i < |names| && j < |names| && names[i] != names[j]
    ensures !Admits(BuildFilter(Some(names)), p)
  {
    BuildFilterMeaning(Some(names), p);
  }

  /** The list names at least two different data sources. */
  predicate HasTwoNames(names: seq<string>)
  {
    exists i, j :: 0 <= i < |names| && 0 <= j < |names| && names[i] != names[j]
  }

  /** Hence, as written, such a list selects no point of any collection. */
  lemma MustFilterMatchesNothing(points: seq<Point>, names: seq<string>)
    requires HasTwoNames(names)
    ensures Matching(points, BuildFilter(Some(names))) == []
  {
    var i, j :| 0 <= i < |names| && 0 <= j < |names| && names[i] != names[j];
    forall p | p in points ensures !Admits(BuildFilter(Some(names)), p) {
      MustFilterAdmitsNothing(names, i, j, p);
    }
    MatchingNone(points, BuildFilter(Some(names)));
  }

  /** ... and a search restricted to two data sources finds nothing. */
  lemma SearchAsWrittenFindsNothing(points: seq<Point>, query: Vector, limit: nat,
                                    similarity: (Vector, Vector) -> real)
    ensures SearchPoints(points, query, BuildFilter(Some(["manual", "faq"])), limit, similarity) == []
  {
    var f := BuildFilter(Some(["manual", "faq"]));
    forall p | p in points ensures !Admits(f, p) {
      MustFilterAdmitsNothing(["manual", "faq"], 0, 1, p);
    }
    MatchingNone(points, f);
  }

  /** The evidently intended filter: `Filter(should=[...])`, any of the names. */
  function BuildIntendedFilter(dataNames: Option<seq<string>>): Option<Filter>
  {
    if dataNames.None? || dataNames.value == [] then None
    else Some(Should(NameConditions(dataNames.value)))
  }

  /** The intended filter admits exactly the points imported under one of the
      names, and every point when no name is given. */
  lemma BuildIntendedFilterMeaning(dataNames: Option<seq<string>>, p: Point)
    ensures Admits(BuildIntendedFilter(dataNames), p) <==>
            dataNames.None? || dataNames.value == [] ||
            (p.payload.dataName.Some? && p.payload.dataName.value in dataNames.value)
  {
    if dataNames.Some? && dataNames.value != [] && p.payload.dataName.Some? &&
       p.payload.dataName.value in dataNames.value {
      var names := dataNames.value;
      var i :| 0 <= i < |names| && names[i] == p.payload.dataName.value;
      assert Holds(NameConditions(names)[i], p);
    }
  }

  /** The two filters agree when the list repeats one name. */
  lemma FiltersAgreeOnOneName(names: seq<string>, p: Point)
    requires forall i, j :: 0 <= i < |names| && 0 <= j < |names| ==> names[i] == names[j]
    ensures Admits(BuildFilter(Some(names)), p) == Admits(BuildIntendedFilter(Some(names)), p)
  {
    BuildFilterMeaning(Some(names), p);
    BuildIntendedFilterMeaning(Some(names), p);
    if names != [] {
      assert names[0] in names;
    }
  }

  // ---------------------------------------------------------------------------
  // search: result mapping

  /** One search result as search returns it. */
  datatype Hit = Hit(score: real, text: string, fileName: string, dataName: string, chunkIndex: int)

  /** str(KeyError(key)). */
  function KeyErrorMessage(key: string): string
  {
    "'" + key + "'"
  }

  predicate Complete(p: Payload)
  {
    p.text.Some? && p.fileName.Some? && p.dataName.Some? && p.chunkIndex.Some?
  }

  /** The first key the result mapping looks up and does not find. */
  function MissingKey(p: Payload): string
    requires !Complete(p)
  {
    if p.text.None? then "text"
    else if p.fileName.None? then "file_name"
    else if p.dataName.None? then "data_name"
    else "chunk_index"
  }

  /** `h` is the mapping of point `p` scored `score`. */
  predicate IsHitOf(h: Hit, p: Point, score: real)
  {
    h.score == score &&
    p.payload.text == Some(h.text) && p.payload.fileName == Some(h.fileName) &&
    p.payload.dataName == Some(h.dataName) && p.payload.chunkIndex == Some(h.chunkIndex)
  }

  function ToHit(r: ScoredPoint): Result<Hit>
  {
    var p := r.point.payload;
    if !Complete(p) then Failure(KeyErrorMessage(MissingKey(p)))
    else Success(Hit(r.score, p.text.value, p.fileName.value, p.dataName.value, p.chunkIndex.value))
  }

  /** The list comprehension over the results: it fails with the KeyError of
      the first result that lacks a key, and otherwise maps every result, in
      order. */
  function ToHits(rs: seq<ScoredPoint>): (r: Result<seq<Hit>>)
    ensures r.Success? <==> forall i :: 0 <= i < |rs| ==> Complete(rs[i].point.payload)
    ensures r.Success? ==>
              && |r.value| == |rs|
              && forall i :: 0 <= i < |rs| ==> IsHitOf(r.value[i], rs[i].point, rs[i].score)
    ensures r.Failure? ==>
              exists i :: && 0 <= i < |rs|
                          && !Complete(rs[i].point.payload)
                          && (forall j :: 0 <= j < i ==> Complete(rs[j].point.payload))
                          && r.error == KeyErrorMessage(MissingKey(rs[i].point.payload))
  {
    if rs == [] then Success([])
    else match ToHit(rs[0])
      case Failure(e) => Failure(e)
      case Success(h) =>
        var rest := ToHits(rs[1..]);
        assert forall i :: 0 < i < |rs| ==> rs[i] == rs[1..][i - 1];
        match rest
        case Failure(e) =>
          assert exists i :: 0 <= i < |rs[1..]| && !Complete(rs[1..][i].point.payload) &&
                   (forall j :: 0 <= j < i ==> Complete(rs[1..][j].point.payload)) &&
                   e == KeyErrorMessage(MissingKey(rs[1..][i].point.payload));
          var i :| 0 <= i < |rs[1..]| && !Complete(rs[1..][i].point.payload) &&
                   (forall j :: 0 <= j < i ==> Complete(rs[1..][j].point.payload)) &&
                   e == KeyErrorMessage(MissingKey(rs[1..][i].point.payload));
          assert forall j :: 0 <= j < i + 1 ==> Complete(rs[j].point.payload) by {
            forall j | 0 < j < i + 1 ensures Complete(rs[j].point.payload) {
              assert rs[j] == rs[1..][j - 1];
            }
          }
          Failure(e)
        case Success(hs) => Success([h] + hs)
  }

  /** The hits of a search are sound: at most `limit`, best first, each the
      mapping of an admitted point of the collection scored against the query. */
  lemma HitsSound(points: seq<Point>, query: Vector, f: Option<Filter>, limit: nat,
                  similarity: (Vector, Vector) -> real)
    ensures var r := ToHits(SearchPoints(points, query, f, limit, similarity));
            r.Success? ==>
              && |r.value| <= limit
              && (forall i, j :: 0 <= i < j < |r.value| ==> r.value[i].score >= r.value[j].score)
              && (forall i :: 0 <= i < |r.value| ==>
                    exists p :: p in points && Admits(f, p) &&
                                IsHitOf(r.value[i], p, similarity(query, p.vector)))
  {
    var rs := SearchPoints(points, query, f, limit, similarity);
    SearchPointsSound(points, query, f, limit, similarity);
    var r := ToHits(rs);
    if r.Success? {
      forall i | 0 <= i < |r.value|
        ensures exists p :: p in points && Admits(f, p) &&
                            IsHitOf(r.value[i], p, similarity(query, p.vector))
      {
        assert IsHitOf(r.value[i], rs[i].point, similarity(query, rs[i].point.vector));
      }
    }
  }

  // ---------------------------------------------------------------------------
  // get_all_data_names, delete_by_data_name

  /** The data names the points carry. */
  function DataNamesOf(points: seq<Point>): set<string>
  {
    set p | p in points && p.payload.dataName.Some? :: p.payload.dataName.value
  }

  lemma DataNamesOfMeaning(points: seq<Point>, n: string)
    ensures n in DataNamesOf(points) <==> exists p :: p in points && p.payload.dataName == Some(n)
  {
    if exists p :: p in points && p.payload.dataName == Some(n) {
      var p :| p in points && p.payload.dataName == Some(n);
      assert p.payload.dataName.value == n;
    }
  }

  lemma {:induction false} MatchingNoFilter(points: seq<Point>)
    ensures Matching(points, None) == points
  {
    if points != [] {
      MatchingNoFilter(points[1..]);
      assert points == [points[0]] + points[1..];
    }
  }

  /** A collection of at most 1000 points is scrolled in one page. */
  lemma ScrollWholeCollection(points: seq<Point>)
    requires |points| <= SCROLL_LIMIT
    ensures Scroll(points, None, SCROLL_LIMIT) == points
  {
    MatchingNoFilter(points);
  }

  /** The filter delete_by_data_name scrolls with. */
  function NameFilter(dataName: string): Filter
  {
    Must([FieldCondition("data_name", dataName)])
  }

  /** The page of points delete_by_data_name selects. */
  function DeletionPage(points: seq<Point>, dataName: string): seq<Point>
  {
    Scroll(points, Some(NameFilter(dataName)), SCROLL_LIMIT)
  }

  /** The points left after delete_by_data_name. */
  function AfterDeletion(points: seq<Point>, dataName: string): seq<Point>
  {
    DeleteIds(points, IdsOf(DeletionPage(points, dataName)))
  }

  /** Every selected point carries the name; exactly the selected points are
      removed; points under any other name (or none) are all kept. */
  lemma DeletionRemovesOnlyThatName(points: seq<Point>, dataName: string)
    requires DistinctIds(points)
    ensures forall p :: p in DeletionPage(points, dataName) ==> p.payload.dataName == Some(dataName)
    ensures forall p :: p in points ==> (p !in AfterDeletion(points, dataName) <==> p in DeletionPage(points, dataName))
    ensures forall p :: p in points && p.payload.dataName != Some(dataName) ==> p in AfterDeletion(points, dataName)
    ensures forall p :: p in AfterDeletion(points, dataName) ==> p in points
  {
    var page := DeletionPage(points, dataName);
    forall p | p in page ensures p.payload.dataName == Some(dataName) {
      assert Holds(NameFilter(dataName).conditions[0], p);
    }
    forall p | p in points && p.id in IdsOf(page) ensures p in page {
      var q :| q in page && q.id == p.id;
      var i :| 0 <= i < |points| && points[i] == p;
      var j :| 0 <= j < |points| && points[j] == q;
      assert i == j;
    }
  }

  /** When at most one page of points carries the name, it disappears from
      the collection, and the count is the number of such points. */
  lemma DeletionWithinOnePage(points: seq<Point>, dataName: string)
    requires DistinctIds(points)
    requires |Matching(points, Some(NameFilter(dataName)))| <= SCROLL_LIMIT
    ensures |DeletionPage(points, dataName)| == |Matching(points, Some(NameFilter(dataName)))|
    ensures dataName !in DataNamesOf(AfterDeletion(points, dataName))
  {
    DeletionRemovesOnlyThatName(points, dataName);
    var after := AfterDeletion(points, dataName);
    var m := Matching(points, Some(NameFilter(dataName)));
    assert DeletionPage(points, dataName) == m;
    assert forall p :: p in points && p.payload.dataName == Some(dataName) ==> p in m by {
      forall p | p in points && p.payload.dataName == Some(dataName) ensures p in m {
        assert Holds(FieldCondition("data_name", dataName), p);
      }
    }
    DataNamesOfMeaning(after, dataName);
  }

  datatype Stats = Stats(totalPoints: nat, vectorSize: nat, dataNamesCount: nat)

  /** The database object: a client whose "documents" collection exists and
      holds points with distinct ids. */
  class VectorDatabase {
    const client: QdrantClient

    ghost predicate Valid()
      reads this, client
    {
      Config.COLLECTION_NAME in client.collections &&
      DistinctIds(client.collections[Config.COLLECTION_NAME].points)
    }

    /** The points of the "documents" collection, in scroll order. */
    function Points(): seq<Point>
      reads this, client
      requires Valid()
    {
      client.collections[Config.COLLECTION_NAME].points
    }

    function VectorSize(): nat
      reads this, client
      requires Valid()
    {
      client.collections[Config.COLLECTION_NAME].params.size
    }

    /** `VectorDatabase()`: wraps the shared client and ensures the collection. */
    constructor (client: QdrantClient)
      requires Config.COLLECTION_NAME in client.collections ==>
                 DistinctIds(client.collections[Config.COLLECTION_NAME].points)
      modifies client
      ensures this.client == client
      ensures client.collections == EnsuredCollections(old(client.collections))
      ensures Valid()
    {
      this.client := client;
      new;
      EnsureCollection();
    }

    /** `_ensure_collection`. */
    method EnsureCollection()
      requires Config.COLLECTION_NAME in client.collections ==>
                 DistinctIds(client.collections[Config.COLLECTION_NAME].points)
      modifies client
      ensures client.collections == EnsuredCollections(old(client.collections))
      ensures Valid()
    {
      if Config.COLLECTION_NAME !in client.collections {
        client.collections := client.collections[Config.COLLECTION_NAME := NewCollection()];
      }
    }

    /** `insert_documents`: one point per (chunk, embedding) pair, up to the
        shorter list, with the i-th new uuid4 `ids[i]`, all upserted at once.
        The new points follow the existing ones, which are unchanged. */
    method InsertDocuments(chunks: seq<string>, embeddings: seq<Vector>, fileName: string,
                           dataName: string, ids: seq<PointId>) returns (count: nat)
      requires Valid()
      requires |ids| >= Min(|chunks|, |embeddings|)
      requires forall i, j :: 0 <= i < j < |ids| ==> ids[i] != ids[j]
      requires forall i :: 0 <= i < |ids| ==> ids[i] !in IdsOf(Points())
      requires forall i :: 0 <= i < Min(|chunks|, |embeddings|) ==> |embeddings[i]| == VectorSize()
      modifies client
      ensures Valid()
      ensures count == Min(|chunks|, |embeddings|)
      ensures |Points()| == |old(Points())| + count
      ensures Points()[..|old(Points())|] == old(Points())
      ensures forall i :: 0 <= i < count ==>
                Points()[|old(Points())| + i] ==
                  ChunkPoint(ids[i], chunks[i], embeddings[i], fileName, dataName, i)
      ensures client.collections ==
                old(client.collections)[Config.COLLECTION_NAME :=
                  old(client.collections[Config.COLLECTION_NAME]).(points := Points())]
    {
      var n := Min(|chunks|, |embeddings|);
      var points: seq<Point> := [];
      for idx := 0 to n
        invariant |points| == idx
        invariant forall i :: 0 <= i < idx ==>
                    points[i] == ChunkPoint(ids[i], chunks[i], embeddings[i], fileName, dataName, i)
      {
        points := points + [ChunkPoint(ids[idx], chunks[idx], embeddings[idx], fileName, dataName, idx)];
      }
      var c := client.collections[Config.COLLECTION_NAME];
      UpsertFreshAppends(c.points, points);
      var stored := Upsert(c.points, points);
      assert DistinctIds(stored) by {
        forall i, j | 0 <= i < j < |stored| ensures stored[i].id != stored[j].id {
          if j >= |c.points| && i < |c.points| {
            assert c.points[i] in c.points;
          }
        }
      }
      client.collections := client.collections[Config.COLLECTION_NAME := c.(points := stored)];
      count := |points|;
    }

    /** `search`, with the intended any-of-the-names filter: at most `limit`
        hits, best first, each the payload of a point of the collection
        imported under one of the names (any point when no name is given). */
    function Search(queryVector: Vector, dataNames: Option<seq<string>>, limit: nat): (r: Result<seq<Hit>>)
      reads this, client
      requires Valid()
      ensures |queryVector| != VectorSize() ==> r == Failure(DIMENSION_MISMATCH)
      ensures r.Success? ==> |r.value| <= limit
      ensures r.Success? ==> forall i, j :: 0 <= i < j < |r.value| ==> r.value[i].score >= r.value[j].score
      ensures r.Success? ==> forall i :: 0 <= i < |r.value| ==>
                exists p :: p in Points() && Admits(BuildIntendedFilter(dataNames), p) &&
                            IsHitOf(r.value[i], p, client.similarity(queryVector, p.vector))
      ensures r.Success? && dataNames.Some? && dataNames.value != [] ==>
                forall i :: 0 <= i < |r.value| ==> r.value[i].dataName in dataNames.value
    {
      if |queryVector| != VectorSize() then Failure(DIMENSION_MISMATCH)
      else
        var f := BuildIntendedFilter(dataNames);
        var r := ToHits(SearchPoints(Points(), queryVector, f, limit, client.similarity));
        HitsSound(Points(), queryVector, f, limit, client.similarity);
        assert r.Success? && dataNames.Some? && dataNames.value != [] ==>
                 forall i :: 0 <= i < |r.value| ==> r.value[i].dataName in dataNames.value by {
          if r.Success? && dataNames.Some? && dataNames.value != [] {
            forall i | 0 <= i < |r.value| ensures r.value[i].dataName in dataNames.value {
              var p :| p in Points() && Admits(f, p) &&
                       IsHitOf(r.value[i], p, client.similarity(queryVector, p.vector));
              BuildIntendedFilterMeaning(dataNames, p);
            }
          }
        }
        r
    }

    /** `search` exactly as written, with the all-of-the-names filter of
        BuildFilter: two different names find nothing, whatever is stored. */
    function SearchAsWritten(queryVector: Vector, dataNames: Option<seq<string>>, limit: nat): (r: Result<seq<Hit>>)
      reads this, client
      requires Valid()
      ensures |queryVector| != VectorSize() ==> r == Failure(DIMENSION_MISMATCH)
      ensures |queryVector| == VectorSize() && dataNames.Some? && HasTwoNames(dataNames.value) ==>
                r == Success([])
    {
      if |queryVector| != VectorSize() then Failure(DIMENSION_MISMATCH)
      else
        var f := BuildFilter(dataNames);
        var r := ToHits(SearchPoints(Points(), queryVector, f, limit, client.similarity));
        assert dataNames.Some? && HasTwoNames(dataNames.value) ==> r == Success([]) by {
          if dataNames.Some? && HasTwoNames(dataNames.value) {
            MustFilterMatchesNothing(Points(), dataNames.value);
            assert Scored([], queryVector, client.similarity) == [];
            assert SortByScore([]) == [];
          }
        }
        r
    }

    /** With one data source (possibly repeated) or none, the search as
        written and the search with the intended filter are the same. */
    lemma SearchesAgreeOnOneName(queryVector: Vector, dataNames: Option<seq<string>>, limit: nat)
      requires Valid()
      requires dataNames.Some? ==>
                 forall i, j :: 0 <= i < |dataNames.value| && 0 <= j < |dataNames.value| ==>
                   dataNames.value[i] == dataNames.value[j]
      ensures SearchAsWritten(queryVector, dataNames, limit) == Search(queryVector, dataNames, limit)
    {
      if dataNames.Some? {
        forall p | p in Points()
          ensures Admits(BuildFilter(dataNames), p) == Admits(BuildIntendedFilter(dataNames), p)
        {
          FiltersAgreeOnOneName(dataNames.value, p);
        }
        MatchingSameFilter(Points(), BuildFilter(dataNames), BuildIntendedFilter(dataNames));
      }
    }

    /** `get_all_data_names`: the distinct data names of the first scroll
        page, in increasing order; points without one are skipped. */
    method GetAllDataNames() returns (names: seq<string>)
      requires Valid()
      ensures StrictlySorted(names)
      ensures forall n :: n in names <==> n in DataNamesOf(Scroll(Points(), None, SCROLL_LIMIT))
      ensures |names| == |DataNamesOf(Scroll(Points(), None, SCROLL_LIMIT))|
    {
      var page := Scroll(Points(), None, SCROLL_LIMIT);
      var dataNames: set<string> := {};
      for i := 0 to |page|
        invariant dataNames == DataNamesOf(page[..i])
      {
        assert page[..i + 1] == page[..i] + [page[i]];
        if page[i].payload.dataName.Some? {
          dataNames := dataNames + {page[i].payload.dataName.value};
        }
      }
      assert page[..|page|] == page;
      names := SortedList(dataNames);
    }

    /** `delete_by_data_name`: removes the points of one filtered scroll page
        and returns how many there were; with none it deletes nothing. */
    method DeleteByDataName(dataName: string) returns (count: nat)
      requires Valid()
      modifies client
      ensures Valid()
      ensures count == |DeletionPage(old(Points()), dataName)|
      ensures Points() == AfterDeletion(old(Points()), dataName)
      ensures client.collections ==
                old(client.collections)[Config.COLLECTION_NAME :=
                  old(client.collections[Config.COLLECTION_NAME]).(points := Points())]
      ensures count == 0 ==> client.collections == old(client.collections)
    {
      var c := client.collections[Config.COLLECTION_NAME];
      var page := Scroll(c.points, Some(NameFilter(dataName)), SCROLL_LIMIT);
      var pointIds := seq(|page|, i requires 0 <= i < |page| => page[i].id);
      if |pointIds| > 0 {
        var selected := set i | 0 <= i < |pointIds| :: pointIds[i];
        assert selected == IdsOf(page) by {
          forall id | id in IdsOf(page) ensures id in selected {
            var p :| p in page && p.id == id;
            var i :| 0 <= i < |page| && page[i] == p;
            assert pointIds[i] == id;
          }
        }
        DeleteKeepsDistinct(c.points, selected);
        client.collections := client.collections[Config.COLLECTION_NAME := c.(points := DeleteIds(c.points, selected))];
      } else {
        assert IdsOf(page) == {};
        DeleteNoIds(c.points);
        assert client.collections[Config.COLLECTION_NAME := c] == client.collections;
      }
      count := |pointIds|;
    }

    /** `get_stats`. */
    method GetStats() returns (s: Stats)
      requires Valid()
      ensures s.totalPoints == |Points()|
      ensures s.vectorSize == VectorSize()
      ensures s.dataNamesCount == |DataNamesOf(Scroll(Points(), None, SCROLL_LIMIT))|
    {
      var names := GetAllDataNames();
      s := Stats(|Points()|, VectorSize(), |names|);
    }
  }
}
