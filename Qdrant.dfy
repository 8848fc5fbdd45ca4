/**
 * The part of the Qdrant client that vector_db.py relies on, over an
 * in-memory collection: points with a payload, `must`/`should` filters of
 * keyword matches, scroll pages, exact search ranked by an uninterpreted
 * similarity, upsert by id and delete by id.
 */
module Qdrant {
  import opened Wrappers
  import Config

  type Vector = Config.Vector
  type PointId = string

  /** The payload keys vector_db.py reads and writes; each may be absent in a
      point that some other writer stored. */
  datatype Payload = Payload(
    text: Option<string>,
    fileName: Option<string>,
    dataName: Option<string>,
    chunkIndex: Option<int>)

  datatype Point = Point(id: PointId, vector: Vector, payload: Payload)

  datatype Distance = Cosine | Euclid | Dot

  datatype VectorParams = VectorParams(size: nat, distance: Distance)

  /** A collection's points, in the order that stands for the order scroll
      pages through them (Qdrant's point-id order); new points go last. */
  datatype Collection = Collection(params: VectorParams, points: seq<Point>)

  /** FieldCondition(key=key, match=MatchValue(value=value)). */
  datatype FieldCondition = FieldCondition(key: string, value: string)

  /** Filter(must=...) holds when every condition does, Filter(should=...)
      when at least one does. */
  datatype Filter = Must(conditions: seq<FieldCondition>) | Should(conditions: seq<FieldCondition>)

  /** The string stored under `key`, if any (chunk_index is an integer, so no
      string ever matches it). */
  function StringField(p: Payload, key: string): Option<string>
  {
    if key == "text" then p.text
    else if key == "file_name" then p.fileName
    else if key == "data_name" then p.dataName
    else None
  }

  predicate Holds(c: FieldCondition, p: Point)
  {
    StringField(p.payload, c.key) == Some(c.value)
  }

  predicate Matches(f: Filter, p: Point)
  {
    match f
    case Must(cs) => forall i :: 0 <= i < |cs| ==> Holds(cs[i], p)
    case Should(cs) => exists i :: 0 <= i < |cs| && Holds(cs[i], p)
  }

  /** No filter lets every point through. */
  predicate Admits(f: Option<Filter>, p: Point)
  {
    f.None? || Matches(f.value, p)
  }

  /** The points a filter admits, in collection order. */
  function Matching(points: seq<Point>, f: Option<Filter>): (r: seq<Point>)
    ensures |r| <= |points|
    ensures forall p :: p in r <==> p in points && Admits(f, p)
  {
    if points == [] then []
    else (if Admits(f, points[0]) then [points[0]] else []) + Matching(points[1..], f)
  }

  /** Two filters that admit the same stored points select the same points. */
  lemma {:induction false} MatchingSameFilter(points: seq<Point>, f: Option<Filter>, g: Option<Filter>)
    requires forall p :: p in points ==> Admits(f, p) == Admits(g, p)
    ensures Matching(points, f) == Matching(points, g)
  {
    if points != [] {
      assert forall p :: p in points[1..] ==> p in points;
      MatchingSameFilter(points[1..], f, g);
    }
  }

  /** A filter that no point passes leaves nothing. */
  lemma {:induction false} MatchingNone(points: seq<Point>, f: Option<Filter>)
    requires forall p :: p in points ==> !Admits(f, p)
    ensures Matching(points, f) == []
  {
    if points != [] {
      assert points[0] in points;
      MatchingNone(points[1..], f);
    }
  }

  function Take<T>(s: seq<T>, n: nat): (r: seq<T>)
    ensures |r| == if |s| <= n then |s| else n
    ensures r == s[..|r|]
  {
    if |s| <= n then s else s[..n]
  }

  /** `client.scroll(collection, scroll_filter=f, limit=limit)[0]`: one page,
      the first `limit` admitted points in collection order. */
  function Scroll(points: seq<Point>, f: Option<Filter>, limit: nat): (page: seq<Point>)
    ensures |page| <= limit
    ensures forall p :: p in page ==> p in points && Admits(f, p)
  {
    Take(Matching(points, f), limit)
  }

  /** A search hit: the point and its similarity to the query. */
  datatype ScoredPoint = ScoredPoint(point: Point, score: real)

  predicate NonIncreasing(s: seq<ScoredPoint>)
  {
    forall i, j :: 0 <= i < j < |s| ==> s[i].score >= s[j].score
  }

  /** Behind the head of a sorted list, inserting a lower-scored point keeps
      the head first. */
  lemma HeadBoundsInsertion(x: ScoredPoint, s: seq<ScoredPoint>, t: seq<ScoredPoint>)
    requires s != [] && NonIncreasing(s) && x.score < s[0].score
    requires multiset(t) == multiset(s[1..]) + multiset{x}
    ensures forall j :: 0 <= j < |t| ==> s[0].score >= t[j].score
  {
    forall j | 0 <= j < |t| ensures s[0].score >= t[j].score {
      assert t[j] in multiset(t);
      if t[j] != x {
        assert t[j] in multiset(s[1..]);
        var k :| 0 <= k < |s[1..]| && s[1..][k] == t[j];
        assert s[k + 1] == t[j];
      }
    }
  }

  function InsertByScore(x: ScoredPoint, s: seq<ScoredPoint>): (r: seq<ScoredPoint>)
    requires NonIncreasing(s)
    ensures NonIncreasing(r)
    ensures multiset(r) == multiset(s) + multiset{x}
  {
    if s == [] then [x]
    else if x.score >= s[0].score then [x] + s
    else
      var t := InsertByScore(x, s[1..]);
      HeadBoundsInsertion(x, s, t);
      assert s == [s[0]] + s[1..];
      [s[0]] + t
  }

  /** Highest score first; the hits are the scored points rearranged. */
  function SortByScore(s: seq<ScoredPoint>): (r: seq<ScoredPoint>)
    ensures NonIncreasing(r)
    ensures multiset(r) == multiset(s)
  {
    if s == [] then []
    else
      assert s == [s[0]] + s[1..];
      InsertByScore(s[0], SortByScore(s[1..]))
  }

  function Scored(points: seq<Point>, query: Vector, similarity: (Vector, Vector) -> real): (r: seq<ScoredPoint>)
  {
    seq(|points|, i requires 0 <= i < |points| => ScoredPoint(points[i], similarity(query, points[i].vector)))
  }

  /** `client.search(collection, query_vector, query_filter=f, limit=limit)`:
      the `limit` admitted points most similar to the query, best first. */
  function SearchPoints(points: seq<Point>, query: Vector, f: Option<Filter>, limit: nat,
                        similarity: (Vector, Vector) -> real): seq<ScoredPoint>
  {
    Take(SortByScore(Scored(Matching(points, f), query, similarity)), limit)
  }

  /** What search promises: at most `limit` hits, best first, each an
      admitted point of the collection scored against the query. */
  lemma SearchPointsSound(points: seq<Point>, query: Vector, f: Option<Filter>, limit: nat,
                          similarity: (Vector, Vector) -> real)
    ensures var r := SearchPoints(points, query, f, limit, similarity);
            && |r| <= limit
            && NonIncreasing(r)
            && (forall i :: 0 <= i < |r| ==>
                  r[i].point in points && Admits(f, r[i].point) &&
                  r[i].score == similarity(query, r[i].point.vector))
  {
    var m := Matching(points, f);
    var sc := Scored(m, query, similarity);
    var sorted := SortByScore(sc);
    var r := SearchPoints(points, query, f, limit, similarity);
    forall i | 0 <= i < |r|
      ensures r[i].point in points && Admits(f, r[i].point)
      ensures r[i].score == similarity(query, r[i].point.vector)
    {
      assert r[i] == sorted[i];
      assert sorted[i] in multiset(sc);
      var k :| 0 <= k < |sc| && sc[k] == sorted[i];
      assert sc[k].point == m[k];
      assert m[k] in m;
    }
  }

  /** When at most `limit` points are admitted, search returns every one of
      them, each with its similarity, and nothing else (best first). */
  lemma SearchPointsReturnsAllWithinLimit(points: seq<Point>, query: Vector, f: Option<Filter>, limit: nat,
                                          similarity: (Vector, Vector) -> real)
    requires |Matching(points, f)| <= limit
    ensures |SearchPoints(points, query, f, limit, similarity)| == |Matching(points, f)|
    ensures multiset(SearchPoints(points, query, f, limit, similarity)) ==
            multiset(Scored(Matching(points, f), query, similarity))
    ensures forall p :: p in points && Admits(f, p) ==>
              ScoredPoint(p, similarity(query, p.vector)) in SearchPoints(points, query, f, limit, similarity)
  {
    var m := Matching(points, f);
    var sc := Scored(m, query, similarity);
    assert |multiset(SortByScore(sc))| == |multiset(sc)|;
    forall p | p in points && Admits(f, p)
      ensures ScoredPoint(p, similarity(query, p.vector)) in SearchPoints(points, query, f, limit, similarity)
    {
      var k :| 0 <= k < |m| && m[k] == p;
      assert sc[k] == ScoredPoint(p, similarity(query, p.vector));
      assert sc[k] in multiset(sc);
    }
  }

  // ---------------------------------------------------------------------------
  // Writes

  function IdsOf(points: seq<Point>): set<PointId>
  {
    set p | p in points :: p.id
  }

  predicate DistinctIds(points: seq<Point>)
  {
    forall i, j :: 0 <= i < j < |points| ==> points[i].id != points[j].id
  }

  /** Upserting one point: it replaces the point with its id, or is appended. */
  function UpsertPoint(points: seq<Point>, q: Point): seq<Point>
  {
    if points == [] then [q]
    else if points[0].id == q.id then [q] + points[1..]
    else [points[0]] + UpsertPoint(points[1..], q)
  }

  /** `client.upsert(collection, points=batch)`, one point after the other. */
  function Upsert(points: seq<Point>, batch: seq<Point>): seq<Point>
    decreases |batch|
  {
    if batch == [] then points else Upsert(UpsertPoint(points, batch[0]), batch[1..])
  }

  lemma {:induction false} UpsertPointFresh(points: seq<Point>, q: Point)
    requires q.id !in IdsOf(points)
    ensures UpsertPoint(points, q) == points + [q]
  {
    if points != [] {
      assert points[0] in points;
      assert IdsOf(points[1..]) <= IdsOf(points) by {
        forall id | id in IdsOf(points[1..]) ensures id in IdsOf(points) {
          var p :| p in points[1..] && p.id == id;
          assert p in points;
        }
      }
      UpsertPointFresh(points[1..], q);
      assert points == [points[0]] + points[1..];
    }
  }

  lemma IdsOfAppend(points: seq<Point>, q: Point)
    ensures IdsOf(points + [q]) == IdsOf(points) + {q.id}
  {
    assert q in points + [q];
    forall id | id in IdsOf(points) ensures id in IdsOf(points + [q]) {
      var p :| p in points && p.id == id;
      assert p in points + [q];
    }
  }

  /** A batch of points with new, pairwise distinct ids (uuid4 ids) is simply
      appended: no stored point changes. */
  lemma {:induction false} UpsertFreshAppends(points: seq<Point>, batch: seq<Point>)
    requires DistinctIds(batch)
    requires forall i :: 0 <= i < |batch| ==> batch[i].id !in IdsOf(points)
    ensures Upsert(points, batch) == points + batch
    decreases |batch|
  {
    if batch != [] {
      UpsertPointFresh(points, batch[0]);
      var next := points + [batch[0]];
      IdsOfAppend(points, batch[0]);
      var rest := batch[1..];
      assert forall i :: 0 <= i < |rest| ==> rest[i] == batch[i + 1];
      UpsertFreshAppends(next, rest);
      assert next + batch[1..] == points + batch;
    }
  }

  /** `client.delete(collection, points_selector=ids)`. */
  function DeleteIds(points: seq<Point>, ids: set<PointId>): (r: seq<Point>)
    ensures |r| <= |points|
    ensures forall p :: p in r <==> p in points && p.id !in ids
  {
    if points == [] then []
    else (if points[0].id in ids then [] else [points[0]]) + DeleteIds(points[1..], ids)
  }

  lemma {:induction false} DeleteNoIds(points: seq<Point>)
    ensures DeleteIds(points, {}) == points
  {
    if points != [] {
      DeleteNoIds(points[1..]);
      assert points == [points[0]] + points[1..];
    }
  }

  /** Deleting keeps ids distinct. */
  lemma {:induction false} DeleteKeepsDistinct(points: seq<Point>, ids: set<PointId>)
    requires DistinctIds(points)
    ensures DistinctIds(DeleteIds(points, ids))
  {
    if points != [] {
      DeleteKeepsDistinct(points[1..], ids);
      var rest := DeleteIds(points[1..], ids);
      forall j | 0 <= j < |rest| ensures rest[j].id != points[0].id {
        assert rest[j] in rest;
        var k :| 0 <= k < |points[1..]| && points[1..][k] == rest[j];
        assert points[k + 1] == rest[j];
      }
    }
  }

  /** The client: its collections, and the similarity of the collections'
      distance function (floats, left uninterpreted). */
  class QdrantClient {
    var collections: map<string, Collection>
    const similarity: (Vector, Vector) -> real

    /** A client over the collections persisted on disk. */
    constructor (persisted: map<string, Collection>, similarity: (Vector, Vector) -> real)
      ensures collections == persisted && this.similarity == similarity
    {
      collections := persisted;
      this.similarity := similarity;
    }
  }
}
