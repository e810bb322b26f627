/** Context retrieval: the segments of a course's documents whose embeddings
    are nearest to the prompt's embedding. The embedder and the vector
    distance are parameters; a row of the query is one embedding joined with
    its segment and that segment's document. */
module Retriever {
  import opened Schema
  import opened Sorting

  /** The default `num_segments` of `get_segments_for`. */
  const DEFAULT_NUM_SEGMENTS: nat := 3

  datatype RetrievedSegment = RetrievedSegment(id: nat, text: string, documentName: string)

  /** One joined row together with the distance it is ordered by. */
  datatype Candidate = Candidate(segment: RetrievedSegment, distance: int)

  function Distance(c: Candidate): int
  {
    c.distance
  }

  /** Whether an embedding row survives both inner joins and the course filter. */
  predicate InCourse(e: Embedding, segments: map<nat, Segment>, documents: map<nat, Document>, course: int)
  {
    e.segmentId in segments
    && segments[e.segmentId].documentId in documents
    && documents[segments[e.segmentId].documentId].courseId == course
  }

  /** The joined row of an embedding that survives the joins. */
  function RowOf(e: Embedding, segments: map<nat, Segment>, documents: map<nat, Document>,
                 query: Vector, l2: (Vector, Vector) -> int): Candidate
    requires e.segmentId in segments && segments[e.segmentId].documentId in documents
  {
    var s := segments[e.segmentId];
    Candidate(RetrievedSegment(e.segmentId, s.text, documents[s.documentId].name), l2(e.vector, query))
  }

  /** Whether a result row faithfully describes a stored segment of the course. */
  predicate Describes(r: RetrievedSegment, segments: map<nat, Segment>, documents: map<nat, Document>, course: int)
  {
    r.id in segments
    && segments[r.id].documentId in documents
    && documents[segments[r.id].documentId].courseId == course
    && r.text == segments[r.id].text
    && r.documentName == documents[segments[r.id].documentId].name
  }

  /** The filtered join, in embedding-table order: exactly one row per
      embedding of a segment of the course. */
  function Joined(embeddings: seq<Embedding>, segments: map<nat, Segment>, documents: map<nat, Document>,
                  course: int, query: Vector, l2: (Vector, Vector) -> int): (rows: seq<Candidate>)
    ensures |rows| <= |embeddings|
    ensures forall c :: c in rows ==>
      Describes(c.segment, segments, documents, course)
      && exists i :: 0 <= i < |embeddings| && embeddings[i].segmentId == c.segment.id
                     && c.distance == l2(embeddings[i].vector, query)
    ensures forall i :: 0 <= i < |embeddings| && InCourse(embeddings[i], segments, documents, course) ==>
      RowOf(embeddings[i], segments, documents, query, l2) in rows
  {
    if embeddings == [] then []
    else
      var init := embeddings[..|embeddings| - 1];
      var e := embeddings[|embeddings| - 1];
      var rest := Joined(init, segments, documents, course, query, l2);
      assert forall i :: 0 <= i < |init| ==> init[i] == embeddings[i];
      if InCourse(e, segments, documents, course) then rest + [RowOf(e, segments, documents, query, l2)]
      else rest
  }

  /** The rows that `ORDER BY distance LIMIT n` keeps, nearest first. */
  function Ranked(embeddings: seq<Embedding>, segments: map<nat, Segment>, documents: map<nat, Document>,
                  course: int, query: Vector, l2: (Vector, Vector) -> int, n: nat): seq<Candidate>
  {
    var sorted := SortBy(Joined(embeddings, segments, documents, course, query, l2), Distance);
    sorted[..Min(n, |sorted|)]
  }

  /** `Retriever.get_segments_for(prompt, course_id, num_segments)`. */
  function GetSegmentsFor(embeddings: seq<Embedding>, segments: map<nat, Segment>, documents: map<nat, Document>,
                          embed: string -> Vector, l2: (Vector, Vector) -> int,
                          prompt: string, course: int, numSegments: nat): (r: seq<RetrievedSegment>)
    ensures |r| <= numSegments
    ensures forall k :: 0 <= k < |r| ==>
      Describes(r[k], segments, documents, course)
      && exists i :: 0 <= i < |embeddings| && embeddings[i].segmentId == r[k].id
  {
    var top := Ranked(embeddings, segments, documents, course, embed(prompt), l2, numSegments);
    RankedRowsJoined(embeddings, segments, documents, course, embed(prompt), l2, numSegments);
    seq(|top|, k requires 0 <= k < |top| => top[k].segment)
  }

  /** Every ranked row is a row of the filtered join. */
  lemma RankedRowsJoined(embeddings: seq<Embedding>, segments: map<nat, Segment>, documents: map<nat, Document>,
                         course: int, query: Vector, l2: (Vector, Vector) -> int, n: nat)
    ensures forall c :: c in Ranked(embeddings, segments, documents, course, query, l2, n) ==>
      c in Joined(embeddings, segments, documents, course, query, l2)
  {
    var joined := Joined(embeddings, segments, documents, course, query, l2);
    var sorted := SortBy(joined, Distance);
    forall c | c in sorted[..Min(n, |sorted|)]
      ensures c in joined
    {
      assert c in multiset(sorted);
    }
  }

  /** The ranked rows are in non-decreasing distance, there are at most `n`
      of them, and fewer than `n` only when every row of the join was kept. */
  lemma RankedOrder(embeddings: seq<Embedding>, segments: map<nat, Segment>, documents: map<nat, Document>,
                    course: int, query: Vector, l2: (Vector, Vector) -> int, n: nat)
    ensures var top := Ranked(embeddings, segments, documents, course, query, l2, n);
      && |top| <= n
      && (forall i, j :: 0 <= i < j < |top| ==> top[i].distance <= top[j].distance)
      && (|top| < n ==> multiset(top) == multiset(Joined(embeddings, segments, documents, course, query, l2)))
  {
    var joined := Joined(embeddings, segments, documents, course, query, l2);
    var sorted := SortBy(joined, Distance);
    var top := sorted[..Min(n, |sorted|)];
    assert top == Ranked(embeddings, segments, documents, course, query, l2, n);
    forall i, j | 0 <= i < j < |top|
      ensures top[i].distance <= top[j].distance
    {
      assert Distance(sorted[i]) <= Distance(sorted[j]);
    }
    if |top| < n {
      assert top == sorted;
    }
  }

  /** An in-course embedding whose row was left out is no nearer than the
      farthest row returned, and rows are left out only when `n` were kept. */
  lemma {:induction false} OmittedNoCloser(embeddings: seq<Embedding>, segments: map<nat, Segment>,
                                           documents: map<nat, Document>, course: int, query: Vector,
                                           l2: (Vector, Vector) -> int, n: nat, i: int)
    requires 0 <= i < |embeddings| && InCourse(embeddings[i], segments, documents, course)
    ensures var top := Ranked(embeddings, segments, documents, course, query, l2, n);
      var c := RowOf(embeddings[i], segments, documents, query, l2);
      c !in top ==> n == 0 || (|top| == n && top[n - 1].distance <= c.distance)
  {
    var joined := Joined(embeddings, segments, documents, course, query, l2);
    var sorted := SortBy(joined, Distance);
    var top := sorted[..Min(n, |sorted|)];
    assert top == Ranked(embeddings, segments, documents, course, query, l2, n);
    var c := RowOf(embeddings[i], segments, documents, query, l2);
    assert c in joined;
    assert c in multiset(sorted);
    var k :| 0 <= k < |sorted| && sorted[k] == c;
    if k < n {
      assert top[k] == c;
    } else if n > 0 {
      SortedTail(sorted, n, Distance);
      assert Distance(sorted[n - 1]) <= Distance(sorted[k]);
      assert top[n - 1] == sorted[n - 1];
    }
  }
}
