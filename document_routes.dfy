/** Document upload and deletion in the first package. The upload's bytes
    are represented by their digest (an opaque key), the parser, the embedder
    and the storage location of a new document are parameters, and the file
    store itself is not modelled: the upload returns the path the bytes are
    saved at, the deletion the path whose file is removed. */
module DocumentRoutes {
  import opened Schema
  import Text

  /** The redirect back to the upload form on success. */
  const FOUND: int := 302

  /** The last path component, as `PurePath(...).name` sees a POSIX path:
      empty and "." components are dropped; a path with none left has an
      empty name. */
  function LastComponent(parts: seq<string>): (name: string)
    ensures name == "" || name in parts
    ensures name != "."
  {
    if |parts| == 0 then ""
    else if parts[|parts| - 1] != "" && parts[|parts| - 1] != "." then parts[|parts| - 1]
    else LastComponent(parts[..|parts| - 1])
  }

  function PathName(filename: string): (name: string)
    ensures '/' !in name
  {
    LastComponent(Text.Split(filename, '/'))
  }

  /** The last position of `c` in `s`, or -1 (`str.rfind`). */
  function LastIndexOf(s: string, c: char): (i: int)
    ensures -1 <= i < |s|
    ensures i >= 0 ==> s[i] == c
    ensures forall j :: i < j < |s| ==> s[j] != c
  {
    if |s| == 0 then -1
    else if s[|s| - 1] == c then |s| - 1
    else LastIndexOf(s[..|s| - 1], c)
  }

  /** `PurePath(filename).suffix[1:]`: the text after the name's last dot,
      provided that dot is neither the name's first nor its last character;
      otherwise the empty string. */
  function FileExtension(filename: string): (ext: string)
    ensures '.' !in ext && '/' !in ext
  {
    var name := PathName(filename);
    var i := LastIndexOf(name, '.');
    if 0 < i < |name| - 1 then name[i + 1..] else ""
  }

  /** A plain file name `base.ext` has extension `ext`, whatever dots the
      base holds. */
  lemma FileExtensionOf(base: string, ext: string)
    requires base != "" && ext != ""
    requires '/' !in base && '/' !in ext && '.' !in ext
    ensures FileExtension(base + "." + ext) == ext
  {
    var name := base + "." + ext;
    assert '/' !in name by {
      assert forall k :: 0 <= k < |name| ==> name[k] == (if k < |base| then base[k] else if k == |base| then '.' else ext[k - |base| - 1]);
    }
    Text.SplitNoSeparator(name, '/');
    assert PathName(name) == name;
    var i := LastIndexOf(name, '.');
    assert name[|base|] == '.';
    assert forall j :: |base| < j < |name| ==> name[j] == ext[j - |base| - 1];
    assert name[|base| + 1..] == ext;
  }

  /** A name whose only dot is its first character (a hidden file) has no
      extension. */
  lemma HiddenFileHasNoExtension(rest: string)
    requires '/' !in rest && '.' !in rest && rest != ""
    ensures FileExtension("." + rest) == ""
  {
    var name := "." + rest;
    assert '/' !in name by {
      assert forall k :: 0 <= k < |name| ==> name[k] == (if k == 0 then '.' else rest[k - 1]);
    }
    Text.SplitNoSeparator(name, '/');
    assert PathName(name) == name;
    assert name[0] == '.';
    assert forall j :: 0 < j < |name| ==> name[j] == rest[j - 1];
  }

  /** No two documents of a course hold the same bytes. */
  ghost predicate UniqueUploads(docs: map<nat, Document>)
  {
    forall a, b :: a in docs && b in docs && a != b ==>
      docs[a].fileHash != docs[b].fileHash || docs[a].courseId != docs[b].courseId
  }

  predicate Uploaded(docs: map<nat, Document>, fileHash: string, course: int)
  {
    exists id :: id in docs && docs[id].fileHash == fileHash && docs[id].courseId == course
  }

  /** The upload's form and file part as the handler sees them. */
  datatype Upload = Upload(hasFilePart: bool, filename: string, name: string, course: int, fileHash: string)

  /** The checks made before anything is written, in their order: a missing
      file part, an empty file name, bytes already uploaded to the course, and
      a file the parser rejects. */
  function UploadGuard(docs: map<nat, Document>, u: Upload, parse: (string, string) -> Option<seq<string>>): int
  {
    if !u.hasFilePart || u.filename == "" then BAD_REQUEST
    else if Uploaded(docs, u.fileHash, u.course) then BAD_REQUEST
    else if parse(u.fileHash, FileExtension(u.filename)).None? then BAD_REQUEST
    else FOUND
  }

  /** The row of a newly uploaded document: the given name, digest, course
      and extension, stored at `path`, active. */
  function NewDocument(u: Upload, path: string): (d: Document)
    ensures d.name == u.name && d.fileHash == u.fileHash && d.courseId == u.course && d.isActive
  {
    Document(u.name, u.fileHash, u.course, FileExtension(u.filename), path, true)
  }

  /** Chunk `k` of a document inserted at id `n` is the segment with id
      `n + 1 + 2k`; its embedding takes the id after it. */
  function SegmentId(n: nat, k: nat): nat
  {
    n + 1 + 2 * k
  }

  /** The segments table once the chunks of document `n` are inserted. */
  function WithSegments(segs: map<nat, Segment>, n: nat, chunks: seq<string>): map<nat, Segment>
  {
    if |chunks| == 0 then segs
    else WithSegments(segs, n, chunks[..|chunks| - 1])[SegmentId(n, |chunks| - 1) := Segment(chunks[|chunks| - 1], n)]
  }

  function NewEmbeddings(n: nat, chunks: seq<string>, embed: string -> Vector): (r: seq<Embedding>)
    ensures |r| == |chunks|
  {
    seq(|chunks|, k requires 0 <= k < |chunks| => Embedding(SegmentId(n, k) + 1, embed(chunks[k]), SegmentId(n, k)))
  }

  /** Each chunk becomes one segment of the new document holding its text,
      in order, under a fresh id; the rows already there are kept; and
      exactly one of the new embeddings belongs to each new segment. */
  lemma {:induction false} WithSegmentsSpec(segs: map<nat, Segment>, n: nat, chunks: seq<string>)
    requires forall id :: id in segs ==> id <= n
    ensures var r := WithSegments(segs, n, chunks);
      && (forall id :: id in r <==> id in segs || exists k :: 0 <= k < |chunks| && id == SegmentId(n, k))
      && (forall id :: id in segs ==> r[id] == segs[id])
      && (forall k :: 0 <= k < |chunks| ==> r[SegmentId(n, k)] == Segment(chunks[k], n))
  {
    if |chunks| > 0 {
      var init := chunks[..|chunks| - 1];
      WithSegmentsSpec(segs, n, init);
      var r := WithSegments(segs, n, chunks);
      forall k | 0 <= k < |chunks|
        ensures r[SegmentId(n, k)] == Segment(chunks[k], n)
      {
        if k < |init| {
          assert init[k] == chunks[k];
        }
      }
    }
  }

  lemma IngestedEmbeddings(n: nat, chunks: seq<string>, embed: string -> Vector, k: nat)
    requires k < |chunks|
    ensures forall j :: 0 <= j < |chunks| && NewEmbeddings(n, chunks, embed)[j].segmentId == SegmentId(n, k) ==> j == k
    ensures NewEmbeddings(n, chunks, embed)[k].vector == embed(chunks[k])
  {
  }

  lemma NewEmbeddingsSnoc(n: nat, chunks: seq<string>, c: string, embed: string -> Vector)
    ensures NewEmbeddings(n, chunks + [c], embed)
         == NewEmbeddings(n, chunks, embed) + [Embedding(SegmentId(n, |chunks|) + 1, embed(c), SegmentId(n, |chunks|))]
  {
    var a := NewEmbeddings(n, chunks + [c], embed);
    var b := NewEmbeddings(n, chunks, embed) + [Embedding(SegmentId(n, |chunks|) + 1, embed(c), SegmentId(n, |chunks|))];
    assert forall k :: 0 <= k < |a| ==> a[k] == b[k];
  }

  /** `post_document` after the instructor check. Returns the status and,
      on success, the path the bytes are then saved at. */
  method PostDocument(db: Database, u: Upload, parse: (string, string) -> Option<seq<string>>,
                      embed: string -> Vector, storagePath: nat -> string)
    returns (status: int, saved: Option<string>)
    requires db.Valid()
    modifies db`documents, db`segments, db`embeddings, db`nextId
    ensures db.Valid()
    ensures status == UploadGuard(old(db.documents), u, parse)
    ensures status != FOUND ==>
      && saved.None?
      && db.documents == old(db.documents) && db.segments == old(db.segments)
      && db.embeddings == old(db.embeddings) && db.nextId == old(db.nextId)
    ensures status == FOUND ==>
      var n := old(db.nextId);
      var chunks := parse(u.fileHash, FileExtension(u.filename)).value;
      && saved == Some(storagePath(n))
      && db.documents == old(db.documents)[n := NewDocument(u, storagePath(n))]
      && db.segments == WithSegments(old(db.segments), n, chunks)
      && db.embeddings == old(db.embeddings) + NewEmbeddings(n, chunks, embed)
      && db.nextId == n + 1 + 2 * |chunks|
  {
    if !u.hasFilePart || u.filename == "" {
      return BAD_REQUEST, None;
    }
    if Uploaded(db.documents, u.fileHash, u.course) {
      return BAD_REQUEST, None;
    }
    var parsed := parse(u.fileHash, FileExtension(u.filename));
    if parsed.None? {
      return BAD_REQUEST, None;
    }
    var chunks := parsed.value;
    var n := db.nextId;
    db.documents := db.documents[n := NewDocument(u, storagePath(n))];
    db.nextId := n + 1;
    InsertChunks(db, n, chunks, embed);
    status, saved := FOUND, Some(storagePath(n));
  }

  /** The segment loop: for each chunk, a segment of document `docId` and its
      embedding, each under the next id. */
  method InsertChunks(db: Database, docId: nat, chunks: seq<string>, embed: string -> Vector)
    requires db.Valid() && db.nextId == docId + 1
    modifies db`segments, db`embeddings, db`nextId
    ensures db.Valid()
    ensures db.segments == WithSegments(old(db.segments), docId, chunks)
    ensures db.embeddings == old(db.embeddings) + NewEmbeddings(docId, chunks, embed)
    ensures db.nextId == docId + 1 + 2 * |chunks|
  {
    var segs, embs := AddChunks(db.segments, db.embeddings, docId, chunks, embed);
    ChunksFresh(db.segments, db.embeddings, db.nextId, docId, chunks, embed);
    db.segments, db.embeddings, db.nextId := segs, embs, docId + 1 + 2 * |chunks|;
  }

  method AddChunks(segs0: map<nat, Segment>, embs0: seq<Embedding>, docId: nat, chunks: seq<string>, embed: string -> Vector)
    returns (segs: map<nat, Segment>, embs: seq<Embedding>)
    ensures segs == WithSegments(segs0, docId, chunks)
    ensures embs == embs0 + NewEmbeddings(docId, chunks, embed)
  {
    segs, embs := segs0, embs0;
    var next := docId + 1;
    for i := 0 to |chunks|
      invariant next == SegmentId(docId, i)
      invariant segs == WithSegments(segs0, docId, chunks[..i])
      invariant embs == embs0 + NewEmbeddings(docId, chunks[..i], embed)
    {
      assert chunks[..i + 1] == chunks[..i] + [chunks[i]];
      NewEmbeddingsSnoc(docId, chunks[..i], chunks[i], embed);
      segs := segs[next := Segment(chunks[i], docId)];
      embs := embs + [Embedding(next + 1, embed(chunks[i]), next)];
      next := next + 2;
    }
    assert chunks[..|chunks|] == chunks;
  }

  /** Every id the loop hands out lies between the document's and the new
      value of the counter. */
  lemma ChunksFresh(segs: map<nat, Segment>, embs: seq<Embedding>, nextId: nat, docId: nat, chunks: seq<string>, embed: string -> Vector)
    requires nextId == docId + 1
    requires forall id :: id in segs ==> id < nextId
    requires forall i :: 0 <= i < |embs| ==> embs[i].id < nextId
    ensures forall id :: id in WithSegments(segs, docId, chunks) ==> id < docId + 1 + 2 * |chunks|
    ensures var all := embs + NewEmbeddings(docId, chunks, embed);
      forall i :: 0 <= i < |all| ==> all[i].id < docId + 1 + 2 * |chunks|
  {
    WithSegmentsSpec(segs, docId, chunks);
  }

  /** An upload never creates a second copy of the same bytes in a course. */
  lemma UploadKeepsUnique(docs: map<nat, Document>, u: Upload, parse: (string, string) -> Option<seq<string>>, n: nat, path: string)
    requires UniqueUploads(docs) && n !in docs
    requires UploadGuard(docs, u, parse) == FOUND
    ensures UniqueUploads(docs[n := NewDocument(u, path)])
  {
  }

  /** `delete_document`: 404 for an unknown id; otherwise the row goes and
      its stored file is to be removed. */
  method DeleteDocument(db: Database, id: nat) returns (status: int, removed: Option<string>)
    modifies db`documents
    ensures id !in old(db.documents) ==> status == NOT_FOUND && removed.None? && db.documents == old(db.documents)
    ensures id in old(db.documents) ==>
      && status == NO_CONTENT
      && removed == Some(old(db.documents)[id].filePath)
      && db.documents == old(db.documents) - {id}
  {
    if id !in db.documents {
      return NOT_FOUND, None;
    }
    removed := Some(db.documents[id].filePath);
    db.documents := db.documents - {id};
    status := NO_CONTENT;
  }
}
