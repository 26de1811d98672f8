/**
 * The knowledge base (agents/knowledge_base/core.py): a dictionary of entries keyed by
 * knowledge id, with add, update, get and delete, a case-insensitive substring search cut
 * to `top_k`, and a backup that hands out the store.
 *
 * Ids and timestamps come from the clock in the source; here they are parameters. Text is
 * cut with the corrected chunker where the configured sizes allow it, since the one as
 * written does not return on content longer than one chunk; other sizes keep the chunker
 * as written, on the content it returns for.
 */
module KnowledgeBaseCore {
  import opened Wrappers
  import opened Text
  import opened PyValues
  import opened KnowledgeBaseUtils

  /** A stored entry: what was given, its chunks, when it was added and, once updated, when. */
  datatype Entry = Entry(content: string, metadata: Value, source: Value, chunks: seq<string>,
                         timestamp: string, updatedAt: Option<string>)

  /** What `add_knowledge` and `update_knowledge` return. */
  datatype Receipt = Receipt(knowledgeId: string, chunksCount: nat)

  /** One search hit; the relevance score is always 1.0. */
  datatype Hit = Hit(knowledgeId: string, content: string, metadata: Value, relevanceScore: real)

  /** What `backup_knowledge` returns (its timestamp left out). */
  datatype Backup = BackupDisabled | BackupSuccess(knowledgeStore: seq<Pair<string, Entry>>, embeddings: seq<Pair<string, seq<real>>>)

  const InvalidInput: string := "Invalid knowledge input format"

  function NotFound(knowledgeId: string): string {
    "Knowledge ID " + knowledgeId + " not found"
  }

  /** The value under `key`, where the input has one. */
  function Field(data: PyDict, key: string): Value {
    match Get(data, key)
    case Some(v) => v
    case None => PyNone
  }

  /** Content that is text; `process_chunk` takes the length of it and search lowers it. */
  predicate ContentIsText(data: PyDict) {
    Field(data, "content").Str?
  }

  /** Content the knowledge base can store with the given sizes: text on which the
      chunking returns. */
  predicate Storable(data: PyDict, chunkSize: int, chunkOverlap: int) {
    ContentIsText(data) && ChunkingReturns(|ContentOf(data)|, chunkSize, chunkOverlap)
  }

  /** The text of `data['content']`. */
  function ContentOf(data: PyDict): string {
    match Field(data, "content")
    case Str(s) => s
    case _ => ""
  }

  /** The entry `add_knowledge` and `update_knowledge` build from valid input. */
  function EntryFrom(data: PyDict, chunks: seq<string>, timestamp: string, updatedAt: Option<string>): Entry {
    Entry(ContentOf(data), Field(data, "metadata"), Field(data, "source"), chunks, timestamp, updatedAt)
  }

  /** `query.lower() in content.lower()`. */
  predicate Matches(query: string, e: Entry) {
    Contains(Lower(e.content), Lower(query))
  }

  /** The hits for `query` over the entries of `store`, in store order. */
  function Search(store: seq<Pair<string, Entry>>, query: string): seq<Hit> {
    if store == [] then []
    else
      var last := store[|store| - 1];
      Search(store[..|store| - 1], query)
      + (if Matches(query, last.val) then [Hit(last.key, last.val.content, last.val.metadata, 1.0)] else [])
  }

  /** A hit is exactly an entry of the store whose content contains the query, ignoring
      case; hits keep the store's order. */
  lemma {:induction false} SearchSpec(store: seq<Pair<string, Entry>>, query: string)
    ensures forall h :: h in Search(store, query) <==>
              exists i :: 0 <= i < |store| && Matches(query, store[i].val)
                          && h == Hit(store[i].key, store[i].val.content, store[i].val.metadata, 1.0)
    ensures |Search(store, query)| <= |store|
  {
    if store != [] {
      var p := store[..|store| - 1];
      SearchSpec(p, query);
      assert forall i :: 0 <= i < |p| ==> p[i] == store[i];
    }
  }

  /** Entries found in store order: a search over two parts of a store is the search over
      the first followed by the search over the second. */
  lemma {:induction false} SearchAppend(a: seq<Pair<string, Entry>>, b: seq<Pair<string, Entry>>, query: string)
    ensures Search(a + b, query) == Search(a, query) + Search(b, query)
    decreases |b|
  {
    if b != [] {
      var b' := b[..|b| - 1];
      assert (a + b)[..|a + b| - 1] == a + b';
      assert (a + b)[|a + b| - 1] == b[|b| - 1];
      SearchAppend(a, b', query);
    } else {
      assert a + b == a;
    }
  }

  class KnowledgeBase {
    const chunkSize: int
    const chunkOverlap: int
    const topK: int
    const backupEnabled: bool
    var knowledgeStore: seq<Pair<string, Entry>>
    var embeddings: seq<Pair<string, seq<real>>>

    /** Both dictionaries hold each key once. */
    ghost predicate Valid()
      reads this
    {
      DistinctKeys(knowledgeStore) && DistinctKeys(embeddings)
    }

    /** `KnowledgeBase(config)`: any sizes are accepted; they only matter once content is
        chunked. */
    constructor(chunkSize: int, chunkOverlap: int, topK: int, backupEnabled: bool)
      ensures Valid() && knowledgeStore == [] && embeddings == []
      ensures this.chunkSize == chunkSize && this.chunkOverlap == chunkOverlap
      ensures this.topK == topK && this.backupEnabled == backupEnabled
    {
      this.chunkSize := chunkSize;
      this.chunkOverlap := chunkOverlap;
      this.topK := topK;
      this.backupEnabled := backupEnabled;
      knowledgeStore := [];
      embeddings := [];
    }

    /** `add_knowledge(data)` under the id `knowledgeId` at time `now`: input without
        content, metadata or source is refused with `ValueError` and nothing changes;
        otherwise the entry is stored under the id (replacing one already there) and the
        number of chunks is returned. */
    method AddKnowledge(data: PyDict, knowledgeId: string, now: string) returns (r: Result<Receipt, string>)
      requires Valid() && (ValidateKnowledgeInput(data) ==> Storable(data, chunkSize, chunkOverlap))
      modifies this
      ensures Valid() && embeddings == old(embeddings)
      ensures !ValidateKnowledgeInput(data) ==> r == Err(InvalidInput) && knowledgeStore == old(knowledgeStore)
      ensures ValidateKnowledgeInput(data) ==>
                var chunks := StoredChunks(ContentOf(data), chunkSize, chunkOverlap);
                r == Ok(Receipt(knowledgeId, |chunks|))
                && knowledgeStore == Put(old(knowledgeStore), knowledgeId, EntryFrom(data, chunks, now, None))
    {
      if !ValidateKnowledgeInput(data) {
        return Err(InvalidInput);
      }
      var chunks := ChunkContent(ContentOf(data), chunkSize, chunkOverlap);
      PutDistinct(knowledgeStore, knowledgeId, EntryFrom(data, chunks, now, None));
      knowledgeStore := Put(knowledgeStore, knowledgeId, EntryFrom(data, chunks, now, None));
      r := Ok(Receipt(knowledgeId, |chunks|));
    }

    /** `retrieve_knowledge(query, top_k)`: the entries whose content contains the query,
        ignoring case, in store order (sorting by the constant score keeps that order), cut
        with `[:top_k]`; an omitted `top_k` is the configured one. */
    method RetrieveKnowledge(query: string, topK: Option<int>) returns (results: seq<Hit>)
      ensures var k := if topK.None? then this.topK else topK.value;
              results == Slice(Search(knowledgeStore, query), 0, k)
    {
      var k := if topK.None? then this.topK else topK.value;
      var found: seq<Hit> := [];
      var i := 0;
      while i < |knowledgeStore|
        invariant 0 <= i <= |knowledgeStore|
        invariant found == Search(knowledgeStore[..i], query)
      {
        var e := knowledgeStore[i];
        assert knowledgeStore[..i + 1][..i] == knowledgeStore[..i];
        if Contains(Lower(e.val.content), Lower(query)) {
          found := found + [Hit(e.key, e.val.content, e.val.metadata, 1.0)];
        }
        i := i + 1;
      }
      assert knowledgeStore[..i] == knowledgeStore;
      results := Slice(found, 0, k);
    }

    /** `update_knowledge(id, data)` at time `now`: an unknown id is refused first, then
        input missing a field; either way nothing changes. Otherwise the entry keeps its
        place and its original timestamp, gets the new content, metadata, source and chunks,
        and records `now` as its update time. */
    method UpdateKnowledge(knowledgeId: string, data: PyDict, now: string) returns (r: Result<Receipt, string>)
      requires Valid()
      requires knowledgeId in Keys(knowledgeStore) && ValidateKnowledgeInput(data) ==> Storable(data, chunkSize, chunkOverlap)
      modifies this
      ensures Valid() && embeddings == old(embeddings)
      ensures knowledgeId !in Keys(old(knowledgeStore)) ==> r == Err(NotFound(knowledgeId)) && knowledgeStore == old(knowledgeStore)
      ensures knowledgeId in Keys(old(knowledgeStore)) && !ValidateKnowledgeInput(data) ==>
                r == Err(InvalidInput) && knowledgeStore == old(knowledgeStore)
      ensures knowledgeId in Keys(old(knowledgeStore)) && ValidateKnowledgeInput(data) ==>
                var chunks := StoredChunks(ContentOf(data), chunkSize, chunkOverlap);
                var added := match Get(old(knowledgeStore), knowledgeId) case Some(e) => e.timestamp case None => "";
                r == Ok(Receipt(knowledgeId, |chunks|))
                && Keys(knowledgeStore) == Keys(old(knowledgeStore))
                && knowledgeStore == Put(old(knowledgeStore), knowledgeId, EntryFrom(data, chunks, added, Some(now)))
    {
      GetSpec(knowledgeStore, knowledgeId);
      if knowledgeId !in Keys(knowledgeStore) {
        return Err(NotFound(knowledgeId));
      }
      if !ValidateKnowledgeInput(data) {
        return Err(InvalidInput);
      }
      var chunks := ChunkContent(ContentOf(data), chunkSize, chunkOverlap);
      var before := Get(knowledgeStore, knowledgeId).value;
      var after := EntryFrom(data, chunks, before.timestamp, Some(now));
      PutDistinct(knowledgeStore, knowledgeId, after);
      PutKeys(knowledgeStore, knowledgeId, after);
      knowledgeStore := Put(knowledgeStore, knowledgeId, after);
      r := Ok(Receipt(knowledgeId, |chunks|));
    }

    /** `get_knowledge(id)`: the stored entry, or `None` for an unknown id. */
    function GetKnowledge(knowledgeId: string): (r: Option<Entry>)
      reads this
      ensures r.None? <==> knowledgeId !in Keys(knowledgeStore)
      ensures r.Some? ==> Pair(knowledgeId, r.value) in knowledgeStore
    {
      GetSpec(knowledgeStore, knowledgeId);
      Get(knowledgeStore, knowledgeId)
    }

    /** `delete_knowledge(id)`: a known id is removed from the store and from the
        embeddings, and the answer is true; an unknown id changes nothing and gets false. */
    method DeleteKnowledge(knowledgeId: string) returns (deleted: bool)
      requires Valid()
      modifies this
      ensures Valid()
      ensures deleted <==> knowledgeId in Keys(old(knowledgeStore))
      ensures deleted ==> knowledgeStore == Remove(old(knowledgeStore), knowledgeId)
                          && embeddings == Remove(old(embeddings), knowledgeId)
      ensures !deleted ==> knowledgeStore == old(knowledgeStore) && embeddings == old(embeddings)
    {
      if knowledgeId in Keys(knowledgeStore) {
        RemoveDistinct(knowledgeStore, knowledgeId);
        knowledgeStore := Remove(knowledgeStore, knowledgeId);
        if knowledgeId in Keys(embeddings) {
          RemoveDistinct(embeddings, knowledgeId);
          embeddings := Remove(embeddings, knowledgeId);
        } else {
          RemoveAbsent(embeddings, knowledgeId);
        }
        return true;
      }
      return false;
    }

    /** `backup_knowledge()`: `backup_disabled` when backups are switched off, otherwise
        the current store and embeddings. */
    function BackupKnowledge(): (r: Backup)
      reads this
      ensures r.BackupDisabled? <==> !backupEnabled
      ensures r.BackupSuccess? ==> r.knowledgeStore == knowledgeStore && r.embeddings == embeddings
    {
      if !backupEnabled then BackupDisabled else BackupSuccess(knowledgeStore, embeddings)
    }
  }

  /** Removing a key that is not there changes nothing. */
  lemma {:induction false} RemoveAbsent<K, V>(d: seq<Pair<K, V>>, k: K)
    requires k !in Keys(d)
    ensures Remove(d, k) == d
  {
    if d != [] {
      assert Keys(d) == [d[0].key] + Keys(d[1..]);
      RemoveAbsent(d[1..], k);
    }
  }

  /** The search result holds at most `top_k` hits for a non-negative `top_k`, all of them
      matches; the first `top_k` matches in store order when there are more. */
  lemma RetrieveSpec(store: seq<Pair<string, Entry>>, query: string, k: int)
    requires k >= 0
    ensures var results := Slice(Search(store, query), 0, k);
            |results| <= k
            && results == Search(store, query)[..if k < |Search(store, query)| then k else |Search(store, query)|]
            && forall h :: h in results ==> h in Search(store, query)
  {
    SlicePrefix(Search(store, query), k);
  }
}
