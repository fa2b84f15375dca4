/**
 * The bookkeeping of `ingest_documents`: which files are read, the chunk
 * text, id and metadata collected for every chunk, and the batches of 100
 * handed to the vector store.
 */
module Ingest {
  import opened PyText
  import opened Chunker

  /** `Config.CHUNK_SIZE`: the chunk budget in tokens. */
  const ChunkSize: int := 800

  /** `Config.CHUNK_OVERLAP`: the overlap between windows in tokens. */
  const ChunkOverlap: int := 100

  /** How many chunks one upsert carries. */
  const BatchSize: nat := 100

  /** How many leading characters of a chunk go into its id. */
  const IdPrefixLength: nat := 100

  /** The file suffixes that are read, in lower case. */
  const SupportedExtensions: set<string> := {".txt", ".md", ".json", ".dql", ".yaml", ".yml"}

  /** A file under the documents directory: its name (the last path component) and its decoded text. */
  datatype SourceFile = SourceFile(name: string, text: string)

  /** The metadata stored with a chunk. */
  datatype Metadata = Metadata(source: string, chunkIndex: nat, totalChunks: nat)

  /** A value of a metadata dictionary as the vector store hands it back. */
  datatype MetaValue = Text(text: string) | Number(number: int)

  /** The dictionary `{"source": ..., "chunk_index": ..., "total_chunks": ...}` stored for a chunk. */
  function AsDict(m: Metadata): (d: map<string, MetaValue>)
    ensures d.Keys == {"source", "chunk_index", "total_chunks"}
    ensures d["source"] == Text(m.source)
    ensures d["chunk_index"] == Number(m.chunkIndex) && d["total_chunks"] == Number(m.totalChunks)
  {
    map["source" := Text(m.source), "chunk_index" := Number(m.chunkIndex), "total_chunks" := Number(m.totalChunks)]
  }

  /** One collected chunk: its text, its id and its metadata. */
  datatype Entry = Entry(document: string, id: string, metadata: Metadata)

  /** One upsert call: aligned slices of the ids, the documents and the metadata. */
  datatype Batch = Batch(ids: seq<string>, documents: seq<string>, metadatas: seq<Metadata>)

  // ---------------------------------------------------------------------------
  // The file filter
  // ---------------------------------------------------------------------------

  /** `Path(name).suffix`: the name from its last dot on, unless that dot is its first or last character. */
  function Suffix(name: string): string
  {
    var i := RFind(name, ".", 0, |name|);
    if 0 < i < |name| - 1 then name[i..] else ""
  }

  /** `name[n]` is its last dot, with at least one character before it and one after it. */
  predicate ExtensionAt(name: string, n: int)
  {
    0 < n < |name| - 1 && name[n] == '.' && forall k :: n < k < |name| ==> name[k] != '.'
  }

  /** The suffix is what follows the last dot when that dot is inside the name, and empty otherwise. */
  lemma SuffixIsExtension(name: string)
    ensures Suffix(name) != "" <==> exists n :: ExtensionAt(name, n)
    ensures forall n :: ExtensionAt(name, n) ==> Suffix(name) == name[n..]
  {
    var i := RFind(name, ".", 0, |name|);
    RFindIsLast(name, ".", 0, |name|);
    forall n | ExtensionAt(name, n)
      ensures i == n
    {
      assert i != -1 ==> name[i..i + 1][0] == name[i];
      assert name[n..n + 1] == ".";
      assert OccursAt(name, ".", n);
    }
    if 0 < i < |name| - 1 {
      assert name[i..i + 1] == ".";
      forall k | i < k < |name|
        ensures name[k] != '.'
      {
        if name[k] == '.' {
          assert name[k..k + 1] == ".";
          assert OccursAt(name, ".", k);
        }
      }
      assert ExtensionAt(name, i);
    }
  }

  /** `c.lower()` for ASCII letters; other characters are left alone. */
  function LowerChar(c: char): char
  {
    if 'A' <= c <= 'Z' then (c as int + ('a' as int - 'A' as int)) as char else c
  }

  /** `s.lower()`, letter by letter. */
  function Lower(s: string): string
  {
    seq(|s|, k requires 0 <= k < |s| => LowerChar(s[k]))
  }

  /** `x` and `y` are the same string up to the case of ASCII letters. */
  predicate SameIgnoringCase(x: string, y: string)
  {
    |x| == |y| && forall k :: 0 <= k < |x| ==> LowerChar(x[k]) == LowerChar(y[k])
  }

  /** Lower-casing twice is lower-casing once. */
  lemma LowerIdempotent(s: string)
    ensures Lower(Lower(s)) == Lower(s)
  {
    assert forall k :: 0 <= k < |s| ==> Lower(Lower(s))[k] == Lower(s)[k];
  }

  /**
   * A suffix lower-cases to a supported one exactly when it is a supported
   * suffix written in any mix of upper and lower case.
   */
  lemma LowerMatchesIgnoringCase(x: string)
    ensures Lower(x) in SupportedExtensions <==> exists e :: e in SupportedExtensions && SameIgnoringCase(x, e)
  {
    forall e | e in SupportedExtensions
      ensures Lower(e) == e
    {
      assert forall k :: 0 <= k < |e| ==> 'a' <= e[k] <= 'z' || e[k] == '.';
    }
    forall e | e in SupportedExtensions && SameIgnoringCase(x, e)
      ensures Lower(x) == e
    {
      assert Lower(x) == Lower(e);
    }
    if Lower(x) in SupportedExtensions {
      LowerIdempotent(x);
      assert SameIgnoringCase(x, Lower(x));
    }
  }

  /** The first test of `ingest_documents`: the lower-cased suffix is a supported one. */
  predicate HasSupportedSuffix(name: string)
  {
    Lower(Suffix(name)) in SupportedExtensions
  }

  /** The second test of `ingest_documents`: the name starts with a dot. */
  predicate IsHidden(name: string)
  {
    name != [] && name[0] == '.'
  }

  /** The filter of `ingest_documents`: a supported suffix in any case, and not a hidden file. */
  predicate IsIngested(name: string)
  {
    HasSupportedSuffix(name) && !IsHidden(name)
  }

  /**
   * The filter keeps exactly the names that do not start with a dot and
   * whose last dot, inside the name, opens an extension that lower-cases to
   * a supported one.
   */
  lemma IngestedNames(name: string)
    ensures IsIngested(name) <==>
      name != [] && name[0] != '.' && exists n :: ExtensionAt(name, n) && Lower(name[n..]) in SupportedExtensions
  {
    SuffixIsExtension(name);
    assert Lower("") == "";
  }

  // ---------------------------------------------------------------------------
  // Chunk ids
  // ---------------------------------------------------------------------------

  /** The text hashed for a chunk id: `f"{name}:{i}:{chunk[:100]}"`. */
  function ChunkKey(name: string, index: nat, chunk: string): string
  {
    name + ":" + Decimal(index) + ":" + Prefix(chunk, IdPrefixLength)
  }

  /** The id of chunk `index` of file `name`: the hex digest `hash` gives for its key. */
  function ChunkId(hash: string -> string, name: string, index: nat, chunk: string): string
  {
    hash(ChunkKey(name, index, chunk))
  }

  /**
   * For file names without a colon, the key gives back the file name, the
   * chunk index and the first 100 characters of the chunk: two chunks get
   * the same key only when all three agree.
   */
  lemma ChunkKeyDetermines(n1: string, i1: nat, c1: string, n2: string, i2: nat, c2: string)
    requires ':' !in n1 && ':' !in n2
    requires ChunkKey(n1, i1, c1) == ChunkKey(n2, i2, c2)
    ensures n1 == n2 && i1 == i2 && Prefix(c1, IdPrefixLength) == Prefix(c2, IdPrefixLength)
  {
    var d1, d2 := Decimal(i1), Decimal(i2);
    var p1, p2 := Prefix(c1, IdPrefixLength), Prefix(c2, IdPrefixLength);
    var t1, t2 := [':'] + p1, [':'] + p2;
    var r1, r2 := [':'] + (d1 + t1), [':'] + (d2 + t2);
    assert ChunkKey(n1, i1, c1) == n1 + r1;
    assert ChunkKey(n2, i2, c2) == n2 + r2;
    SplitAtFirst(':', n1, r1, n2, r2);
    assert r1[1..] == d1 + t1 && r2[1..] == d2 + t2;
    assert ':' !in d1 && ':' !in d2;
    SplitAtFirst(':', d1, t1, d2, t2);
    DecimalInjective(i1, i2);
    assert p1 == t1[1..] && p2 == t2[1..];
  }

  /** When neither `a1` nor `a2` holds `c` and both `b1` and `b2` start with it, `a1 + b1 == a2 + b2` splits one way only. */
  lemma SplitAtFirst(c: char, a1: string, b1: string, a2: string, b2: string)
    requires c !in a1 && c !in a2 && b1 != [] && b2 != [] && b1[0] == c && b2[0] == c
    requires a1 + b1 == a2 + b2
    ensures a1 == a2 && b1 == b2
  {
    var s := a1 + b1;
    assert a1 == s[..|a1|] && a2 == s[..|a2|];
    assert b1 == s[|a1|..] && b2 == s[|a2|..];
  }

  // ---------------------------------------------------------------------------
  // The collected chunks
  // ---------------------------------------------------------------------------

  /** `chunk_text` with the configured budget and overlap. */
  function DocumentChunks(text: string): seq<string>
  {
    Chunks(text, ChunkSize, ChunkOverlap)
  }

  /**
   * The chunks `chunker` makes of a file that passes the filter; none for
   * any other file. The pipeline uses `DocumentChunks`; the facts about
   * collecting hold for any chunker.
   */
  function FileChunks(chunker: string -> seq<string>, f: SourceFile): seq<string>
  {
    if IsIngested(f.name) then chunker(f.text) else []
  }

  /** What the chunks `cs` of file `name` add: for chunk `i`, its text, its id and `{source, chunk_index: i, total_chunks}`. */
  function ChunkEntries(hash: string -> string, name: string, cs: seq<string>): seq<Entry>
  {
    seq(|cs|, i requires 0 <= i < |cs| => Entry(cs[i], ChunkId(hash, name, i, cs[i]), Metadata(name, i, |cs|)))
  }

  /** What one file adds. */
  function FileEntries(hash: string -> string, chunker: string -> seq<string>, f: SourceFile): seq<Entry>
  {
    ChunkEntries(hash, f.name, FileChunks(chunker, f))
  }

  /** The lists `per` gives for the elements of `xs`, one after the other. */
  function Flatten<A, B>(per: A -> seq<B>, xs: seq<A>): seq<B>
  {
    if xs == [] then [] else Flatten(per, xs[..|xs| - 1]) + per(xs[|xs| - 1])
  }

  /** Flattening `a + b` is flattening `a`, then `b`. */
  lemma {:induction false} FlattenAppend<A, B>(per: A -> seq<B>, a: seq<A>, b: seq<A>)
    ensures Flatten(per, a + b) == Flatten(per, a) + Flatten(per, b)
    decreases |b|
  {
    if b != [] {
      var init := b[..|b| - 1];
      assert (a + b)[..|a + b| - 1] == a + init;
      assert (a + b)[|a + b| - 1] == b[|b| - 1];
      FlattenAppend(per, a, init);
    } else {
      assert a + b == a;
    }
  }

  /** Flattening the first `j + 1` elements adds `per(xs[j])` to flattening the first `j`. */
  lemma FlattenPrefix<A, B>(per: A -> seq<B>, xs: seq<A>, j: nat)
    requires j < |xs|
    ensures Flatten(per, xs[..j + 1]) == Flatten(per, xs[..j]) + per(xs[j])
  {
    assert xs[..j + 1][..j] == xs[..j];
  }

  /** Flattening `xs` is flattening the elements before `j`, taking `per(xs[j])`, then flattening the rest. */
  lemma FlattenAround<A, B>(per: A -> seq<B>, xs: seq<A>, j: nat)
    requires j < |xs|
    ensures Flatten(per, xs) == Flatten(per, xs[..j]) + per(xs[j]) + Flatten(per, xs[j + 1..])
  {
    assert xs == xs[..j + 1] + xs[j + 1..];
    FlattenAppend(per, xs[..j + 1], xs[j + 1..]);
    FlattenPrefix(per, xs, j);
  }

  /** The element at offset `i` in `per(xs[j])` sits right after what the elements before `j` give. */
  lemma FlattenAt<A, B>(per: A -> seq<B>, xs: seq<A>, j: nat, i: nat)
    requires j < |xs| && i < |per(xs[j])|
    ensures var p := |Flatten(per, xs[..j])| + i;
      p < |Flatten(per, xs)| && Flatten(per, xs)[p] == per(xs[j])[i]
  {
    FlattenAround(per, xs, j);
  }

  /** An element for which `per` gives nothing can be left out. */
  lemma FlattenSkip<A, B>(per: A -> seq<B>, xs: seq<A>, j: nat)
    requires j < |xs| && per(xs[j]) == []
    ensures Flatten(per, xs) == Flatten(per, xs[..j] + xs[j + 1..])
  {
    FlattenAround(per, xs, j);
    FlattenAppend(per, xs[..j], xs[j + 1..]);
  }

  /** `FileEntries` for a given `hash`, as a function of the file. */
  function PerFile(hash: string -> string, chunker: string -> seq<string>): SourceFile -> seq<Entry>
  {
    f => FileEntries(hash, chunker, f)
  }

  /** Everything collected from `files`, file after file. */
  function Entries(hash: string -> string, chunker: string -> seq<string>, files: seq<SourceFile>): seq<Entry>
  {
    Flatten(PerFile(hash, chunker), files)
  }

  /** The chunk texts of `es`, in order (`all_chunks`). */
  function Documents(es: seq<Entry>): (r: seq<string>)
    ensures |r| == |es| && forall k :: 0 <= k < |es| ==> r[k] == es[k].document
  {
    if es == [] then [] else Documents(es[..|es| - 1]) + [es[|es| - 1].document]
  }

  /** The chunk ids of `es`, in order (`all_ids`). */
  function Ids(es: seq<Entry>): (r: seq<string>)
    ensures |r| == |es| && forall k :: 0 <= k < |es| ==> r[k] == es[k].id
  {
    if es == [] then [] else Ids(es[..|es| - 1]) + [es[|es| - 1].id]
  }

  /** The chunk metadata of `es`, in order (`all_metadata`). */
  function Metadatas(es: seq<Entry>): (r: seq<Metadata>)
    ensures |r| == |es| && forall k :: 0 <= k < |es| ==> r[k] == es[k].metadata
  {
    if es == [] then [] else Metadatas(es[..|es| - 1]) + [es[|es| - 1].metadata]
  }

  /** Appending one entry appends one element to each of the three lists. */
  lemma ProjectionsAppend(es: seq<Entry>, e: Entry)
    ensures Documents(es + [e]) == Documents(es) + [e.document]
    ensures Ids(es + [e]) == Ids(es) + [e.id]
    ensures Metadatas(es + [e]) == Metadatas(es) + [e.metadata]
  {
    assert (es + [e])[..|es|] == es;
  }

  /** Taking one more element of `a` after `p` appends that element. */
  lemma PrefixGrows<T>(p: seq<T>, a: seq<T>, i: nat)
    requires i < |a|
    ensures p + a[..i + 1] == (p + a[..i]) + [a[i]]
  {
    assert a[..i + 1] == a[..i] + [a[i]];
  }

  /** Collecting from `a + b` is collecting from `a`, then from `b`. */
  lemma EntriesAppend(hash: string -> string, chunker: string -> seq<string>, a: seq<SourceFile>, b: seq<SourceFile>)
    ensures Entries(hash, chunker, a + b) == Entries(hash, chunker, a) + Entries(hash, chunker, b)
  {
    FlattenAppend(PerFile(hash, chunker), a, b);
  }

  /** Collecting from `files` is collecting from the files before `j`, from file `j`, then from the rest. */
  lemma EntriesAround(hash: string -> string, chunker: string -> seq<string>, files: seq<SourceFile>, j: nat)
    requires j < |files|
    ensures Entries(hash, chunker, files) ==
      Entries(hash, chunker, files[..j]) + FileEntries(hash, chunker, files[j]) + Entries(hash, chunker, files[j + 1..])
  {
    FlattenAround(PerFile(hash, chunker), files, j);
  }

  /**
   * Chunk `i` of file `j` sits right after everything collected from the
   * files before it: its text is the file's chunk `i`, its metadata names
   * the file, the index `i` and the file's chunk count, and its id hashes
   * the file name, `i` and the chunk.
   */
  lemma EntryOfFile(hash: string -> string, chunker: string -> seq<string>, files: seq<SourceFile>, j: nat, i: nat)
    requires j < |files| && i < |FileChunks(chunker, files[j])|
    ensures var es := Entries(hash, chunker, files);
      var f := files[j];
      var c := FileChunks(chunker, f)[i];
      var p := |Entries(hash, chunker, files[..j])| + i;
      p < |es| && es[p] == Entry(c, ChunkId(hash, f.name, i, c), Metadata(f.name, i, |FileChunks(chunker, f)|))
  {
    var f := files[j];
    var cs := FileChunks(chunker, f);
    var e := Entry(cs[i], ChunkId(hash, f.name, i, cs[i]), Metadata(f.name, i, |cs|));
    assert i < |PerFile(hash, chunker)(f)| && PerFile(hash, chunker)(f)[i] == e by {
      FileEntryAt(hash, chunker, f, i);
    }
    EntriesAt(hash, chunker, files, j, i);
  }

  /** Entry `i` of file `j` sits right after everything collected from the files before it. */
  lemma EntriesAt(hash: string -> string, chunker: string -> seq<string>, files: seq<SourceFile>, j: nat, i: nat)
    requires j < |files| && i < |PerFile(hash, chunker)(files[j])|
    ensures var p := |Entries(hash, chunker, files[..j])| + i;
      p < |Entries(hash, chunker, files)| && Entries(hash, chunker, files)[p] == PerFile(hash, chunker)(files[j])[i]
  {
    FlattenAt(PerFile(hash, chunker), files, j, i);
  }

  lemma FileEntryAt(hash: string -> string, chunker: string -> seq<string>, f: SourceFile, i: nat)
    requires i < |FileChunks(chunker, f)|
    ensures |FileEntries(hash, chunker, f)| == |FileChunks(chunker, f)|
    ensures FileEntries(hash, chunker, f)[i] == Entry(FileChunks(chunker, f)[i], ChunkId(hash, f.name, i, FileChunks(chunker, f)[i]), Metadata(f.name, i, |FileChunks(chunker, f)|))
  {
  }

  /**
   * `e` is a chunk of file `f`, which passes the filter: its metadata names
   * the file, an index below the file's chunk count and that count, its
   * text is the file's chunk at that index and its id is that chunk's id.
   */
  predicate ChunkOf(hash: string -> string, chunker: string -> seq<string>, f: SourceFile, e: Entry)
  {
    var cs := FileChunks(chunker, f);
    IsIngested(f.name) &&
    e.metadata.source == f.name && e.metadata.totalChunks == |cs| && e.metadata.chunkIndex < |cs| &&
    e.document == cs[e.metadata.chunkIndex] &&
    e.id == ChunkId(hash, f.name, e.metadata.chunkIndex, e.document)
  }

  /** Every entry a file adds is one of its chunks. */
  lemma FileEntriesAreChunks(hash: string -> string, chunker: string -> seq<string>, f: SourceFile)
    ensures forall e :: e in FileEntries(hash, chunker, f) ==> ChunkOf(hash, chunker, f, e)
  {
    var es := FileEntries(hash, chunker, f);
    forall e | e in es
      ensures ChunkOf(hash, chunker, f, e)
    {
      var i :| 0 <= i < |es| && es[i] == e;
    }
  }

  /** Every collected chunk comes from a file that passes the filter, and its metadata points back to it. */
  lemma {:induction false} EntriesFromIngestedFiles(hash: string -> string, chunker: string -> seq<string>, files: seq<SourceFile>)
    ensures forall e :: e in Entries(hash, chunker, files) ==>
      exists j :: 0 <= j < |files| && ChunkOf(hash, chunker, files[j], e)
  {
    if files != [] {
      var init := files[..|files| - 1];
      var last := |files| - 1;
      EntriesFromIngestedFiles(hash, chunker, init);
      FileEntriesAreChunks(hash, chunker, files[last]);
      forall e | e in Entries(hash, chunker, files)
        ensures exists j :: 0 <= j < |files| && ChunkOf(hash, chunker, files[j], e)
      {
        if e in Entries(hash, chunker, init) {
          var j :| 0 <= j < |init| && ChunkOf(hash, chunker, init[j], e);
          assert files[j] == init[j];
        } else {
          assert ChunkOf(hash, chunker, files[last], e);
        }
      }
    }
  }

  /** A chunk of a document is never empty and has no whitespace at either end. */
  lemma DocumentChunkIsStripped(text: string, c: string)
    requires c in DocumentChunks(text)
    ensures c != [] && Strip(c) == c
  {
    ChunksAreStrippedWindows(text, ChunkSize, ChunkOverlap);
  }

  /** No collected chunk text is empty or starts or ends with whitespace. */
  lemma CollectedDocumentsAreStripped(hash: string -> string, files: seq<SourceFile>)
    ensures var es := Entries(hash, DocumentChunks, files);
      forall k :: 0 <= k < |es| ==> es[k].document != [] && Strip(es[k].document) == es[k].document
  {
    var es := Entries(hash, DocumentChunks, files);
    EntriesFromIngestedFiles(hash, DocumentChunks, files);
    forall k | 0 <= k < |es|
      ensures es[k].document != [] && Strip(es[k].document) == es[k].document
    {
      assert es[k] in es;
      var j :| 0 <= j < |files| && ChunkOf(hash, DocumentChunks, files[j], es[k]);
      var cs := DocumentChunks(files[j].text);
      assert es[k].document == cs[es[k].metadata.chunkIndex];
      DocumentChunkIsStripped(files[j].text, es[k].document);
    }
  }

  /** The text hashed into an entry's id, rebuilt from its metadata and its text. */
  function EntryKey(e: Entry): string
  {
    ChunkKey(e.metadata.source, e.metadata.chunkIndex, e.document)
  }

  /** Entries from different files, or with different indexes, have different keys. */
  lemma KeysDiffer(e1: Entry, e2: Entry)
    requires ':' !in e1.metadata.source && ':' !in e2.metadata.source
    requires e1.metadata.source != e2.metadata.source || e1.metadata.chunkIndex != e2.metadata.chunkIndex
    ensures EntryKey(e1) != EntryKey(e2)
  {
    if EntryKey(e1) == EntryKey(e2) {
      ChunkKeyDetermines(e1.metadata.source, e1.metadata.chunkIndex, e1.document,
                         e2.metadata.source, e2.metadata.chunkIndex, e2.document);
    }
  }

  /** No two files share a name, and no name holds a colon. */
  predicate PlainDistinctNames(files: seq<SourceFile>)
  {
    (forall j :: 0 <= j < |files| ==> ':' !in files[j].name) &&
    (forall a, b :: 0 <= a < b < |files| ==> files[a].name != files[b].name)
  }

  /**
   * When the files have distinct names without colons, no two collected
   * chunks share a key, so no two share an id unless the hash collides.
   */
  lemma {:induction false} EntryKeysDistinct(hash: string -> string, chunker: string -> seq<string>, files: seq<SourceFile>)
    requires PlainDistinctNames(files)
    ensures var es := Entries(hash, chunker, files);
      forall p, q :: 0 <= p < q < |es| ==> EntryKey(es[p]) != EntryKey(es[q])
  {
    if files != [] {
      var init := files[..|files| - 1];
      var last := files[|files| - 1];
      var before := Entries(hash, chunker, init);
      var added := FileEntries(hash, chunker, last);
      var es := Entries(hash, chunker, files);
      assert es == before + added;
      assert PlainDistinctNames(init);
      EntryKeysDistinct(hash, chunker, init);
      EntriesFromIngestedFiles(hash, chunker, init);
      forall p, q | 0 <= p < q < |es|
        ensures EntryKey(es[p]) != EntryKey(es[q])
      {
        if q >= |before| {
          assert es[q] == added[q - |before|];
          if p < |before| {
            assert es[p] in before;
            var j :| 0 <= j < |init| && ChunkOf(hash, chunker, init[j], es[p]);
            assert init[j] == files[j];
            KeysDiffer(es[p], es[q]);
          } else {
            assert es[p] == added[p - |before|];
            KeysDiffer(es[p], es[q]);
          }
        } else {
          assert es[p] == before[p] && es[q] == before[q];
        }
      }
    }
  }

  /** A file the filter drops contributes nothing: leaving it out changes nothing. */
  lemma SkippedFile(hash: string -> string, chunker: string -> seq<string>, files: seq<SourceFile>, j: nat)
    requires j < |files| && !IsIngested(files[j].name)
    ensures Entries(hash, chunker, files) == Entries(hash, chunker, files[..j] + files[j + 1..])
  {
    assert FileEntries(hash, chunker, files[j]) == [];
    FlattenSkip(PerFile(hash, chunker), files, j);
  }

  // ---------------------------------------------------------------------------
  // Batches
  // ---------------------------------------------------------------------------

  function Min(a: int, b: int): int
  {
    if a <= b then a else b
  }

  /** The slices `xs[i:i + 100]` for `i` in `range(start, len(xs), 100)`. */
  function Slices<T>(xs: seq<T>, start: nat): seq<seq<T>>
    decreases |xs| - start
  {
    if start >= |xs| then [] else [xs[start..Min(start + BatchSize, |xs|)]] + Slices(xs, start + BatchSize)
  }

  /** The elements of the slices, in order. */
  function Concat<T>(xss: seq<seq<T>>): seq<T>
  {
    if xss == [] then [] else xss[0] + Concat(xss[1..])
  }

  /** There is a `k`-th slice exactly when `start + 100*k` lies inside `xs`. */
  lemma {:induction false} SlicesCount<T>(xs: seq<T>, start: nat)
    ensures forall k: nat :: k < |Slices(xs, start)| <==> start + k * BatchSize < |xs|
    decreases |xs| - start
  {
    if start < |xs| {
      SlicesCount(xs, start + BatchSize);
      forall k: nat
        ensures k < |Slices(xs, start)| <==> start + k * BatchSize < |xs|
      {
        if k > 0 {
          assert start + BatchSize + (k - 1) * BatchSize == start + k * BatchSize;
        }
      }
    }
  }

  /** Lists of the same length are cut into the same number of slices. */
  lemma {:induction false} SlicesSameCount<T, U>(xs: seq<T>, ys: seq<U>, start: nat)
    requires |xs| == |ys|
    ensures |Slices(xs, start)| == |Slices(ys, start)|
    decreases |xs| - start
  {
    if start < |xs| {
      SlicesSameCount(xs, ys, start + BatchSize);
    }
  }

  /** The `k`-th slice from `start` is `xs[start + 100*k : start + 100*k + 100]`. */
  lemma {:induction false} SlicesAt<T>(xs: seq<T>, start: nat)
    ensures var ss := Slices(xs, start);
      forall k :: 0 <= k < |ss| ==>
        start + k * BatchSize < |xs| &&
        ss[k] == xs[start + k * BatchSize..Min(start + k * BatchSize + BatchSize, |xs|)]
    decreases |xs| - start
  {
    if start < |xs| {
      var ss := Slices(xs, start);
      var next := start + BatchSize;
      SlicesAt(xs, next);
      forall k | 0 < k < |ss|
        ensures start + k * BatchSize < |xs| &&
          ss[k] == xs[start + k * BatchSize..Min(start + k * BatchSize + BatchSize, |xs|)]
      {
        assert ss[k] == Slices(xs, next)[k - 1];
        assert next + (k - 1) * BatchSize == start + k * BatchSize;
      }
    }
  }

  /** Concatenating the slices from `start` gives back `xs[start:]`. */
  lemma {:induction false} SlicesConcat<T>(xs: seq<T>, start: nat)
    requires start <= |xs|
    ensures Concat(Slices(xs, start)) == xs[start..]
    decreases |xs| - start
  {
    if start < |xs| {
      var ss := Slices(xs, start);
      var next := Min(start + BatchSize, |xs|);
      assert ss[1..] == Slices(xs, start + BatchSize);
      if next < |xs| {
        SlicesConcat(xs, next);
      } else {
        assert Slices(xs, start + BatchSize) == [];
      }
      assert xs[start..] == xs[start..next] + xs[next..];
    }
  }

  /** The batches of aligned id, document and metadata slices. */
  function Batches(ids: seq<string>, docs: seq<string>, metas: seq<Metadata>): seq<Batch>
    requires |ids| == |docs| == |metas|
  {
    var n := |Slices(docs, 0)|;
    SlicesSameCount(ids, docs, 0);
    SlicesSameCount(metas, docs, 0);
    seq(n, k requires 0 <= k < n => Batch(Slices(ids, 0)[k], Slices(docs, 0)[k], Slices(metas, 0)[k]))
  }

  /**
   * The batches of three aligned lists: there is a `k`-th one exactly when
   * `100*k` is below the length, so none exactly when the lists are empty;
   * batch `k` holds the elements from `100*k` up to `100*k + 100`, between
   * 1 and 100 of each list; concatenating the batches gives back each list.
   */
  lemma BatchesShape(ids: seq<string>, docs: seq<string>, metas: seq<Metadata>)
    requires |ids| == |docs| == |metas|
    ensures var bs := Batches(ids, docs, metas);
      (forall k: nat :: k < |bs| <==> k * BatchSize < |docs|) &&
      (bs == [] <==> docs == []) &&
      (forall k :: 0 <= k < |bs| ==>
         var lo := k * BatchSize;
         var hi := Min(lo + BatchSize, |docs|);
         lo < hi && hi - lo <= BatchSize &&
         bs[k] == Batch(ids[lo..hi], docs[lo..hi], metas[lo..hi])) &&
      Concat(seq(|bs|, k requires 0 <= k < |bs| => bs[k].ids)) == ids &&
      Concat(seq(|bs|, k requires 0 <= k < |bs| => bs[k].documents)) == docs &&
      Concat(seq(|bs|, k requires 0 <= k < |bs| => bs[k].metadatas)) == metas
  {
    var bs := Batches(ids, docs, metas);
    SlicesSameCount(ids, docs, 0);
    SlicesSameCount(metas, docs, 0);
    SlicesCount(docs, 0);
    SlicesAt(ids, 0);
    SlicesAt(docs, 0);
    SlicesAt(metas, 0);
    SlicesConcat(ids, 0);
    SlicesConcat(docs, 0);
    SlicesConcat(metas, 0);
    if docs != [] {
      assert 0 * BatchSize < |docs|;
    }
    assert seq(|bs|, k requires 0 <= k < |bs| => bs[k].ids) == Slices(ids, 0);
    assert seq(|bs|, k requires 0 <= k < |bs| => bs[k].documents) == Slices(docs, 0);
    assert seq(|bs|, k requires 0 <= k < |bs| => bs[k].metadatas) == Slices(metas, 0);
    assert ids[0..] == ids && docs[0..] == docs && metas[0..] == metas;
  }

  // ---------------------------------------------------------------------------
  // The imperative pipeline
  // ---------------------------------------------------------------------------

  /**
   * The inner accumulation loop of `ingest_documents`: for chunk `i` of
   * file `name`, append its text, its id and its metadata to the three
   * lists, which so far hold the projections of `prior`.
   */
  method CollectFile(hash: string -> string, name: string, chunks: seq<string>, ghost prior: seq<Entry>,
                     docs0: seq<string>, ids0: seq<string>, metas0: seq<Metadata>)
      returns (docs: seq<string>, ids: seq<string>, metas: seq<Metadata>)
    requires docs0 == Documents(prior) && ids0 == Ids(prior) && metas0 == Metadatas(prior)
    ensures var es := prior + ChunkEntries(hash, name, chunks);
      docs == Documents(es) && ids == Ids(es) && metas == Metadatas(es)
  {
    ghost var added := ChunkEntries(hash, name, chunks);
    docs, ids, metas := docs0, ids0, metas0;
    for i := 0 to |chunks|
      invariant docs == Documents(prior + added[..i])
      invariant ids == Ids(prior + added[..i])
      invariant metas == Metadatas(prior + added[..i])
    {
      var chunkId := hash(ChunkKey(name, i, chunks[i]));
      ProjectionsAppend(prior + added[..i], added[i]);
      PrefixGrows(prior, added, i);
      docs := docs + [chunks[i]];
      ids := ids + [chunkId];
      metas := metas + [Metadata(name, i, |chunks|)];
    }
    assert added[..|chunks|] == added;
  }

  /**
   * The accumulation loops of `ingest_documents`: skip filtered-out files,
   * chunk each remaining file and append every chunk's text, id and
   * metadata to three parallel lists.
   */
  method Collect(hash: string -> string, files: seq<SourceFile>)
      returns (allChunks: seq<string>, allIds: seq<string>, allMetadata: seq<Metadata>)
    ensures allChunks == Documents(Entries(hash, DocumentChunks, files))
    ensures allIds == Ids(Entries(hash, DocumentChunks, files))
    ensures allMetadata == Metadatas(Entries(hash, DocumentChunks, files))
  {
    allChunks, allIds, allMetadata := [], [], [];
    ghost var collected: seq<Entry> := [];
    for j := 0 to |files|
      invariant collected == Entries(hash, DocumentChunks, files[..j])
      invariant allChunks == Documents(collected) && allIds == Ids(collected) && allMetadata == Metadatas(collected)
    {
      var f := files[j];
      FlattenPrefix(PerFile(hash, DocumentChunks), files, j);
      if !HasSupportedSuffix(f.name) {
        assert Entries(hash, DocumentChunks, files[..j + 1]) == collected + [];
        continue;
      }
      if IsHidden(f.name) {
        assert Entries(hash, DocumentChunks, files[..j + 1]) == collected + [];
        continue;
      }
      var chunks := ChunkText(f.text, ChunkSize, ChunkOverlap);
      assert FileEntries(hash, DocumentChunks, f) == ChunkEntries(hash, f.name, chunks);
      allChunks, allIds, allMetadata := CollectFile(hash, f.name, chunks, collected, allChunks, allIds, allMetadata);
      collected := collected + ChunkEntries(hash, f.name, chunks);
    }
    assert files[..|files|] == files;
  }

  /** The batch loop of `ingest_documents`: one upsert per `[i, i + 100)` slice of the three lists. */
  method MakeBatches(ids: seq<string>, docs: seq<string>, metas: seq<Metadata>) returns (batches: seq<Batch>)
    requires |ids| == |docs| == |metas|
    ensures batches == Batches(ids, docs, metas)
  {
    ghost var all := Batches(ids, docs, metas);
    BatchesShape(ids, docs, metas);
    batches := [];
    var i := 0;
    while i < |docs|
      invariant i == |batches| * BatchSize
      invariant |batches| <= |all| && batches == all[..|batches|]
      decreases |docs| - i
    {
      var hi := Min(i + BatchSize, |docs|);
      batches := batches + [Batch(ids[i..hi], docs[i..hi], metas[i..hi])];
      i := i + BatchSize;
    }
    assert all[..|all|] == all;
  }

  /**
   * `ingest_documents` from the sorted file list on: collect every chunk,
   * upsert nothing when there is none, otherwise upsert the batches. The
   * result is the sequence of upsert calls in order.
   */
  method IngestDocuments(hash: string -> string, files: seq<SourceFile>) returns (upserts: seq<Batch>)
    ensures var es := Entries(hash, DocumentChunks, files);
      upserts == Batches(Ids(es), Documents(es), Metadatas(es))
    ensures upserts == [] <==> Entries(hash, DocumentChunks, files) == []
  {
    var allChunks, allIds, allMetadata := Collect(hash, files);
    BatchesShape(allIds, allChunks, allMetadata);
    if allChunks == [] {
      return [];
    }
    upserts := MakeBatches(allIds, allChunks, allMetadata);
  }
}
