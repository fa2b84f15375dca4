/**
 * The zip loop of `retrieve`, which turns the vector store's answer into
 * records, and the context block of `ask`, which renders those records as
 * the reference material of the prompt.
 */
module Retrieval {
  import opened PyText
  import opened Ingest

  /** The source given to a chunk whose metadata has none. */
  const UnknownSource: string := "unknown"

  /** What separates two sections of the context: one blank line. */
  const SectionSeparator: string := "\n\n"

  /**
   * A retrieved chunk, `{"text": ..., "source": ..., "score": ...}`. The
   * score is the similarity the store reports, of a type left open.
   */
  datatype Record<S> = Record(text: string, source: MetaValue, score: S)

  /** `meta.get("source", "unknown")`. */
  function SourceOf(meta: map<string, MetaValue>): MetaValue
  {
    if "source" in meta then meta["source"] else Text(UnknownSource)
  }

  /** The metadata written at ingestion gives back the file name as the source. */
  lemma SourceOfStoredMetadata(m: Metadata)
    ensures SourceOf(AsDict(m)) == Text(m.source)
  {
  }

  function Shortest(a: nat, b: nat, c: nat): (r: nat)
    ensures r <= a && r <= b && r <= c && (r == a || r == b || r == c)
  {
    if a <= b && a <= c then a else if b <= c then b else c
  }

  /**
   * `zip(documents, metadatas, distances)` turned into records: stops at
   * the end of the shortest list; `similarity` stands for
   * `round(1 - dist, 3)`.
   */
  function Records<D, S>(docs: seq<string>, metas: seq<map<string, MetaValue>>, dists: seq<D>, similarity: D -> S): seq<Record<S>>
  {
    if docs == [] || metas == [] || dists == [] then []
    else [Record(docs[0], SourceOf(metas[0]), similarity(dists[0]))] + Records(docs[1..], metas[1..], dists[1..], similarity)
  }

  /**
   * There is one record per zipped triple, as many as the shortest list
   * has elements, in order: record `k` holds document `k`, the source of
   * metadata `k` and the similarity of distance `k`.
   */
  lemma {:induction false} RecordsAt<D, S>(docs: seq<string>, metas: seq<map<string, MetaValue>>, dists: seq<D>, similarity: D -> S)
    ensures var rs := Records(docs, metas, dists, similarity);
      |rs| == Shortest(|docs|, |metas|, |dists|) &&
      forall k :: 0 <= k < |rs| ==> rs[k] == Record(docs[k], SourceOf(metas[k]), similarity(dists[k]))
  {
    if docs != [] && metas != [] && dists != [] {
      RecordsAt(docs[1..], metas[1..], dists[1..], similarity);
    }
  }

  /**
   * A record's source is "unknown" exactly when its metadata has no source
   * or has the text "unknown" as its source.
   */
  lemma UnknownSourceOnlyWhenMissing<D, S>(docs: seq<string>, metas: seq<map<string, MetaValue>>, dists: seq<D>, similarity: D -> S, k: nat)
    requires k < |docs| && k < |metas| && k < |dists|
    ensures k < |Records(docs, metas, dists, similarity)|
    ensures Records(docs, metas, dists, similarity)[k].source == Text(UnknownSource) <==>
      ("source" !in metas[k] || metas[k]["source"] == Text(UnknownSource))
  {
    RecordsAt(docs, metas, dists, similarity);
  }

  /** For chunks stored with the ingestion metadata, each record names the chunk's file. */
  lemma RecordsOfStoredChunks<D, S>(docs: seq<string>, stored: seq<Metadata>, dists: seq<D>, similarity: D -> S)
    ensures var metas := seq(|stored|, k requires 0 <= k < |stored| => AsDict(stored[k]));
      var rs := Records(docs, metas, dists, similarity);
      forall k :: 0 <= k < |rs| ==> k < |stored| && rs[k].source == Text(stored[k].source)
  {
    var metas := seq(|stored|, k requires 0 <= k < |stored| => AsDict(stored[k]));
    RecordsAt(docs, metas, dists, similarity);
  }

  /** The loop of `retrieve`: walk the three lists together and append one record per triple. */
  method Retrieve<D, S>(docs: seq<string>, metas: seq<map<string, MetaValue>>, dists: seq<D>, similarity: D -> S)
      returns (retrieved: seq<Record<S>>)
    ensures retrieved == Records(docs, metas, dists, similarity)
  {
    retrieved := [];
    var k := 0;
    while k < |docs| && k < |metas| && k < |dists|
      invariant 0 <= k <= |docs| && k <= |metas| && k <= |dists|
      invariant retrieved + Records(docs[k..], metas[k..], dists[k..], similarity) == Records(docs, metas, dists, similarity)
      decreases |docs| - k
    {
      assert docs[k..][1..] == docs[k + 1..] && metas[k..][1..] == metas[k + 1..] && dists[k..][1..] == dists[k + 1..];
      retrieved := retrieved + [Record(docs[k], SourceOf(metas[k]), similarity(dists[k]))];
      k := k + 1;
    }
  }

  // ---------------------------------------------------------------------------
  // The context of the prompt
  // ---------------------------------------------------------------------------

  /** `str(value)` for a metadata value. */
  function Render(v: MetaValue): string
  {
    match v
    case Text(s) => s
    case Number(n) => IntToString(n)
  }

  /** What the header line puts before the source, between source and score, and after the score. */
  const SourceLabel: string := "--- Source: "
  const ScoreLabel: string := " (relevance: "
  const HeaderEnd: string := ") ---\n"

  /** The header line of a section; `showScore` stands for `str()` of the score. */
  function Header<S>(r: Record<S>, showScore: S -> string): string
  {
    SourceLabel + Render(r.source) + ScoreLabel + showScore(r.score) + HeaderEnd
  }

  /** `f"--- Source: {source} (relevance: {score}) ---\n{text}"`. */
  function Section<S>(r: Record<S>, showScore: S -> string): string
  {
    Header(r, showScore) + r.text
  }

  /**
   * A section is its header line and then the record's text: the header
   * names the source and, after it, the score, and ends the line.
   */
  lemma SectionShape<S>(r: Record<S>, showScore: S -> string)
    ensures var h := Header(r, showScore);
      var s := Section(r, showScore);
      var src := Render(r.source);
      var score := showScore(r.score);
      var at := |SourceLabel| + |src| + |ScoreLabel|;
      |h| == at + |score| + |HeaderEnd| &&
      h[|SourceLabel|..|SourceLabel| + |src|] == src &&
      h[at..at + |score|] == score &&
      h[|h| - 1] == '\n' &&
      h <= s && s[|h|..] == r.text
  {
    var h := Header(r, showScore);
    var src := Render(r.source);
    var score := showScore(r.score);
    assert h == SourceLabel + src + ScoreLabel + score + HeaderEnd;
    assert h[|h| - 1] == HeaderEnd[|HeaderEnd| - 1];
  }

  /** One section per record, in order. */
  function Sections<S>(records: seq<Record<S>>, showScore: S -> string): seq<string>
  {
    seq(|records|, k requires 0 <= k < |records| => Section(records[k], showScore))
  }

  /** `"\n\n".join(context_parts)`. */
  function Context<S>(records: seq<Record<S>>, showScore: S -> string): string
  {
    Join(SectionSeparator, Sections(records, showScore))
  }

  /** The context is empty exactly when nothing was retrieved. */
  lemma ContextEmpty<S>(records: seq<Record<S>>, showScore: S -> string)
    ensures Context(records, showScore) == "" <==> records == []
  {
    if records != [] {
      JoinPrefix(SectionSeparator, Sections(records, showScore), 0);
    }
  }

  /**
   * The context starts with the first record's section, and the section of
   * record `k` follows the context of the records before it and one blank
   * line: every record appears, in order.
   */
  lemma ContextInOrder<S>(records: seq<Record<S>>, showScore: S -> string, k: nat)
    requires k < |records|
    ensures k == 0 ==> Section(records[0], showScore) <= Context(records, showScore)
    ensures k > 0 ==>
      Context(records[..k], showScore) + SectionSeparator + Section(records[k], showScore) <= Context(records, showScore)
  {
    var parts := Sections(records, showScore);
    JoinPrefix(SectionSeparator, parts, k);
    assert Sections(records[..k], showScore) == parts[..k];
  }

  /** The context of two non-empty lists of records is their contexts with one blank line between them. */
  lemma ContextAppend<S>(a: seq<Record<S>>, b: seq<Record<S>>, showScore: S -> string)
    requires a != [] && b != []
    ensures Context(a + b, showScore) == Context(a, showScore) + SectionSeparator + Context(b, showScore)
  {
    assert Sections(a + b, showScore) == Sections(a, showScore) + Sections(b, showScore);
    JoinAppend(SectionSeparator, Sections(a, showScore), Sections(b, showScore));
  }

  /** The context is as long as its sections plus two characters between each pair of neighbours. */
  lemma ContextLength<S>(records: seq<Record<S>>, showScore: S -> string)
    requires records != []
    ensures |Context(records, showScore)| == TotalLength(Sections(records, showScore)) + 2 * (|records| - 1)
  {
    JoinLength(SectionSeparator, Sections(records, showScore));
  }
}
