# DQL RAG pipeline core in Dafny

This project models the logic at the core of `dql_rag.py`, a retrieval-augmented
generator of Dynatrace Query Language (DQL) queries. The model covers five parts:

- **Chunker** (`chunker.dfy`). `chunk_text` splits a document into overlapping windows
  of `chunk_size * 4` characters. A window that reaches the end of the text is not shortened.
  A window that ends inside the text ends after the last paragraph break in its second half.
  Failing that, it ends after the last occurrence of the first of `. `, `.\n`, `;\n`, `\n`
  that occurs there. Failing that, it ends after the last space, and otherwise at the full
  budget. Each window is stripped, and empty windows are dropped.
- **Ingest** (`ingest.dfy`). This is the bookkeeping of `ingest_documents`:
  - It keeps files whose lower-cased suffix is supported and whose name does not start with a dot.
  - It chunks each kept file.
  - It gives every chunk the id `md5(f"{name}:{i}:{chunk[:100]}")` and the metadata
    `{source, chunk_index, total_chunks}`.
  - It upserts the three parallel lists in slices of 100, and upserts nothing when there
    are no chunks.
- **Retrieval** (`retrieval.dfy`):
  - The zip loop of `retrieve` turns the store's documents, metadata and distances into
    records. The source falls back to `"unknown"`.
  - The context block of `ask` renders one `--- Source: … (relevance: …) ---` section per
    record and joins the sections with a blank line.
- **Gateway** (`gateway.dfy`). `call_llm` fills the system prompt with the context. It sends
  the prompt and the question to the backend that the configured provider names, and raises
  `Unknown LLM provider: …` for any other provider. `Ask` takes the retrieved records,
  assembles their context and makes this call.
- **Python text semantics** (`pytext.dfy`). These are the `str` operations the code relies on,
  with CPython's meaning: `isspace`/`strip()`, `rfind(sub, lo, hi)`, clamped slices, `str(int)`,
  `s[:n]` and `sep.join`.

The parts `chunk_text`, the two ingest loops and the `retrieve` loop are imperative
in the source. They are Dafny methods with loops, each proved equal to a specification
function. The properties the source promises are then proved about those functions. The id
expression, the context join and the provider dispatch are pure functions.

## Model

| member | source | states |
|---|---|---|
| PyText.StripShape | dql_rag.py:87 | `strip()` leaves no whitespace at either end; it gives `""` exactly when the text is all whitespace; its result is an infix of the text with only whitespace on either side |
| PyText.StrippedIsFixed | dql_rag.py:113-114 | stripping a stripped string changes nothing |
| PyText.RFindIsLast | dql_rag.py:97 | `rfind(sub, lo, hi)` returns an occurrence inside `[lo, hi)` with none further right, and -1 exactly when there is none |
| PyText.SliceCompose | dql_rag.py:113 | adjacent slices compose: `text[a:b] + text[b:c] == text[a:c]` for `a <= b <= c`, ends past the string included |
| PyText.DecimalRoundTrip | dql_rag.py:178 | the decimal digits written for a chunk index read back as that index |
| PyText.DecimalInjective | dql_rag.py:178 | different chunk indexes are written as different digit strings |
| PyText.Prefix | dql_rag.py:178 | `chunk[:100]` is a prefix of the chunk, of length `min(len, 100)` |
| PyText.JoinAppend | dql_rag.py:397 | joining two non-empty lists puts exactly one separator between their joins |
| PyText.JoinLength | dql_rag.py:397 | a join is as long as its parts plus one separator per pair of neighbours |
| PyText.JoinPrefix | dql_rag.py:397 | part `k` of a join follows the join of the parts before it and one separator |
| Chunker.FirstBreak | dql_rag.py:97-111 | a found cut point lies in `(lo, hi]` |
| Chunker.FirstBreakAppend | dql_rag.py:102-107 | searching the separators `a + b` finds the break for `a`, or else searches `b` (the `for … else` of the sentence search) |
| Chunker.StagedBreakIsFirstBreak | dql_rag.py:95-111 | the paragraph, then sentence, then word search is one ordered search over the separators `["\n\n", ". ", ".\n", ";\n", "\n", " "]` |
| Chunker.BreakEnd | dql_rag.py:95-111 | the window end after a break search lies in `(lo, hi]` |
| Chunker.WindowEnd | dql_rag.py:92-111 | a window end lies in `(start + char_chunk//2, start + char_chunk]`, and is `start + char_chunk` when that reaches the end of the text |
| Chunker.BreakEndObeysBreakRule | dql_rag.py:97-111 | the end follows the last occurrence of the first separator that occurs in `[lo, hi)`, or is `hi` when none occurs |
| Chunker.WindowEndBreakRule | dql_rag.py:95-111 | inside the text, a window ends after the last paragraph break in its second half, else after the last of the first sentence mark found, else after the last space, else at the full budget |
| Chunker.CutAdvances | dql_rag.py:117 | with `0 <= char_overlap <= char_chunk//2`, the next start `end - char_overlap` is past the current start |
| Chunker.ChunksFromStep | dql_rag.py:91-119 | one iteration: the chunks from `start` are the stripped window (kept when non-empty) followed by the chunks from `end - char_overlap` |
| Chunker.ShortTextChunks | dql_rag.py:86-87 | a text within the budget gives at most one chunk, `[text.strip()]`, and none exactly when it is all whitespace |
| Chunker.WindowsCoverText | dql_rag.py:89-119 | for a longer text the first window starts at 0 and the last reaches the end; every window ends where the break rule says; each next window starts `char_overlap` before the previous end and after its start; every character lies in some window |
| Chunker.ChunksAreStrippedWindows | dql_rag.py:113-115 | every chunk is non-empty and stripped; for a longer text there are at most as many chunks as windows, and each chunk is the stripped slice of a window |
| Chunker.ChunksInWindowOrder | dql_rag.py:89-119 | the chunks of a longer text are exactly the stripped slices of its windows, in window order, with the empty ones dropped |
| Chunker.ChunksKeepText | dql_rag.py:113-115 | every non-whitespace character of a longer text lies in a window whose stripped slice is one of the chunks |
| Chunker.SearchSentenceBreak | dql_rag.py:102-107 | the sentence loop returns what the ordered separator search specifies |
| Chunker.FindWindowEnd | dql_rag.py:92-111 | the window end the loop body computes is `WindowEnd` over the six separators |
| Chunker.VisitWindow | dql_rag.py:92-117 | one loop iteration moves the cursor forward and keeps the chunks found plus the chunks still to come unchanged |
| Chunker.CollectChunks | dql_rag.py:89-121 | the `while` loop returns exactly the specified chunks of the text |
| Chunker.ChunkText | dql_rag.py:76-121 | `chunk_text` returns `Chunks(text, chunk_size, overlap)` |
| Ingest.AsDict | dql_rag.py:183-187 | the stored metadata dictionary has exactly the keys `source`, `chunk_index`, `total_chunks`, holding the file name, the chunk's index and the file's chunk count |
| Ingest.SuffixIsExtension | dql_rag.py:166 | `Path.suffix` is non-empty exactly when the name has a last dot that is neither its first nor its last character, and it is then the name from that dot on |
| Ingest.LowerIdempotent | dql_rag.py:166 | lower-casing a lower-cased suffix changes nothing |
| Ingest.LowerMatchesIgnoringCase | dql_rag.py:166 | a suffix lower-cases to a supported one exactly when it is a supported suffix written in any mix of ASCII upper and lower case |
| Ingest.IngestedNames | dql_rag.py:165-169 | a file is read exactly when its name does not start with a dot and its last dot opens an extension whose lower case is one of `.txt .md .json .dql .yaml .yml` |
| Ingest.ChunkKeyDetermines | dql_rag.py:177-179 | for names without a colon, equal id keys mean the same file name, the same index and the same first 100 characters |
| Ingest.Documents | dql_rag.py:181 | `all_chunks` holds the text of each collected chunk, in order |
| Ingest.Ids | dql_rag.py:182 | `all_ids` holds the id of each collected chunk, in order |
| Ingest.Metadatas | dql_rag.py:183-187 | `all_metadata` holds the metadata of each collected chunk, in order |
| Ingest.EntriesAppend | dql_rag.py:165-187 | collecting from two runs of files is collecting from each, one after the other |
| Ingest.EntriesAround | dql_rag.py:165-187 | file `j` contributes its entries between those of the files before it and after it |
| Ingest.EntryOfFile | dql_rag.py:174-187 | chunk `i` of file `j` sits right after the chunks of the earlier files; its text is the chunk, its id hashes `name:i:chunk[:100]`, its metadata is `(name, i, len(chunks))` |
| Ingest.FileEntriesAreChunks | dql_rag.py:174-187 | every entry a file adds is one of its chunks, with matching metadata and id |
| Ingest.EntriesFromIngestedFiles | dql_rag.py:165-187 | every collected chunk comes from a file that passes the filter; its metadata names that file, an index below its chunk count and that count; its text is the file's chunk at that index |
| Ingest.DocumentChunkIsStripped | dql_rag.py:174 | every chunk `chunk_text` gives a file is non-empty and stripped |
| Ingest.CollectedDocumentsAreStripped | dql_rag.py:174-181 | no collected chunk text is empty or has whitespace at either end |
| Ingest.KeysDiffer | dql_rag.py:177-179 | chunks of differently named files, or with different indexes, have different id keys |
| Ingest.EntryKeysDistinct | dql_rag.py:165-187 | when the file names are distinct and colon-free, no two collected chunks share an id key |
| Ingest.SkippedFile | dql_rag.py:166-169 | a file the filter drops contributes nothing |
| Ingest.SlicesCount | dql_rag.py:196 | there is a `k`-th batch exactly when `start + 100*k` is below the length |
| Ingest.SlicesAt | dql_rag.py:196-201 | batch `k` is the slice `[start + 100*k, start + 100*k + 100)`, clamped to the list |
| Ingest.SlicesConcat | dql_rag.py:196-201 | concatenating the batches gives back the list |
| Ingest.BatchesShape | dql_rag.py:195-201 | there is no batch exactly when there is nothing to upsert; batch `k` holds the aligned slices `[100k, 100k+100)` of ids, documents and metadata, 1 to 100 of each; concatenating each column gives back the list |
| Ingest.CollectFile | dql_rag.py:175-187 | the inner loop appends to the three lists the text, id and metadata of every chunk of the file, in order |
| Ingest.Collect | dql_rag.py:165-187 | the accumulation loops produce the texts, ids and metadata of all collected chunks |
| Ingest.MakeBatches | dql_rag.py:195-201 | the batch loop makes exactly the specified batches |
| Ingest.IngestDocuments | dql_rag.py:165-201 | the upsert calls are the batches of the collected lists, and there are none exactly when no chunk was collected |
| Retrieval.SourceOfStoredMetadata | dql_rag.py:232 | the metadata written at ingestion gives back the file name as the source |
| Retrieval.RecordsAt | dql_rag.py:224-236 | there is one record per zipped triple, as many as the shortest list has elements, in order; record `k` holds document `k`, the source of metadata `k` (default `"unknown"`) and the similarity of distance `k` |
| Retrieval.UnknownSourceOnlyWhenMissing | dql_rag.py:232 | a record's source is `"unknown"` exactly when its metadata has no source, or has the text `"unknown"` as its source |
| Retrieval.RecordsOfStoredChunks | dql_rag.py:225-234 | for chunks stored with the ingestion metadata, each record names the chunk's file |
| Retrieval.Retrieve | dql_rag.py:224-236 | the loop returns exactly the zipped records |
| Retrieval.SectionShape | dql_rag.py:393-396 | a section is its header line followed by the record's text; the header names the source and, after it, the relevance score, and ends the line |
| Retrieval.ContextEmpty | dql_rag.py:397 | the context is `""` exactly when nothing was retrieved |
| Retrieval.ContextInOrder | dql_rag.py:391-397 | the context starts with the first record's section; section `k` follows the context of the records before it and one blank line |
| Retrieval.ContextAppend | dql_rag.py:397 | the context of two non-empty record lists is their two contexts with a blank line between them |
| Retrieval.ContextLength | dql_rag.py:397 | the context is as long as its sections plus two characters between neighbours |
| Gateway.SelectBackendOfName | dql_rag.py:299-306 | each of `anthropic`, `openai`, `azure_openai`, `ollama` selects its own backend |
| Gateway.SelectBackendIsName | dql_rag.py:299-308 | a selected backend's name is the provider; selection fails exactly when the provider names no backend, with `Unknown LLM provider: <provider>` |
| Gateway.ProviderNamesDistinct | dql_rag.py:299-306 | no two backends share a provider name |
| Gateway.FillPromptKeepsContext | dql_rag.py:297 | the filled system prompt holds the context between the template's fixed parts |
| Gateway.FillPromptInjective | dql_rag.py:297 | different contexts give different system prompts |
| Gateway.CallLlmRoutes | dql_rag.py:294-308 | a known provider calls its backend with the filled prompt and the question unchanged; any other provider gives the error naming it |
| Gateway.AskPassesContext | dql_rag.py:390-400 | with a known provider, `ask` calls that backend with the question and a prompt that holds exactly the retrieved context, with nothing between the fixed parts when nothing was retrieved |

## Left out

- ChromaDB (`get_collection`, `upsert`, `query`) and the embedding model are not part of this model. An upsert is represented by the `Batch` it receives. A query result is the three lists that `Retrieve` takes.
- MD5 is not modelled. The hash is a parameter `hash: string -> string`, applied to the key `name:i:chunk[:100]`. The `.encode()` to UTF-8 happens inside it.
- The score `round(1 - dist, 3)` and its `str()` are floating-point numerics. They are the parameters `similarity` and `showScore`, over a score type that is left open.
- Metadata values other than strings and integers (floats, booleans) are not modelled. `str()` of a metadata value is modelled for these two kinds only.
- Filesystem work is not modelled: `rglob`, its sorted order, directories, `read_text` decoding, `mkdir` and the sample documents. Ingestion takes the sorted files as a list of (name, text) pairs.
- Environment-driven `Config`, `main` and its argument handling, the interactive loop, and all printing (including the verbose listing in `ask` and the progress messages) are I/O and are not modelled.
- The literal `SYSTEM_PROMPT` is not modelled. It is a `PromptTemplate` holding the text before and after its single `{context}` placeholder, with the `{{`/`}}` escapes already undone.
- The four SDK calls `_call_anthropic`, `_call_openai`, `_call_azure_openai` and `_call_ollama` are network clients. `CallLlm` returns the call it would make: which backend, the system prompt and the question.
- ChunkText: requires `chunk_size * 4 >= 1` and `0 <= overlap * 4 <= (chunk_size * 4) // 2`, which the source does not check. With a larger overlap, `start = end - char_overlap` need not advance, and the loop need not terminate. The pipeline only uses 800 and 100, which satisfy the condition.
- Ingest.Lower: lower-cases ASCII letters only; full Unicode case mapping is not modelled. The filter decision is unchanged nonetheless. U+212A (Kelvin sign) lowers to the ASCII letter `k`, which no supported suffix contains. U+0130 (capital I with dot above) lowers to `i` followed by U+0307, which no supported suffix contains either. Every other non-ASCII character lowers to non-ASCII characters only.
- `SourceFile.name` is the file name, not the path. Two files with the same name in different subdirectories are therefore only covered by `Ingest.EntryKeysDistinct` under its distinct-names hypothesis.
