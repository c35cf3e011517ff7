# Requirements extraction: phrase summaries and the chunk report

This project models the logic written in the requirements-extraction script
`extract_requirements.py`. The script splits a text document into chunks. It runs
spaCy with the pytextrank pipe over each chunk. It builds a "summary" from the
top-ranked phrases and writes one JSON record per chunk. The model covers the
code that the script itself contains:

- `rank_phrases` (module `ExtractRequirements`). It takes the phrase texts in
  the order the ranker yields them and keeps `ranked_chunks[:n]`, with Python
  slice semantics. It joins them with single spaces. When the document lacks
  the `phrases` extension it fails with `AttributeError`. Python's slice and
  `" ".join` are modelled in module `PyText`. `IsSpaceJoin` describes the
  joined string without recursion: its length, each part at its offset, and a
  space between neighbours. Lemmas prove that this description and the join
  agree in both directions.
- The loop in `main` that builds the report (`BuildReport`). For each chunk, in
  order, it parses the chunk and takes the summary. It then appends a record
  with `section_number`, `text`, `summary`, `text_len`, `summary_len` and
  `len_ratio`. The method is proved against the predicate `IsReportFor`:
  one entry per chunk, numbered 0 to N-1, holding the chunk text unchanged,
  the chunk's summary, and statistics that agree with both. Lemmas show three
  things. Appending later entries leaves earlier entries alone. The report is
  determined by the chunks. Each summary length follows from the kept phrases.

The NLP pipeline enters as a parameter `textrank: string -> seq<Phrase>`: the
ranked phrases of a chunk's text. `main` always adds the textrank pipe before
it parses (line 84). So inside the report loop `rank_phrases` cannot fail, and
the model proves this: the only error `BuildReport` returns is
`ZeroDivisionError`. `rank_phrases` is called through a fake language model
scripted with that one response (line 47). The model therefore takes a chunk's
summary to be the `rank_phrases` string. This is an assumption about the
library, not something proved.

Behaviours of the code that the model keeps:

- `len_ratio` divides with no zero guard (line 97). An empty chunk raises
  `ZeroDivisionError`, which leaves `main` before the JSON is written.
  `BuildReport` returns `Err(ZeroDivisionError)` when any chunk is empty.
- `rank_phrases` does not sort. It keeps the ranker's order (line 36).
- `rank_phrases` has the default `n = 30` (line 15). `RankPhrases` declares
  the same default. The only call passes `top_n` explicitly (line 47).

## Model

| member | source | states |
|---|---|---|
| PyText.Take | extract_requirements.py:37 | `xs[:n]` is a prefix of `xs`. For `n >= 0` it has `min(n, len)` elements. For negative `n` it drops the last `-n`. For `n >= len` it is all of `xs`. It never fails. |
| PyText.JoinSpaceLength | extract_requirements.py:37 | `" ".join(parts)` is empty for no parts. Otherwise its length is the sum of the part lengths plus one per adjacent pair. |
| PyText.JoinSpaceAt | extract_requirements.py:37 | In the join, part `k` appears unchanged at its offset. A single space follows every part except the last. |
| PyText.JoinSpaceIsSpaceJoin | extract_requirements.py:37 | The join meets the description `IsSpaceJoin`: length, each part in order, separators. |
| PyText.SpaceJoinIsUnique | extract_requirements.py:37 | Any string that meets `IsSpaceJoin` is the join, so the description determines the string. |
| PyText.JoinSpaceSpec | extract_requirements.py:37 | A string is the join of `parts` if and only if it meets `IsSpaceJoin`. |
| ExtractRequirements.PhraseTexts | extract_requirements.py:36 | The comprehension keeps one text per phrase, in the ranker's order. |
| ExtractRequirements.KeptPhrases | extract_requirements.py:36-37 | The kept texts are the first `min(n, |phrases|)` phrase texts for `n >= 0`, or all but the last `-n` for negative `n`. They come in the ranker's order, with no re-sorting and no deduplication. |
| ExtractRequirements.RankPhrases | extract_requirements.py:15-37 | Fails with `AttributeError` if and only if the document has no `phrases` extension. For `n >= |phrases|`, every phrase is joined. When no phrase is kept, the result is `""`. |
| ExtractRequirements.RankPhrasesSpec | extract_requirements.py:36-37 | A string is the summary if and only if it is the space-join of the kept phrases, as described by `IsSpaceJoin`. |
| ExtractRequirements.RankPhrasesKeepsOrder | extract_requirements.py:36-37 | The `k`-th kept phrase is the ranker's `k`-th phrase, unchanged, at its offset in the summary. |
| ExtractRequirements.RankPhrasesLength | extract_requirements.py:37 | The summary is empty when no phrase is kept. Otherwise its length is the kept lengths plus one space per adjacent pair. |
| ExtractRequirements.NewEntry | extract_requirements.py:90-99 | A record for a non-empty chunk has the following fields: `section_number = i`; the chunk text unchanged; the summary; `text_len = |text|`; `summary_len = |summary|`; `len_ratio * text_len = summary_len`; `len_ratio >= 0`. |
| ExtractRequirements.EarlierEntriesUnchanged | extract_requirements.py:86-99 | The report of the first `i` chunks is exactly the first `i` records of the report of all chunks. Appending later records never changes an earlier one. |
| ExtractRequirements.ReportIsDetermined | extract_requirements.py:86-99 | At most one sequence of records is the report of given chunks, so the report is a function of its inputs. |
| ExtractRequirements.ReportSummaryLength | extract_requirements.py:89-97 | In the report, `summary_len` is the joined length of the chunk's kept phrases. `len_ratio` is zero exactly when the summary is empty. |
| ExtractRequirements.BuildReport | extract_requirements.py:86-99 | The run succeeds if and only if no chunk is empty, and otherwise fails with `ZeroDivisionError`. On success the result is the report of the chunks: one record per chunk, in chunk order, with section numbers 0 to N-1. |

## Left out

- Loading the input with `TextLoader` and writing the JSON with `json.dump` (lines 59-60, 101-102): file I/O. The model returns the report instead of writing it.
- `RecursiveCharacterTextSplitter` (lines 61-68): library code that is not part of this model. The chunks are an input sequence, so chunk sizes and overlap are not modelled.
- spaCy parsing and pytextrank scoring (lines 83-84, 88): a foreign NLP pipeline. The ranked phrases of a text come from the parameter `textrank`, and their order is taken as given. `Phrase.rank` is carried but never used, as in the code.
- `simulate_llm_summary` with `PromptTemplate` and `FakeListLLM` (lines 40-50, 79-82): library wrappers. The model assumes that the chain returns its one scripted response, the `rank_phrases` string.
- The diagnostic `print` before re-raising (lines 28-33) and the `tqdm` progress bar (line 87): presentation.
- `config.py`: Dynaconf settings with type-cast validators and no logic of its own. The settings that matter (`top_n`) are parameters.
- `len_ratio` is a `real`, not an IEEE double. Python's float division may round, and the model's exact quotient does not.
