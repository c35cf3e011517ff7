/**
 The requirements-extraction script: `rank_phrases`, which turns the phrases
 that textrank ranked for one chunk into a summary string, and the loop of
 `main`, which builds one report entry per chunk.

 The NLP pipeline (spaCy with the textrank pipe) is not modelled: its result
 for a chunk, the ranked phrases, is a parameter. The fake language model is
 scripted with the `rank_phrases` string as its single response, so a chunk's
 summary is that string.
 */
module ExtractRequirements {
  import opened PyText

  datatype Option<T> = None | Some(value: T)

  /** The exceptions the script lets escape. */
  datatype Error =
    | AttributeError     // the document has no `phrases` extension: textrank was not in the pipeline
    | ZeroDivisionError  // `len_ratio` of an empty chunk

  datatype Result<T> = Ok(value: T) | Err(error: Error)

  /** A phrase as textrank yields it: its surface text and its score. */
  datatype Phrase = Phrase(text: string, rank: real)

  /** A parsed spaCy document: its text and the `phrases` extension, in the
      order the ranker yields them; `None` when textrank was not in the
      pipeline that created the document. */
  datatype Doc = Doc(text: string, phrases: Option<seq<Phrase>>)

  /** `[phrase.text for phrase in phrases]`. */
  function PhraseTexts(phrases: seq<Phrase>): (texts: seq<string>)
    ensures |texts| == |phrases|
    ensures forall i :: 0 <= i < |phrases| ==> texts[i] == phrases[i].text
  {
    seq(|phrases|, i requires 0 <= i < |phrases| => phrases[i].text)
  }

  /** The phrase texts that go into a summary: `ranked_chunks[:n]`. */
  function KeptPhrases(phrases: seq<Phrase>, n: int): (kept: seq<string>)
    ensures |kept| <= |phrases|
    ensures forall k :: 0 <= k < |kept| ==> kept[k] == phrases[k].text
    ensures 0 <= n ==> |kept| == (if n < |phrases| then n else |phrases|)
    ensures n < 0 ==> |kept| == (if |phrases| + n > 0 then |phrases| + n else 0)
  {
    Take(PhraseTexts(phrases), n)
  }

  /** `rank_phrases(doc, n)`: the texts of the first `n` ranked phrases,
      joined by single spaces; `AttributeError` when the document has no
      phrases. */
  function RankPhrases(doc: Doc, n: int := 30): (r: Result<string>)
    ensures r.Err? <==> doc.phrases.None?
    ensures r.Err? ==> r.error == AttributeError
    ensures doc.phrases.Some? && n >= |doc.phrases.value| ==>
              r == Ok(JoinSpace(PhraseTexts(doc.phrases.value)))
    ensures doc.phrases.Some? && |KeptPhrases(doc.phrases.value, n)| == 0 ==> r == Ok("")
  {
    match doc.phrases
    case None => Err(AttributeError)
    case Some(phrases) => Ok(JoinSpace(KeptPhrases(phrases, n)))
  }

  /** The summary is exactly the space-join of the kept phrases: a string is
      the summary if and only if it meets the description `IsSpaceJoin`. */
  lemma RankPhrasesSpec(doc: Doc, n: int, s: string)
    requires doc.phrases.Some?
    ensures RankPhrases(doc, n) == Ok(s) <==> IsSpaceJoin(KeptPhrases(doc.phrases.value, n), s)
  {
    JoinSpaceSpec(KeptPhrases(doc.phrases.value, n), s);
  }

  /** The `k`-th kept phrase is the ranker's `k`-th phrase, unchanged, at its
      place in the summary: order is kept and nothing is merged. */
  lemma RankPhrasesKeepsOrder(doc: Doc, n: int, k: nat)
    requires doc.phrases.Some? && k < |KeptPhrases(doc.phrases.value, n)|
    ensures var kept := KeptPhrases(doc.phrases.value, n);
            var s := RankPhrases(doc, n).value;
            var o := Offset(kept, k);
            && o + |doc.phrases.value[k].text| <= |s|
            && s[o..o + |doc.phrases.value[k].text|] == doc.phrases.value[k].text
  {
    JoinSpaceAt(KeptPhrases(doc.phrases.value, n), k);
  }

  /** The summary's length: no characters when no phrase is kept, otherwise
      the kept phrases' lengths plus one space per adjacent pair. */
  lemma RankPhrasesLength(doc: Doc, n: int)
    requires doc.phrases.Some?
    ensures |RankPhrases(doc, n).value| == JoinedLength(KeptPhrases(doc.phrases.value, n))
  {
    JoinSpaceLength(KeptPhrases(doc.phrases.value, n));
  }

  /** `nlp(text)` for the pipeline `main` builds: textrank is always added to
      it, so the document carries the ranker's phrases for its text. */
  function Parse(textrank: string -> seq<Phrase>, text: string): Doc
  {
    Doc(text, Some(textrank(text)))
  }

  /** One record of the report. */
  datatype ReportEntry = ReportEntry(
    sectionNumber: nat,
    text: string,
    summary: string,
    textLen: nat,
    summaryLen: nat,
    lenRatio: real)

  /** The statistics of an entry agree with its strings. */
  predicate ConsistentEntry(e: ReportEntry)
  {
    && e.textLen == |e.text|
    && e.summaryLen == |e.summary|
    && e.textLen > 0
    && e.lenRatio * (e.textLen as real) == e.summaryLen as real
  }

  /** The record appended for chunk `i`; `len_ratio` divides by the chunk's
      length, so the chunk must not be empty. */
  function NewEntry(i: nat, text: string, summary: string): (e: ReportEntry)
    requires |text| > 0
    ensures ConsistentEntry(e)
    ensures e.sectionNumber == i && e.text == text && e.summary == summary
    ensures e.lenRatio >= 0.0
  {
    ReportEntry(i, text, summary, |text|, |summary|, |summary| as real / |text| as real)
  }

  /** `report` is the report of `chunks`: one entry per chunk, in chunk order,
      numbered from 0, each holding its chunk unchanged, the chunk's summary
      and statistics that agree with both. */
  predicate IsReportFor(report: seq<ReportEntry>, chunks: seq<string>,
                        textrank: string -> seq<Phrase>, topN: int)
  {
    && |report| == |chunks|
    && forall i :: 0 <= i < |report| ==>
         && report[i].sectionNumber == i
         && report[i].text == chunks[i]
         && RankPhrases(Parse(textrank, chunks[i]), topN) == Ok(report[i].summary)
         && ConsistentEntry(report[i])
  }

  /** A quotient is determined by its divisor and dividend. */
  lemma RatioIsUnique(x: real, y: real, t: real, s: real)
    requires t > 0.0 && x * t == s && y * t == s
    ensures x == y
  {
  }

  /** The report of a set of chunks is determined by them: at most one
      sequence of entries meets `IsReportFor`. */
  lemma ReportIsDetermined(a: seq<ReportEntry>, b: seq<ReportEntry>, chunks: seq<string>,
                           textrank: string -> seq<Phrase>, topN: int)
    requires IsReportFor(a, chunks, textrank, topN)
    requires IsReportFor(b, chunks, textrank, topN)
    ensures a == b
  {
    forall i | 0 <= i < |a|
      ensures a[i] == b[i]
    {
      assert Ok(a[i].summary) == Ok(b[i].summary);
      RatioIsUnique(a[i].lenRatio, b[i].lenRatio, a[i].textLen as real, a[i].summaryLen as real);
    }
  }

  /** Building on: the entries of the report of the first `i` chunks are the
      first `i` entries of the report of all chunks, so appending later entries
      never changes an earlier one. */
  lemma EarlierEntriesUnchanged(a: seq<ReportEntry>, b: seq<ReportEntry>, chunks: seq<string>,
                                textrank: string -> seq<Phrase>, topN: int, i: nat)
    requires i <= |chunks|
    requires IsReportFor(a, chunks[..i], textrank, topN)
    requires IsReportFor(b, chunks, textrank, topN)
    ensures b[..i] == a
  {
    assert IsReportFor(b[..i], chunks[..i], textrank, topN);
    ReportIsDetermined(b[..i], a, chunks[..i], textrank, topN);
  }

  /** In the report, each summary has the length given by its kept phrases, and
      its `len_ratio` is zero exactly when no character was kept. */
  lemma ReportSummaryLength(report: seq<ReportEntry>, chunks: seq<string>,
                            textrank: string -> seq<Phrase>, topN: int, i: nat)
    requires IsReportFor(report, chunks, textrank, topN) && i < |report|
    ensures report[i].summaryLen == JoinedLength(KeptPhrases(textrank(chunks[i]), topN))
    ensures report[i].lenRatio == 0.0 <==> report[i].summaryLen == 0
  {
    RankPhrasesLength(Parse(textrank, chunks[i]), topN);
  }

  /** The loop of `main`: for every chunk in order, parse it, summarise it and
      append its entry. An empty chunk raises `ZeroDivisionError`, which ends
      the run: nothing is reported. */
  method BuildReport(chunks: seq<string>, textrank: string -> seq<Phrase>, topN: int)
    returns (r: Result<seq<ReportEntry>>)
    ensures r.Ok? <==> forall i :: 0 <= i < |chunks| ==> |chunks[i]| > 0
    ensures r.Err? ==> r.error == ZeroDivisionError
    ensures r.Ok? ==> IsReportFor(r.value, chunks, textrank, topN)
  {
    var output: seq<ReportEntry> := [];
    for i := 0 to |chunks|
      invariant forall j :: 0 <= j < i ==> |chunks[j]| > 0
      invariant IsReportFor(output, chunks[..i], textrank, topN)
    {
      var doc := Parse(textrank, chunks[i]);
      var summary := RankPhrases(doc, topN).value;
      if |chunks[i]| == 0 {
        return Err(ZeroDivisionError);
      }
      output := output + [NewEntry(i, chunks[i], summary)];
    }
    assert chunks[..|chunks|] == chunks;
    return Ok(output);
  }
}
