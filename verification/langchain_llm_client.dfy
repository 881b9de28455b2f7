/** `LangchainLlmClient.ask_database`: detect the question's language, build
    the retriever arguments, fetch documents, assemble the context and the
    list of sources, run the retrieval chain and return its answer with a new
    feedback id. The detector, the retriever and the chain are parameters;
    the id generator is represented by a fresh id supplied by the caller. */
module LangchainLlmClient {
  import opened Exceptions
  import opened Strings
  import opened LangDetect

  /** `_detect_language`: the detector's answer, or `None` when it raises
      LangDetectException; any other exception escapes. */
  function DetectLanguage(text: string, detect: string -> Detection): (r: Result<Option<string>>)
    ensures r == Ok(None) <==> detect(text).DetectFailed? && detect(text).exception.LangDetectException?
    ensures detect(text).Detected? ==> r == Ok(Some(detect(text).language))
    ensures r.Raise? <==> detect(text).DetectFailed? && !detect(text).exception.LangDetectException?
    ensures r.Raise? ==> r.exception == detect(text).exception
  {
    match detect(text)
    case Detected(language) => Ok(Some(language))
    case DetectFailed(e) => if e.LangDetectException? then Ok(None) else Raise(e)
  }

  /* ---------------- retriever arguments ---------------- */

  /** The `search_kwargs` dictionary: `k`, and `score_threshold` when present. */
  datatype SearchKwargs = SearchKwargs(k: int, scoreThreshold: Option<real>)

  /** The search type `ask_database` fixes. */
  const SearchType := "similarity_score_threshold"

  /** The kwargs for a search type: the threshold is added for "mmr" and
      "similarity_score_threshold" only. */
  function RetrieverKwargs(k: int, scoreThreshold: real, searchType: string): (r: SearchKwargs)
    ensures r.k == k
    ensures r.scoreThreshold.Some? <==> searchType == "mmr" || searchType == "similarity_score_threshold"
    ensures r.scoreThreshold.Some? ==> r.scoreThreshold.value == scoreThreshold
  {
    if searchType in ["mmr", "similarity_score_threshold"] then SearchKwargs(k, Some(scoreThreshold))
    else SearchKwargs(k, None)
  }

  /** With the fixed search type the threshold is always passed. */
  lemma FixedSearchTypeKeepsThreshold(k: int, scoreThreshold: real)
    ensures RetrieverKwargs(k, scoreThreshold, SearchType) == SearchKwargs(k, Some(scoreThreshold))
  {
  }

  /* ---------------- context and sources ---------------- */

  /** A retrieved document: its text and its metadata. */
  datatype Document = Document(pageContent: string, metadata: map<string, string>)

  function PageContents(documents: seq<Document>): (r: seq<string>)
    ensures |r| == |documents|
    ensures forall i :: 0 <= i < |documents| ==> r[i] == documents[i].pageContent
  {
    seq(|documents|, i requires 0 <= i < |documents| => documents[i].pageContent)
  }

  /** The grounding context: the page contents in retrieval order, separated by blank lines. */
  function Context(documents: seq<Document>): (r: string)
    ensures forall i :: 0 <= i < |documents| ==> Contains(r, documents[i].pageContent)
    ensures |documents| == 0 ==> r == ""
    ensures |documents| == 1 ==> r == documents[0].pageContent
    ensures |documents| > 1 ==> r == documents[0].pageContent + "\n\n" + Context(documents[1..])
  {
    assert |documents| > 1 ==> PageContents(documents)[1..] == PageContents(documents[1..]);
    JoinContainsParts(PageContents(documents), "\n\n");
    Join(PageContents(documents), "\n\n")
  }

  predicate HasSourceMetadata(d: Document)
  {
    "file_name" in d.metadata && "source_file_name" in d.metadata
  }

  /** The key whose lookup raises first for a document lacking metadata:
      `file_name` is read first, for the print. */
  function MissingKey(d: Document): string
  {
    if "file_name" !in d.metadata then "file_name" else "source_file_name"
  }

  /** The index of the first document lacking metadata, or the count. */
  function FirstMissing(documents: seq<Document>): (i: nat)
    ensures i <= |documents|
    ensures forall j :: 0 <= j < i ==> HasSourceMetadata(documents[j])
    ensures i < |documents| ==> !HasSourceMetadata(documents[i])
  {
    if |documents| == 0 then 0
    else if !HasSourceMetadata(documents[0]) then 0
    else 1 + FirstMissing(documents[1..])
  }

  /** One document's contribution to `context_sources`. */
  function SourceBlock(d: Document): string
    requires HasSourceMetadata(d)
  {
    "\n" + d.metadata["source_file_name"] + "\n" + d.metadata["file_name"] + "\n" + d.pageContent
  }

  /** The `source_file_name` of a document. */
  function SourceName(d: Document): string
    requires HasSourceMetadata(d)
  {
    d.metadata["source_file_name"]
  }

  /** The blocks of all documents, in retrieval order. */
  function SourceBlocks(documents: seq<Document>): string
    requires forall j :: 0 <= j < |documents| ==> HasSourceMetadata(documents[j])
  {
    if |documents| == 0 then ""
    else SourceBlocks(documents[..|documents| - 1]) + SourceBlock(documents[|documents| - 1])
  }

  function SourceNames(documents: seq<Document>): (r: seq<string>)
    requires forall j :: 0 <= j < |documents| ==> HasSourceMetadata(documents[j])
    ensures |r| == |documents|
    ensures forall j :: 0 <= j < |documents| ==> r[j] == SourceName(documents[j])
  {
    seq(|documents|, j requires 0 <= j < |documents| => SourceName(documents[j]))
  }

  /** The names of `names` without repeats, each kept where it first occurs. */
  function FirstOccurrences(names: seq<string>): seq<string>
  {
    if |names| == 0 then []
    else
      var seen := FirstOccurrences(names[..|names| - 1]);
      if names[|names| - 1] in seen then seen else seen + [names[|names| - 1]]
  }

  predicate NoDuplicates(s: seq<string>)
  {
    forall i, j :: 0 <= i < j < |s| ==> s[i] != s[j]
  }

  /** The index where `x` first occurs in `s`. */
  function FirstIndex(s: seq<string>, x: string): (i: nat)
    requires x in s
    ensures i < |s| && s[i] == x && x !in s[..i]
  {
    if s[0] == x then 0
    else
      var k := FirstIndex(s[1..], x);
      assert s[..k + 1] == [s[0]] + s[1..][..k];
      k + 1
  }

  /** `r` lists the distinct elements of `names` in the order of their first occurrence. */
  predicate InFirstOccurrenceOrder(r: seq<string>, names: seq<string>)
  {
    && NoDuplicates(r)
    && (forall i :: 0 <= i < |r| ==> r[i] in names)
    && (forall i :: 0 <= i < |names| ==> names[i] in r)
    && (forall i, j :: 0 <= i < j < |r| ==> FirstIndex(names, r[i]) < FirstIndex(names, r[j]))
  }

  lemma FirstIndexOfPrefix(s: seq<string>, n: nat, x: string)
    requires n <= |s| && x in s[..n]
    ensures x in s && FirstIndex(s[..n], x) == FirstIndex(s, x)
  {
    var a := FirstIndex(s[..n], x);
    assert s[..n][..a] == s[..a];
  }

  /** Extending the names keeps the first index of every name already present. */
  lemma FirstIndicesKept(prefix: seq<string>, x: string)
    ensures forall y :: y in prefix ==> y in prefix + [x] && FirstIndex(prefix, y) == FirstIndex(prefix + [x], y)
  {
    var names := prefix + [x];
    assert names[..|prefix|] == prefix;
    forall y | y in prefix
      ensures FirstIndex(prefix, y) == FirstIndex(names, y)
    {
      FirstIndexOfPrefix(names, |prefix|, y);
    }
  }

  /** A name seen before changes neither the filter's result nor its order. */
  lemma SeenNameKeepsOrder(prefix: seq<string>, x: string)
    requires InFirstOccurrenceOrder(FirstOccurrences(prefix), prefix)
    requires x in FirstOccurrences(prefix)
    ensures InFirstOccurrenceOrder(FirstOccurrences(prefix + [x]), prefix + [x])
  {
    var names := prefix + [x];
    var seen := FirstOccurrences(prefix);
    assert names[..|prefix|] == prefix;
    assert FirstOccurrences(names) == seen;
    FirstIndicesKept(prefix, x);
    forall i | 0 <= i < |names|
      ensures names[i] in seen
    {
      if i < |prefix| {
        assert names[i] == prefix[i];
      }
    }
  }

  /** A name absent from `prefix` first occurs at the end of `prefix + [x]`. */
  lemma NewNameIndex(prefix: seq<string>, x: string)
    requires x !in prefix
    ensures x in prefix + [x] && FirstIndex(prefix + [x], x) == |prefix|
  {
    var names := prefix + [x];
    assert names[|prefix|] == x;
    assert forall i :: 0 <= i < |prefix| ==> names[i] == prefix[i];
  }

  /** A name not yet listed can be appended without creating a repeat. */
  lemma NoDuplicatesSnoc(seen: seq<string>, x: string)
    requires NoDuplicates(seen) && x !in seen
    ensures NoDuplicates(seen + [x])
  {
    var r := seen + [x];
    forall i, j | 0 <= i < j < |r|
      ensures r[i] != r[j]
    {
      assert r[i] == seen[i];
      if j < |seen| {
        assert r[j] == seen[j];
      }
    }
  }

  /** Appending a new name after every listed one keeps the first-index order. */
  lemma FirstIndexOrderSnoc(seen: seq<string>, prefix: seq<string>, x: string)
    requires forall i :: 0 <= i < |seen| ==> seen[i] in prefix
    requires forall i, j :: 0 <= i < j < |seen| ==> FirstIndex(prefix, seen[i]) < FirstIndex(prefix, seen[j])
    requires x !in prefix
    ensures forall i :: 0 <= i < |seen + [x]| ==> (seen + [x])[i] in prefix + [x]
    ensures forall i, j :: 0 <= i < j < |seen + [x]| ==>
      FirstIndex(prefix + [x], (seen + [x])[i]) < FirstIndex(prefix + [x], (seen + [x])[j])
  {
    var names := prefix + [x];
    var r := seen + [x];
    NewNameIndex(prefix, x);
    FirstIndicesKept(prefix, x);
    forall i | 0 <= i < |r|
      ensures r[i] in names
    {
      if i < |seen| {
        assert r[i] == seen[i];
      }
    }
    forall i, j | 0 <= i < j < |r|
      ensures FirstIndex(names, r[i]) < FirstIndex(names, r[j])
    {
      assert r[i] == seen[i];
      if j < |seen| {
        assert r[j] == seen[j];
      } else {
        assert FirstIndex(names, r[i]) == FirstIndex(prefix, seen[i]) < |prefix|;
      }
    }
  }

  /** A new name goes last, and its first index is the last position. */
  lemma NewNameKeepsOrder(prefix: seq<string>, x: string)
    requires InFirstOccurrenceOrder(FirstOccurrences(prefix), prefix)
    requires x !in FirstOccurrences(prefix)
    ensures InFirstOccurrenceOrder(FirstOccurrences(prefix + [x]), prefix + [x])
  {
    var names := prefix + [x];
    var seen := FirstOccurrences(prefix);
    var r := seen + [x];
    assert names[..|prefix|] == prefix;
    assert FirstOccurrences(names) == r;
    assert x !in prefix by {
      forall i | 0 <= i < |prefix|
        ensures prefix[i] != x
      {
        assert prefix[i] in seen;
      }
    }
    NoDuplicatesSnoc(seen, x);
    FirstIndexOrderSnoc(seen, prefix, x);
    forall i | 0 <= i < |names|
      ensures names[i] in r
    {
      if i < |prefix| {
        assert names[i] == prefix[i];
      }
    }
  }

  /** The first-occurrence filter keeps exactly the distinct names, in the
      order in which each first appears. */
  lemma {:induction false} FirstOccurrencesOrder(names: seq<string>)
    ensures InFirstOccurrenceOrder(FirstOccurrences(names), names)
    decreases |names|
  {
    if |names| > 0 {
      var prefix := names[..|names| - 1];
      var x := names[|names| - 1];
      assert names == prefix + [x];
      FirstOccurrencesOrder(prefix);
      if x in FirstOccurrences(prefix) {
        SeenNameKeepsOrder(prefix, x);
      } else {
        NewNameKeepsOrder(prefix, x);
      }
    }
  }

  /** The `source_file_names` list and the `context_sources` string. */
  datatype Sources = Sources(sourceFileNames: seq<string>, contextSources: string)

  /** What the loop over the documents yields: a KeyError for the first
      document lacking metadata, or the de-duplicated source names and the
      concatenated blocks. */
  function SourcesOf(documents: seq<Document>): (r: Result<Sources>)
    ensures r.Ok? <==> forall j :: 0 <= j < |documents| ==> HasSourceMetadata(documents[j])
    ensures r.Raise? ==>
      exists i :: && 0 <= i < |documents| && !HasSourceMetadata(documents[i])
                  && r.exception == KeyError(MissingKey(documents[i]))
                  && forall j :: 0 <= j < i ==> HasSourceMetadata(documents[j])
    ensures r.Ok? ==> InFirstOccurrenceOrder(r.value.sourceFileNames, SourceNames(documents))
  {
    var m := FirstMissing(documents);
    if m < |documents| then Raise(KeyError(MissingKey(documents[m])))
    else
      FirstOccurrencesOrder(SourceNames(documents));
      Ok(Sources(FirstOccurrences(SourceNames(documents)), SourceBlocks(documents)))
  }

  lemma SourcesStep(documents: seq<Document>, i: nat)
    requires i < |documents|
    requires forall j :: 0 <= j <= i ==> HasSourceMetadata(documents[j])
    ensures SourceBlocks(documents[..i + 1]) == SourceBlocks(documents[..i]) + SourceBlock(documents[i])
    ensures SourceNames(documents[..i + 1]) == SourceNames(documents[..i]) + [SourceName(documents[i])]
    ensures FirstOccurrences(SourceNames(documents[..i + 1])) ==
      var seen := FirstOccurrences(SourceNames(documents[..i]));
      if SourceName(documents[i]) in seen then seen else seen + [SourceName(documents[i])]
  {
    assert documents[..i + 1][..i] == documents[..i];
    var names := SourceNames(documents[..i + 1]);
    assert names[..i] == SourceNames(documents[..i]);
  }

  /** The loop stops at the first document lacking metadata. */
  lemma SourcesOfAtMissing(documents: seq<Document>, i: nat)
    requires i < |documents| && !HasSourceMetadata(documents[i])
    requires forall j :: 0 <= j < i ==> HasSourceMetadata(documents[j])
    ensures SourcesOf(documents) == Raise(KeyError(MissingKey(documents[i])))
  {
    assert FirstMissing(documents) == i;
  }

  /** Appending one document's three lines to the string built so far
      appends its block. */
  lemma AppendBlock(before: string, d: Document)
    requires HasSourceMetadata(d)
    ensures before + "\n" + d.metadata["source_file_name"] + "\n" + d.metadata["file_name"] + "\n" + d.pageContent ==
            before + SourceBlock(d)
  {
  }

  /** The loop of `ask_database` over the retrieved documents. */
  method CollectSources(documents: seq<Document>) returns (r: Result<Sources>)
    ensures r == SourcesOf(documents)
  {
    var sourceFileNames: seq<string> := [];
    var contextSources := "";
    var i := 0;
    while i < |documents|
      invariant 0 <= i <= |documents|
      invariant forall j :: 0 <= j < i ==> HasSourceMetadata(documents[j])
      invariant sourceFileNames == FirstOccurrences(SourceNames(documents[..i]))
      invariant contextSources == SourceBlocks(documents[..i])
    {
      var document := documents[i];
      if "file_name" !in document.metadata {
        SourcesOfAtMissing(documents, i);
        return Raise(KeyError("file_name"));
      }
      if "source_file_name" !in document.metadata {
        SourcesOfAtMissing(documents, i);
        return Raise(KeyError("source_file_name"));
      }
      SourcesStep(documents, i);
      var sourceFileName := document.metadata["source_file_name"];
      if sourceFileName !in sourceFileNames {
        sourceFileNames := sourceFileNames + [sourceFileName];
      }
      AppendBlock(contextSources, document);
      contextSources := contextSources + "\n" + document.metadata["source_file_name"];
      contextSources := contextSources + "\n" + document.metadata["file_name"];
      contextSources := contextSources + "\n" + document.pageContent;
      i := i + 1;
    }
    assert documents[..i] == documents;
    return Ok(Sources(sourceFileNames, contextSources));
  }

  /** The blocks of two retrievals back to back are the blocks of each in turn. */
  lemma {:induction false} SourceBlocksAppend(a: seq<Document>, b: seq<Document>)
    requires forall j :: 0 <= j < |a| ==> HasSourceMetadata(a[j])
    requires forall j :: 0 <= j < |b| ==> HasSourceMetadata(b[j])
    ensures SourceBlocks(a + b) == SourceBlocks(a) + SourceBlocks(b)
    decreases |b|
  {
    if |b| == 0 {
      assert a + b == a;
    } else {
      var c := a + b;
      var front := b[..|b| - 1];
      var last := b[|b| - 1];
      assert c[..|c| - 1] == a + front;
      assert c[|c| - 1] == last;
      SourceBlocksAppend(a, front);
      assert SourceBlocks(c) == SourceBlocks(a + front) + SourceBlock(last);
      assert SourceBlocks(b) == SourceBlocks(front) + SourceBlock(last);
    }
  }

  /* ---------------- the whole call ---------------- */

  /** What `chain.invoke` did: an answer, or an exception with its `str` form. */
  datatype Generation = Generated(answer: string) | GenerationFailed(description: string)

  /** The answer text: the chain's answer, or `str(e)` of its exception. */
  function AnswerText(g: Generation): string
  {
    match g
    case Generated(answer) => answer
    case GenerationFailed(description) => description
  }

  /** The pair `ask_database` returns. */
  datatype Answer = Answer(answer: string, feedbackId: string)

  /** `ask_database(k, score_threshold, question)`. Detection, retrieval and
      the metadata lookups may raise; a failing generation does not: its
      description becomes the answer. `freshId` is the id `shortuuid.uuid()`
      returns, assumed unused among the ids already `issued`. */
  function AskDatabase(k: int, scoreThreshold: real, question: string,
                       detect: string -> Detection,
                       retrieve: (SearchKwargs, string) -> Result<seq<Document>>,
                       invoke: string -> Generation,
                       freshId: string, issued: set<string>): (r: Result<Answer>)
    requires freshId !in issued
    ensures var retrieved := retrieve(SearchKwargs(k, Some(scoreThreshold)), question);
      r.Ok? <==>
        && !DetectLanguage(question, detect).Raise?
        && retrieved.Ok?
        && FirstMissing(retrieved.value) == |retrieved.value|
    ensures r.Ok? ==> r.value.feedbackId !in issued
    ensures r.Ok? ==> r.value.answer == AnswerText(invoke(question))
    ensures DetectLanguage(question, detect).Raise? ==> r == Raise(DetectLanguage(question, detect).exception)
    ensures var retrieved := retrieve(SearchKwargs(k, Some(scoreThreshold)), question);
      !DetectLanguage(question, detect).Raise? && retrieved.Raise? ==> r == Raise(retrieved.exception)
  {
    var language :- DetectLanguage(question, detect);
    var kwargs := RetrieverKwargs(k, scoreThreshold, SearchType);
    var documents :- retrieve(kwargs, question);
    var context := Context(documents);
    var sources :- SourcesOf(documents);
    Ok(Answer(AnswerText(invoke(question)), freshId))
  }

  /** A document without `file_name` or `source_file_name` metadata raises
      KeyError whatever the generation would have done. */
  lemma MissingMetadataRaises(k: int, scoreThreshold: real, question: string,
                              detect: string -> Detection,
                              retrieve: (SearchKwargs, string) -> Result<seq<Document>>,
                              invoke: string -> Generation, freshId: string, issued: set<string>, i: nat)
    requires freshId !in issued
    requires !DetectLanguage(question, detect).Raise?
    requires retrieve(SearchKwargs(k, Some(scoreThreshold)), question).Ok?
    requires var documents := retrieve(SearchKwargs(k, Some(scoreThreshold)), question).value;
      i < |documents| && !HasSourceMetadata(documents[i])
    ensures var documents := retrieve(SearchKwargs(k, Some(scoreThreshold)), question).value;
      AskDatabase(k, scoreThreshold, question, detect, retrieve, invoke, freshId, issued) ==
        Raise(KeyError(MissingKey(documents[FirstMissing(documents)])))
  {
    FixedSearchTypeKeepsThreshold(k, scoreThreshold);
  }

  /** With nothing retrieved the call still answers, from an empty context. */
  lemma EmptyRetrievalStillAnswers(k: int, scoreThreshold: real, question: string,
                                   detect: string -> Detection,
                                   retrieve: (SearchKwargs, string) -> Result<seq<Document>>,
                                   invoke: string -> Generation, freshId: string, issued: set<string>)
    requires freshId !in issued
    requires !DetectLanguage(question, detect).Raise?
    requires retrieve(SearchKwargs(k, Some(scoreThreshold)), question) == Ok([])
    ensures AskDatabase(k, scoreThreshold, question, detect, retrieve, invoke, freshId, issued).Ok?
    ensures Context([]) == ""
  {
  }

  /** Two calls in a row, each with its own question, retriever and chain
      (every call reaches the model afresh), the second drawing its id after
      the first: each answer carries the id drawn for its own call, so the
      two feedback ids differ whatever either call retrieved or generated. */
  lemma ConsecutiveCallsGetDistinctIds(k1: int, scoreThreshold1: real, question1: string,
                                       detect1: string -> Detection,
                                       retrieve1: (SearchKwargs, string) -> Result<seq<Document>>,
                                       invoke1: string -> Generation,
                                       k2: int, scoreThreshold2: real, question2: string,
                                       detect2: string -> Detection,
                                       retrieve2: (SearchKwargs, string) -> Result<seq<Document>>,
                                       invoke2: string -> Generation,
                                       id1: string, id2: string, issued: set<string>)
    requires id1 !in issued && id2 !in issued + {id1}
    ensures var first := AskDatabase(k1, scoreThreshold1, question1, detect1, retrieve1, invoke1, id1, issued);
      var second := AskDatabase(k2, scoreThreshold2, question2, detect2, retrieve2, invoke2, id2, issued + {id1});
      && (first.Ok? ==> first.value.feedbackId == id1)
      && (second.Ok? ==> second.value.feedbackId == id2)
      && (first.Ok? && second.Ok? ==> first.value.feedbackId != second.value.feedbackId)
  {
  }
}
