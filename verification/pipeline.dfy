/** How the two services meet in the vector store: the data processor
    writes chunks, the backend retrieves them as documents for
    `ask_database`. */
module Pipeline {
  import opened Exceptions
  import opened LangDetect
  import DataProcessor
  import LangchainLlmClient

  /** A stored text as the retriever hands it back. */
  function DocumentOf(t: DataProcessor.StoredText): LangchainLlmClient.Document
  {
    LangchainLlmClient.Document(t.text, t.metadata)
  }

  /** The ingestion loop stores chunks without metadata, while `ask_database`
      reads `file_name` from every retrieved document. So when the store holds
      only what ingestion wrote, any question that retrieves something fails
      with KeyError('file_name') instead of being answered. */
  lemma IngestedChunksCannotBeCited(fileList: seq<DataProcessor.FileRecord>, store: DataProcessor.Store,
                                    split: string -> seq<string>, fault: DataProcessor.StoreFault, info: DataProcessor.Info,
                                    k: int, scoreThreshold: real, question: string,
                                    detect: string -> Detection,
                                    retrieve: (LangchainLlmClient.SearchKwargs, string) -> Result<seq<LangchainLlmClient.Document>>,
                                    invoke: string -> LangchainLlmClient.Generation,
                                    freshId: string, issued: set<string>)
    requires forall i :: 0 <= i < |store.texts| ==> store.texts[i].metadata == map[]
    requires freshId !in issued
    requires !LangchainLlmClient.DetectLanguage(question, detect).Raise?
    requires var after := DataProcessor.Ingest(fileList, store, split, fault, info).store;
      var retrieved := retrieve(LangchainLlmClient.SearchKwargs(k, Some(scoreThreshold)), question);
      && retrieved.Ok? && |retrieved.value| > 0
      && forall j :: 0 <= j < |retrieved.value| ==> exists i :: 0 <= i < |after.texts| && retrieved.value[j] == DocumentOf(after.texts[i])
    ensures LangchainLlmClient.AskDatabase(k, scoreThreshold, question, detect, retrieve, invoke, freshId, issued) ==
      Raise(KeyError("file_name"))
  {
    var after := DataProcessor.Ingest(fileList, store, split, fault, info).store;
    var documents := retrieve(LangchainLlmClient.SearchKwargs(k, Some(scoreThreshold)), question).value;
    var i :| 0 <= i < |after.texts| && documents[0] == DocumentOf(after.texts[i]);
    if i >= |store.texts| {
      assert after.texts[i].metadata == map[];
    } else {
      assert after.texts[i] == store.texts[i];
    }
    assert !LangchainLlmClient.HasSourceMetadata(documents[0]);
    LangchainLlmClient.MissingMetadataRaises(k, scoreThreshold, question, detect, retrieve, invoke, freshId, issued, 0);
  }
}
