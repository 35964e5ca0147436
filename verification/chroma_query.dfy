/** `chroma_query_tool` of main.py: validate the query text, ask the job
    collection for its nearest neighbours and copy the metadata row of every
    returned document into the reply envelope. The collection's similarity
    search itself is foreign: it is the parameter `store`. */
module ChromaQuery {
  import opened Py

  /** What `jobs_collection.query(query_texts=[q], n_results=k)` does: it
      raises, or it returns the per-query rows of documents and metadata.
      `documents == None` stands for a reply without a `"documents"` entry;
      `metadatas == None` for a `"metadatas"` entry that is `None`. */
  datatype StoreReply =
    | StoreRaised(message: string)
    | Returned(documents: Option<seq<seq<string>>>, metadatas: Option<seq<seq<Value>>>)

  /** The dictionary the tool returns on every path. */
  datatype QueryEnvelope = QueryEnvelope(
    results: seq<Value>,
    queryText: Value,
    topK: int,
    numReturned: int,
    error: Option<string>)

  const InvalidQueryError := "Invalid or empty query_text."
  const ExceptionPrefix := "CHROMA_EXCEPTION: "
  const IndexErrorMessage := "list index out of range"
  const NoneSubscriptMessage := "'NoneType' object is not subscriptable"

  /** The guard `isinstance(query_text, str) and len(query_text.strip()) > 0`. */
  predicate IsQueryText(q: Value)
  {
    q.Str? && |Strip(q.s)| != 0
  }

  /** The documents of the first query row, when the reply has any row. */
  function FirstDocuments(reply: StoreReply): seq<string>
  {
    if reply.Returned? && reply.documents.Some? && |reply.documents.value| > 0
    then reply.documents.value[0]
    else []
  }

  /** Every document of the first row has a metadata entry at its index. */
  predicate MetadataCovers(reply: StoreReply)
  {
    FirstDocuments(reply) != [] ==>
      reply.Returned? && reply.metadatas.Some? && |reply.metadatas.value| > 0 &&
      |FirstDocuments(reply)| <= |reply.metadatas.value[0]|
  }

  /** The message of the exception that the metadata lookup raises when it does not cover the documents. */
  function LookupError(reply: StoreReply): string
  {
    if reply.Returned? && reply.metadatas.None? then NoneSubscriptMessage else IndexErrorMessage
  }

  /** The envelope of the `except` branch. */
  function ExceptionEnvelope(queryText: Value, topK: int, message: string): QueryEnvelope
  {
    QueryEnvelope([], queryText, topK, 0, Some(ExceptionPrefix + message))
  }

  /** `chroma_query_tool(tool_context, query_text, top_k)`. `calls` lists the
      searches made on the collection. */
  method ChromaQueryTool(queryText: Value, topK: int, store: (string, int) -> StoreReply)
    returns (env: QueryEnvelope, calls: seq<(string, int)>)
    // The query text and top_k are echoed, and the count is the list's length, on every path.
    ensures env.queryText == queryText && env.topK == topK
    ensures env.numReturned == |env.results|
    // An invalid query never reaches the collection.
    ensures !IsQueryText(queryText) ==>
      calls == [] && env.results == [] && env.error == Some(InvalidQueryError)
    ensures IsQueryText(queryText) ==> calls == [(queryText.s, topK)]
    // A failing search is reported with the CHROMA_EXCEPTION prefix.
    ensures IsQueryText(queryText) && store(queryText.s, topK).StoreRaised? ==>
      env.results == [] && env.error == Some(ExceptionPrefix + store(queryText.s, topK).message)
    // A successful search yields one metadata entry per document, in the collection's order.
    ensures IsQueryText(queryText) && store(queryText.s, topK).Returned? ==>
      var reply := store(queryText.s, topK);
      if MetadataCovers(reply) then
        && env.error == None
        && |env.results| == |FirstDocuments(reply)|
        && forall i :: 0 <= i < |env.results| ==> env.results[i] == reply.metadatas.value[0][i]
      else
        env.results == [] && env.error == Some(ExceptionPrefix + LookupError(reply))
  {
    if !queryText.Str? || |Strip(queryText.s)| == 0 {
      return QueryEnvelope([], queryText, topK, 0, Some(InvalidQueryError)), [];
    }
    calls := [(queryText.s, topK)];
    var reply := store(queryText.s, topK);
    if reply.StoreRaised? {
      return ExceptionEnvelope(queryText, topK, reply.message), calls;
    }
    var documents := CollectMetadata(reply);
    match documents
    case Raise(message) =>
      env := ExceptionEnvelope(queryText, topK, message);
    case Ok(rows) =>
      env := QueryEnvelope(rows, queryText, topK, |rows|, None);
  }

  /** The loop `for idx, doc in enumerate(documents[0]): documents.append(metadatas[0][idx])`,
      run when the reply has a first row of documents, and the exception it
      raises when the metadata does not cover every document. */
  method CollectMetadata(reply: StoreReply) returns (r: Result<seq<Value>>)
    requires reply.Returned?
    ensures r.Ok? <==> MetadataCovers(reply)
    ensures r.Ok? ==> |r.value| == |FirstDocuments(reply)|
    ensures r.Ok? ==> forall i :: 0 <= i < |r.value| ==> r.value[i] == reply.metadatas.value[0][i]
    ensures r.Raise? ==> r.error == LookupError(reply)
  {
    var row := FirstDocuments(reply);
    var documents: seq<Value> := [];
    var idx := 0;
    while idx < |row|
      invariant 0 <= idx <= |row|
      invariant idx > 0 ==> reply.metadatas.Some? && |reply.metadatas.value| > 0
      invariant idx > 0 ==> idx <= |reply.metadatas.value[0]|
      invariant |documents| == idx
      invariant forall i :: 0 <= i < idx ==> documents[i] == reply.metadatas.value[0][i]
    {
      if reply.metadatas.None? {
        return Raise(NoneSubscriptMessage);
      }
      if |reply.metadatas.value| == 0 || idx >= |reply.metadatas.value[0]| {
        return Raise(IndexErrorMessage);
      }
      documents := documents + [reply.metadatas.value[0][idx]];
      idx := idx + 1;
    }
    return Ok(documents);
  }
}
