/** The server of api/app.py: the readiness gate formed by the module globals
    `vector_db` and `pdf_content`, prompt assembly for the two chat endpoints, and the
    filter through which the completion stream reaches the client.

    File handling, PDF text extraction, chunking, embedding and the completion service
    are not modelled: their results arrive as parameters. */
module Api {
  import opened Wrappers
  import Text
  import opened VectorDb

  /** The role of a chat message sent to the completion service. */
  datatype Role = Developer | System | User

  datatype Message = Message(role: Role, content: string)

  /** What `client.chat.completions.create(model=..., messages=..., stream=True)` is asked. */
  datatype Completion = Completion(model: string, messages: seq<Message>)

  /** A streaming reply: the request sent to the completion service and the text the
      `generate` generator yields. */
  datatype ChatReply = ChatReply(request: Completion, streamed: seq<string>)

  /** An HTTPException as the client receives it. */
  datatype HttpError = HttpError(status: nat, detail: string)

  /** The JSON body of a successful upload. */
  datatype UploadReply = UploadReply(status: string, message: string, chunksCount: nat, totalCharacters: nat)

  /** The JSON body of `/api/pdf-status`. */
  datatype PdfStatus =
    | NotUploaded(message: string)
    | Uploaded(message: string, chunksCount: nat, totalCharacters: nat)

  /** `ChatRequest`: the body of `/api/chat`. */
  datatype ChatRequest = ChatRequest(developerMessage: string, userMessage: string, model: string, apiKey: string)

  /** What reading and loading the uploaded file produced: the loader's documents, or the
      text of the exception raised while reading, writing or loading it. */
  datatype Loaded = LoadFailed(reason: string) | Documents(documents: seq<string>)

  /** How indexing went: the embedding model could not be created (before `vector_db` is
      assigned), embedding the chunks raised (after), or the embeddings of the chunks. */
  datatype Indexing = ModelUnavailable(reason: string) | EmbeddingFailed(reason: string) | Embedded(vectors: seq<Vector>)

  /** How many chunks `chat_with_pdf` retrieves. */
  const TopK := 3

  /** The instructions placed before the retrieved context in the RAG system message. */
  const RagPreamble :=
    "You are a helpful assistant that answers questions based on the provided PDF content. \n"
    + "Use the following context from the PDF to answer the user's question. If the answer cannot be found in the context, \n"
    + "say so politely and suggest what information might be helpful.\n\nContext from PDF:\n"

  const UploadFailurePrefix := "Error processing PDF: "
  const NotPdf := "Only PDF files are allowed"
  const EmptyPdf := "PDF appears to be empty or could not be processed"
  const NoPdfYet := "No PDF has been uploaded yet. Please upload a PDF first."

  /** Python's `str.isspace`, the characters `str.strip()` removes. */
  predicate PyIsSpace(c: char)
  {
    || c == ' ' || '\t' <= c <= '\r' || '\U{1c}' <= c <= '\U{1f}' || c == '\U{85}' || c == '\U{a0}'
    || c == '\U{1680}' || '\U{2000}' <= c <= '\U{200a}' || c == '\U{2028}' || c == '\U{2029}'
    || c == '\U{202f}' || c == '\U{205f}' || c == '\U{3000}'
  }

  /** `str(HTTPException(status, detail))`, which the framework renders "<status>: <detail>". */
  function HttpExceptionText(status: nat, detail: string): string
  {
    Text.NatToString(status) + ": " + detail
  }

  /** `filename.lower().endswith('.pdf')`. */
  predicate IsPdfName(filename: string)
  {
    Text.EndsWith(Text.Lower(filename), ".pdf")
  }

  /** Every way `upload_pdf` can fail reaches the client as a 500 carrying this prefix. */
  function UploadFailure(reason: string): (e: HttpError)
    ensures e.status == 500 && UploadFailurePrefix <= e.detail
  {
    HttpError(500, UploadFailurePrefix + reason)
  }

  /** `loader.documents[0] if loader.documents else ""`. */
  function FirstDocument(documents: seq<string>): string
  {
    if documents == [] then "" else documents[0]
  }

  /** `"\n\n".join(relevant_chunks)`. */
  function RagContext(chunks: seq<string>): string
  {
    Text.Join("\n\n", chunks)
  }

  /** The system message of `chat_with_pdf`: the instructions, then the context verbatim. */
  function RagSystemMessage(context: string): (m: string)
    ensures RagPreamble <= m && m[|RagPreamble|..] == context
  {
    RagPreamble + context
  }

  /** The non-None deltas of the completion stream, in stream order: what `generate` yields. */
  function Yielded(deltas: seq<Option<string>>): seq<string>
    decreases |deltas|
  {
    if deltas == [] then []
    else
      var last := deltas[|deltas| - 1];
      Yielded(deltas[..|deltas| - 1]) + (if last.Some? then [last.value] else [])
  }

  /** The filter works piece by piece: what a longer stream yields extends what its prefix
      yielded, every None is dropped and every other delta is passed on once, in order. */
  lemma {:induction false} YieldedAppend(a: seq<Option<string>>, b: seq<Option<string>>)
    ensures Yielded(a + b) == Yielded(a) + Yielded(b)
    decreases |b|
  {
    if b != [] {
      var b' := b[..|b| - 1];
      assert (a + b)[..|a + b| - 1] == a + b';
      YieldedAppend(a, b');
    } else {
      assert a + b == a;
    }
  }

  /** A stream of only None yields nothing; one of only text yields all of it. */
  lemma {:induction false} YieldedBounds(deltas: seq<Option<string>>)
    ensures |Yielded(deltas)| <= |deltas|
    ensures (forall i :: 0 <= i < |deltas| ==> deltas[i].Some?) ==> |Yielded(deltas)| == |deltas|
    ensures (forall i :: 0 <= i < |deltas| ==> deltas[i].None?) ==> Yielded(deltas) == []
    ensures forall t :: t in Yielded(deltas) ==> Some(t) in deltas
    decreases |deltas|
  {
    if deltas != [] {
      var front := deltas[..|deltas| - 1];
      YieldedBounds(front);
      assert forall t :: Some(t) in front ==> Some(t) in deltas;
    }
  }

  /** A database left empty by a failed indexing run still opens the gate of
      `chat_with_pdf`: the search finds nothing and the system message carries the
      instructions with an empty context. */
  lemma EmptyIndexContext(query: Vector, cosine: Measure)
    ensures SearchResults(EmptyStore, query, TopK, cosine, map[]) == []
    ensures RagSystemMessage(RagContext(HitKeys(SearchResults(EmptyStore, query, TopK, cosine, map[])))) == RagPreamble
  {
    SearchResultsSpec(EmptyStore, query, TopK, cosine, map[]);
  }

  /** The loop of `generate`: passes on `delta.content` whenever it is not None. */
  method StreamDeltas(deltas: seq<Option<string>>) returns (out: seq<string>)
    ensures out == Yielded(deltas)
  {
    out := [];
    for i := 0 to |deltas|
      invariant out == Yielded(deltas[..i])
    {
      assert deltas[..i + 1][..i] == deltas[..i];
      if deltas[i].Some? {
        out := out + [deltas[i].value];
      }
    }
    assert deltas[..|deltas|] == deltas;
  }

  /** `/api/chat`: sends the developer message then the user message, and streams the
      non-None deltas back. */
  method Chat(request: ChatRequest, deltas: seq<Option<string>>) returns (reply: ChatReply)
    ensures reply.request.model == request.model
    ensures reply.request.messages == [Message(Developer, request.developerMessage), Message(User, request.userMessage)]
    ensures reply.streamed == Yielded(deltas)
  {
    var messages := [Message(Developer, request.developerMessage), Message(User, request.userMessage)];
    var streamed := StreamDeltas(deltas);
    reply := ChatReply(Completion(request.model, messages), streamed);
  }

  /** Indexing keys the fresh database by chunk text, so it holds at most one vector per
      chunk, and strictly fewer when a chunk repeats. */
  lemma IndexedChunkCount(chunks: seq<string>, vectors: seq<Vector>)
    ensures var count := |Built(EmptyStore, chunks, vectors, []).vectors|;
      && count <= |chunks|
      && ((exists i, j :: 0 <= i < j < |chunks| && chunks[i] == chunks[j]) ==> count < |chunks|)
  {
    BuiltDistinctKeys(chunks, vectors, []);
    if exists i, j :: 0 <= i < j < |chunks| && chunks[i] == chunks[j] {
      var i, j :| 0 <= i < j < |chunks| && chunks[i] == chunks[j];
      if Min(|chunks|, |vectors|) == |chunks| {
        assert 0 <= i < j < Min(|chunks|, |vectors|) && chunks[i] == chunks[j];
      }
    }
  }

  /** The module state of api/app.py: `vector_db` (null for None) and `pdf_content`. */
  class Server {
    var vectorDb: VectorDatabase?
    var pdfContent: Option<string>

    /** `pdf_content` is always assigned before `vector_db`, so a database never exists
        without a text. */
    ghost predicate Valid()
      reads this, vectorDb
    {
      vectorDb != null ==> vectorDb.Valid() && pdfContent.Some?
    }

    /** Both globals start as None. */
    constructor ()
      ensures Valid() && vectorDb == null && pdfContent == None
    {
      vectorDb, pdfContent := null, None;
    }

    /** `get_pdf_status`. */
    function PdfStatusReply(): (r: PdfStatus)
      reads this, vectorDb
      ensures r.NotUploaded? <==> vectorDb == null || pdfContent.None?
      ensures r.NotUploaded? ==> r.message == "No PDF has been uploaded"
      ensures r.Uploaded? ==> r.message == "PDF is ready for chat" && vectorDb != null && pdfContent.Some?
      ensures r.Uploaded? ==> r.chunksCount == |vectorDb.vectors| && r.totalCharacters == |pdfContent.value|
    {
      if vectorDb == null || pdfContent.None? then NotUploaded("No PDF has been uploaded")
      else Uploaded("PDF is ready for chat", |vectorDb.vectors|, |pdfContent.value|)
    }

    /** `upload_pdf`. The file-type 400 and the empty-text 400 are raised inside the outer
        `try`, whose handler turns every exception into a 500. `pdf_content` is written
        before the emptiness check, and `vector_db` is replaced by a fresh database before
        indexing runs, so both survive the failures that follow them. */
    method UploadPdf(filename: string, loaded: Loaded, chunks: seq<string>, indexing: Indexing)
      returns (reply: Result<UploadReply, HttpError>)
      requires Valid()
      modifies this
      ensures Valid()
      ensures !IsPdfName(filename) ==>
        reply == Err(UploadFailure(HttpExceptionText(400, NotPdf)))
        && vectorDb == old(vectorDb) && pdfContent == old(pdfContent)
      ensures IsPdfName(filename) && loaded.LoadFailed? ==>
        reply == Err(UploadFailure(loaded.reason))
        && vectorDb == old(vectorDb) && pdfContent == old(pdfContent)
      ensures IsPdfName(filename) && loaded.Documents? ==> pdfContent == Some(FirstDocument(loaded.documents))
      ensures IsPdfName(filename) && loaded.Documents? && Text.Blank(FirstDocument(loaded.documents), PyIsSpace) ==>
        reply == Err(UploadFailure(HttpExceptionText(400, EmptyPdf))) && vectorDb == old(vectorDb)
      ensures IsPdfName(filename) && loaded.Documents? && !Text.Blank(FirstDocument(loaded.documents), PyIsSpace) ==>
        match indexing
        case ModelUnavailable(reason) =>
          reply == Err(UploadFailure(reason)) && vectorDb == old(vectorDb)
        case EmbeddingFailed(reason) =>
          reply == Err(UploadFailure(reason)) && vectorDb != null && fresh(vectorDb)
          && vectorDb.State() == EmptyStore
          && PdfStatusReply() == Uploaded("PDF is ready for chat", 0, |FirstDocument(loaded.documents)|)
        case Embedded(vectors) =>
          && reply == Ok(UploadReply("success", "PDF '" + filename + "' uploaded and indexed successfully",
                                     |chunks|, |FirstDocument(loaded.documents)|))
          && vectorDb != null && fresh(vectorDb)
          && vectorDb.State() == Built(EmptyStore, chunks, vectors, [])
          && PdfStatusReply().Uploaded?
          && PdfStatusReply().chunksCount <= reply.value.chunksCount
          && ((exists i, j :: 0 <= i < j < |chunks| && chunks[i] == chunks[j]) ==>
                PdfStatusReply().chunksCount < reply.value.chunksCount)
    {
      if !IsPdfName(filename) {
        return Err(UploadFailure(HttpExceptionText(400, NotPdf)));
      }
      if loaded.LoadFailed? {
        return Err(UploadFailure(loaded.reason));
      }
      var text := FirstDocument(loaded.documents);
      pdfContent := Some(text);
      Text.StripEmptyIffBlank(text, PyIsSpace);
      if Text.Strip(text, PyIsSpace) == "" {
        return Err(UploadFailure(HttpExceptionText(400, EmptyPdf)));
      }
      if indexing.ModelUnavailable? {
        return Err(UploadFailure(indexing.reason));
      }
      var db := new VectorDatabase();
      vectorDb := db;
      if indexing.EmbeddingFailed? {
        return Err(UploadFailure(indexing.reason));
      }
      db.AbuildFromList(chunks, indexing.vectors, []);
      IndexedChunkCount(chunks, indexing.vectors);
      reply := Ok(UploadReply("success", "PDF '" + filename + "' uploaded and indexed successfully",
                              |chunks|, |text|));
    }

    /** `chat_with_pdf`, given the embedding of the question and the similarity that
        `search_by_text` uses by default (`cosine`). Refuses with a 400, re-raised as a 500,
        while no database exists; otherwise sends a system message holding the top three
        chunks and the question, and streams the non-None deltas back. */
    method ChatWithPdf(message: string, model: string, queryEmbedding: Result<Vector, string>,
                       cosine: Measure, deltas: seq<Option<string>>)
      returns (reply: Result<ChatReply, HttpError>)
      requires Valid()
      ensures vectorDb == null ==> reply == Err(HttpError(500, HttpExceptionText(400, NoPdfYet)))
      ensures vectorDb != null && queryEmbedding.Err? ==> reply == Err(HttpError(500, queryEmbedding.error))
      ensures vectorDb != null && queryEmbedding.Ok? ==>
        var chunks := HitKeys(SearchResults(vectorDb.State(), queryEmbedding.value, TopK, cosine, map[]));
        && |chunks| <= TopK
        && reply == Ok(ChatReply(Completion(model, [Message(System, RagSystemMessage(RagContext(chunks))),
                                                    Message(User, message)]),
                                 Yielded(deltas)))
    {
      if vectorDb == null {
        return Err(HttpError(500, HttpExceptionText(400, NoPdfYet)));
      }
      if queryEmbedding.Err? {
        return Err(HttpError(500, queryEmbedding.error));
      }
      var results := vectorDb.SearchByText(queryEmbedding.value, TopK, cosine, true, map[]);
      SearchResultsSpec(vectorDb.State(), queryEmbedding.value, TopK, cosine, map[]);
      var systemMessage := RagSystemMessage(RagContext(results.texts));
      var streamed := StreamDeltas(deltas);
      reply := Ok(ChatReply(Completion(model, [Message(System, systemMessage), Message(User, message)]), streamed));
    }
  }
}
