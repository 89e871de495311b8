/**
 * The vocabulary of the document-store SDK the infrastructure code talks to:
 * resource addresses, request options, documents, the calls made on the
 * underlying document client and the replies they get.
 */
module Documents {
  import opened Wrappers
  import opened Exceptions
  import opened Models

  /**
   * Resource addresses, as built by the SDK's URI factory: a database,
   * a collection of a database, or a document of a collection. A document
   * address records the id exactly as it was passed, null included.
   */
  datatype Uri =
    | DatabaseUri(databaseId: string)
    | DocumentCollectionUri(databaseId: string, collectionId: string)
    | DocumentUri(databaseId: string, collectionId: string, documentId: Option<string>)

  datatype PartitionKey = PartitionKey(value: string)

  /** A request-options bag; its only field used here is the partition key (null = none). */
  datatype RequestOptions = RequestOptions(partitionKey: Option<PartitionKey>)

  /** A cancellation token: the default (never cancelled) one, or one issued by a source. */
  datatype CancellationToken = DefaultToken | SourceToken(source: nat)

  /** The underlying document-client connection (an IDocumentClient handle). */
  datatype ConnectionHandle = ConnectionHandle(handle: nat)

  /**
   * A stored document. JSON serialisation preserves every field, so a
   * document carries the entity's id and the entity's other fields.
   */
  datatype Document<F> = Document(id: Option<string>, body: F)

  function Serialize<F>(e: Entity<F>): (d: Document<F>)
    ensures d.id == e.id && d.body == e.fields
  {
    Document(e.id, e.fields)
  }

  function Deserialize<F>(d: Document<F>): (e: Entity<F>)
    ensures e.id == d.id && e.fields == d.body
  {
    Entity(d.id, d.body)
  }

  /** One call on the underlying document client, with every argument it was given. */
  datatype DocumentCall<F> =
    | ReadDocument(uri: Uri, options: Option<RequestOptions>, token: CancellationToken)
    | CreateDocument(uri: Uri, document: Document<F>, options: Option<RequestOptions>,
                     disableAutomaticIdGeneration: bool, token: CancellationToken)
    | ReplaceDocument(uri: Uri, document: Document<F>, options: Option<RequestOptions>, token: CancellationToken)
    | DeleteDocument(uri: Uri, options: Option<RequestOptions>, token: CancellationToken)

  /** The store's answer to a document call: the resulting document, or a failure status. */
  datatype Reply<F> = Done(document: Document<F>) | Failed(statusCode: int)

  /** The existence checks made at startup. */
  datatype SetupCall = ReadDatabase(uri: Uri) | ReadDocumentCollection(uri: Uri)

  datatype CheckReply = Found | CheckFailed(statusCode: int)

  /** What an operation did: the document calls it made, in order, and its result or exception. */
  datatype Outcome<R, F> = Outcome(calls: seq<DocumentCall<F>>, result: Result<R, Exception>)
}
