/**
 * CosmosDbClient: a client bound to one collection of one database, which
 * addresses the four document operations and forwards them to the underlying
 * document client.
 */
module Client {
  import opened Wrappers
  import opened Exceptions
  import opened Documents

  /** The three readonly fields the constructor sets. */
  datatype CosmosDbClient = CosmosDbClient(databaseName: string, collectionName: string, documentClient: ConnectionHandle)

  /** The constructor: each argument is checked for null, in declaration order. Empty names are accepted. */
  function New(databaseName: Option<string>, collectionName: Option<string>, documentClient: Option<ConnectionHandle>)
    : (r: Result<CosmosDbClient, Exception>)
    ensures r.Ok? <==> databaseName.Some? && collectionName.Some? && documentClient.Some?
    ensures r.Ok? ==> r.value.databaseName == databaseName.value && r.value.collectionName == collectionName.value
                      && r.value.documentClient == documentClient.value
    ensures databaseName.None? ==> r == Err(ArgumentNullException("databaseName"))
    ensures databaseName.Some? && collectionName.None? ==> r == Err(ArgumentNullException("collectionName"))
    ensures databaseName.Some? && collectionName.Some? && documentClient.None?
            ==> r == Err(ArgumentNullException("documentClient"))
  {
    if databaseName.None? then Err(ArgumentNullException("databaseName"))
    else if collectionName.None? then Err(ArgumentNullException("collectionName"))
    else if documentClient.None? then Err(ArgumentNullException("documentClient"))
    else Ok(CosmosDbClient(databaseName.value, collectionName.value, documentClient.value))
  }

  /** The address of a document of this client's collection. */
  function DocumentAddress(c: CosmosDbClient, documentId: Option<string>): (u: Uri)
    ensures u.DocumentUri? && u.documentId == documentId
    ensures u.databaseId == c.databaseName && u.collectionId == c.collectionName
  {
    DocumentUri(c.databaseName, c.collectionName, documentId)
  }

  /** The address of this client's collection itself. */
  function CollectionAddress(c: CosmosDbClient): (u: Uri)
    ensures u.DocumentCollectionUri? && u.databaseId == c.databaseName && u.collectionId == c.collectionName
  {
    DocumentCollectionUri(c.databaseName, c.collectionName)
  }

  /** The underlying client's reply, returned as it is: no retry, no translation. */
  function Forward<F>(reply: Reply<F>): (r: Result<Document<F>, Exception>)
    ensures r.Ok? <==> reply.Done?
    ensures r.Ok? ==> r.value == reply.document
    ensures r.Err? ==> r.error == DocumentClientException(reply.statusCode)
  {
    match reply
    case Done(d) => Ok(d)
    case Failed(status) => Err(DocumentClientException(status))
  }

  function ReadDocumentAsync<F>(c: CosmosDbClient, send: DocumentCall<F> -> Reply<F>, documentId: Option<string>,
                                options: Option<RequestOptions> := None, token: CancellationToken := DefaultToken)
    : (o: Outcome<Document<F>, F>)
    ensures |o.calls| == 1 && o.calls[0].ReadDocument?
    ensures o.calls[0].uri == DocumentAddress(c, documentId)
    ensures o.calls[0].options == options && o.calls[0].token == token
    ensures o.result == Forward(send(o.calls[0]))
  {
    var call := ReadDocument(DocumentAddress(c, documentId), options, token);
    Outcome([call], Forward(send(call)))
  }

  function CreateDocumentAsync<F>(c: CosmosDbClient, send: DocumentCall<F> -> Reply<F>, document: Document<F>,
                                  options: Option<RequestOptions> := None, disableAutomaticIdGeneration: bool := false,
                                  token: CancellationToken := DefaultToken)
    : (o: Outcome<Document<F>, F>)
    ensures |o.calls| == 1 && o.calls[0].CreateDocument?
    ensures o.calls[0].uri == CollectionAddress(c)
    ensures o.calls[0].document == document && o.calls[0].options == options
    ensures o.calls[0].disableAutomaticIdGeneration == disableAutomaticIdGeneration && o.calls[0].token == token
    ensures o.result == Forward(send(o.calls[0]))
  {
    var call := CreateDocument(CollectionAddress(c), document, options, disableAutomaticIdGeneration, token);
    Outcome([call], Forward(send(call)))
  }

  function ReplaceDocumentAsync<F>(c: CosmosDbClient, send: DocumentCall<F> -> Reply<F>, documentId: Option<string>,
                                   document: Document<F>, options: Option<RequestOptions> := None,
                                   token: CancellationToken := DefaultToken)
    : (o: Outcome<Document<F>, F>)
    ensures |o.calls| == 1 && o.calls[0].ReplaceDocument?
    ensures o.calls[0].uri == DocumentAddress(c, documentId)
    ensures o.calls[0].document == document && o.calls[0].options == options && o.calls[0].token == token
    ensures o.result == Forward(send(o.calls[0]))
  {
    var call := ReplaceDocument(DocumentAddress(c, documentId), document, options, token);
    Outcome([call], Forward(send(call)))
  }

  function DeleteDocumentAsync<F>(c: CosmosDbClient, send: DocumentCall<F> -> Reply<F>, documentId: Option<string>,
                                  options: Option<RequestOptions> := None, token: CancellationToken := DefaultToken)
    : (o: Outcome<Document<F>, F>)
    ensures |o.calls| == 1 && o.calls[0].DeleteDocument?
    ensures o.calls[0].uri == DocumentAddress(c, documentId)
    ensures o.calls[0].options == options && o.calls[0].token == token
    ensures o.result == Forward(send(o.calls[0]))
  {
    var call := DeleteDocument(DocumentAddress(c, documentId), options, token);
    Outcome([call], Forward(send(call)))
  }
}
