/**
 * A reference model of the document store behind the document client: the
 * databases that exist, the collections that exist with the partition scheme
 * each was created with, and the documents stored under (database,
 * collection, partition, id). It answers document calls and startup checks,
 * and is the reference model against which the repository's round-trip laws
 * are stated.
 */
module Store {
  import opened Wrappers
  import opened Exceptions
  import opened Documents

  /**
   * How a collection places documents: the partition a document belongs to,
   * computed from its body (none for an unpartitioned collection, or for a
   * document that lacks the partition property).
   */
  type PartitionScheme<!F> = Document<F> -> Option<PartitionKey>

  /** Ids are unique only within a partition, so the partition is part of a document's key. */
  datatype DocumentKey = DocumentKey(databaseId: string, collectionId: string, partition: Option<PartitionKey>,
                                     documentId: string)

  datatype StoreState<!F> = StoreState(
    databases: set<string>,
    collections: map<(string, string), PartitionScheme<F>>,
    documents: map<DocumentKey, Document<F>>)

  /** The partition a request is routed to: the partition key of its options, none without options. */
  function RequestedPartition(options: Option<RequestOptions>): Option<PartitionKey>
  {
    if options.Some? then options.value.partitionKey else None
  }

  /** The key a document address names within `partition`, if the address names a document id. */
  function KeyOf(uri: Uri, partition: Option<PartitionKey>): (k: Option<DocumentKey>)
    ensures k.Some? <==> uri.DocumentUri? && uri.documentId.Some?
    ensures k.Some? ==> k.value == DocumentKey(uri.databaseId, uri.collectionId, partition, uri.documentId.value)
  {
    if uri.DocumentUri? && uri.documentId.Some? then Some(DocumentKey(uri.databaseId, uri.collectionId, partition, uri.documentId.value))
    else None
  }

  /**
   * The store's answer to one call and its state afterwards. Reads and
   * deletes look the document up in the partition the request names. Creates
   * and replaces place the document in the partition its collection's scheme
   * gives it, which a partition key in the options must agree with. Reads,
   * replaces and deletes of a missing document fail with NotFound, a create of
   * an id already present in its partition fails with Conflict, a malformed
   * call with BadRequest. A create without an id is refused too: server-side
   * id assignment is not modelled.
   */
  function Execute<F>(s: StoreState<F>, call: DocumentCall<F>): (r: (StoreState<F>, Reply<F>))
    ensures r.1.Failed? ==> r.0 == s
    ensures call.ReadDocument? ==> r.0 == s
    ensures call.ReadDocument? && r.1.Done? ==>
              && KeyOf(call.uri, RequestedPartition(call.options)).Some?
              && KeyOf(call.uri, RequestedPartition(call.options)).value in s.documents
              && r.1.document == s.documents[KeyOf(call.uri, RequestedPartition(call.options)).value]
    ensures call.CreateDocument? && r.1.Done? ==>
              && call.uri.DocumentCollectionUri? && call.document.id.Some?
              && (call.uri.databaseId, call.uri.collectionId) in s.collections
              && var key := DocumentKey(call.uri.databaseId, call.uri.collectionId,
                                        s.collections[(call.uri.databaseId, call.uri.collectionId)](call.document),
                                        call.document.id.value);
                 && key !in s.documents
                 && r.0.documents == s.documents[key := call.document]
    ensures call.ReplaceDocument? && r.1.Done? ==>
              && call.uri.DocumentUri? && call.document.id.Some? && call.uri.documentId == call.document.id
              && (call.uri.databaseId, call.uri.collectionId) in s.collections
              && var key := DocumentKey(call.uri.databaseId, call.uri.collectionId,
                                        s.collections[(call.uri.databaseId, call.uri.collectionId)](call.document),
                                        call.document.id.value);
                 && key in s.documents
                 && r.0.documents == s.documents[key := call.document]
    ensures call.DeleteDocument? && r.1.Done? ==>
              && KeyOf(call.uri, RequestedPartition(call.options)).Some?
              && KeyOf(call.uri, RequestedPartition(call.options)).value in s.documents
              && r.0.documents == s.documents - {KeyOf(call.uri, RequestedPartition(call.options)).value}
    ensures r.0.databases == s.databases && r.0.collections == s.collections
  {
    match call
    case ReadDocument(uri, options, _) =>
      var key := KeyOf(uri, RequestedPartition(options));
      if key.None? then (s, Failed(StatusBadRequest))
      else if key.value !in s.documents then (s, Failed(StatusNotFound))
      else (s, Done(s.documents[key.value]))
    case CreateDocument(uri, document, options, _, _) =>
      if !uri.DocumentCollectionUri? || document.id.None? then (s, Failed(StatusBadRequest))
      else if (uri.databaseId, uri.collectionId) !in s.collections then (s, Failed(StatusNotFound))
      else
        var partition := s.collections[(uri.databaseId, uri.collectionId)](document);
        if RequestedPartition(options).Some? && RequestedPartition(options) != partition then (s, Failed(StatusBadRequest))
        else
          var key := DocumentKey(uri.databaseId, uri.collectionId, partition, document.id.value);
          if key in s.documents then (s, Failed(StatusConflict))
          else (s.(documents := s.documents[key := document]), Done(document))
    case ReplaceDocument(uri, document, options, _) =>
      if !uri.DocumentUri? || uri.documentId.None? then (s, Failed(StatusBadRequest))
      else if (uri.databaseId, uri.collectionId) !in s.collections then (s, Failed(StatusNotFound))
      else
        var partition := s.collections[(uri.databaseId, uri.collectionId)](document);
        if RequestedPartition(options).Some? && RequestedPartition(options) != partition then (s, Failed(StatusBadRequest))
        else
          var key := DocumentKey(uri.databaseId, uri.collectionId, partition, uri.documentId.value);
          if key !in s.documents then (s, Failed(StatusNotFound))
          else if document.id != uri.documentId then (s, Failed(StatusBadRequest))
          else (s.(documents := s.documents[key := document]), Done(document))
    case DeleteDocument(uri, options, _) =>
      var key := KeyOf(uri, RequestedPartition(options));
      if key.None? then (s, Failed(StatusBadRequest))
      else if key.value !in s.documents then (s, Failed(StatusNotFound))
      else (s.(documents := s.documents - {key.value}), Done(s.documents[key.value]))
  }

  /** The store as a document client: its reply to each call. */
  function Respond<F>(s: StoreState<F>): DocumentCall<F> -> Reply<F>
  {
    call => Execute(s, call).1
  }

  /** The store after the given calls, in order. */
  function Apply<F>(s: StoreState<F>, calls: seq<DocumentCall<F>>): StoreState<F>
    decreases |calls|
  {
    if calls == [] then s else Apply(Execute(s, calls[0]).0, calls[1..])
  }

  /** The store's answer to a startup check: found exactly when the database, or the collection, exists. */
  function Check<F>(s: StoreState<F>, call: SetupCall): (r: CheckReply)
    ensures r == Found <==>
              || (call.ReadDatabase? && call.uri.DatabaseUri? && call.uri.databaseId in s.databases)
              || (call.ReadDocumentCollection? && call.uri.DocumentCollectionUri?
                  && (call.uri.databaseId, call.uri.collectionId) in s.collections)
    ensures r != Found ==> r == CheckFailed(StatusNotFound)
  {
    match call
    case ReadDatabase(uri) =>
      if uri.DatabaseUri? && uri.databaseId in s.databases then Found else CheckFailed(StatusNotFound)
    case ReadDocumentCollection(uri) =>
      if uri.DocumentCollectionUri? && (uri.databaseId, uri.collectionId) in s.collections then Found
      else CheckFailed(StatusNotFound)
  }
}
