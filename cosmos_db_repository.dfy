/**
 * CosmosDbRepository<T>: typed create/read/update/delete over one collection.
 * Each operation asks the factory for the client of the repository's fixed
 * collection, may derive a partition key from the id, makes exactly one store
 * call, and turns exactly one store status into a domain exception.
 */
module Repository {
  import opened Wrappers
  import opened Exceptions
  import opened Models
  import opened Documents
  import Client
  import Factory

  /**
   * The per-entity policy a concrete repository supplies: the collection
   * name, the id generator (given the entity and the text of a fresh GUID)
   * and the partition-key resolver, which may throw.
   */
  datatype DocumentCollectionContext<!F> = DocumentCollectionContext(
    collectionName: string,
    generateId: (Entity<F>, string) -> string,
    resolvePartitionKey: Option<string> -> Result<Option<PartitionKey>, Exception>)

  datatype CosmosDbRepository<!F> =
    CosmosDbRepository(factory: Factory.CosmosDbClientFactory, context: DocumentCollectionContext<F>)

  /** The default id: the fresh GUID's text, whatever the entity. */
  function DefaultGenerateId<F>(e: Entity<F>, guid: string): (id: string)
    ensures id == guid
  {
    guid
  }

  /** The default partition key: none (null), whatever the id. */
  function DefaultResolvePartitionKey(entityId: Option<string>): (r: Result<Option<PartitionKey>, Exception>)
    ensures r == Ok(None)
  {
    Ok(None)
  }

  /** The policy of a repository that overrides only the collection name. */
  function DefaultContext<F>(collectionName: string): (c: DocumentCollectionContext<F>)
    ensures c.collectionName == collectionName
  {
    DocumentCollectionContext(collectionName,
                              (e, guid) => DefaultGenerateId(e, guid),
                              entityId => DefaultResolvePartitionKey(entityId))
  }

  /** Under the default policy an id is the GUID alone and no id has a partition key. */
  lemma DefaultPolicies<F>(collectionName: string, e: Entity<F>, guid: string, entityId: Option<string>)
    ensures DefaultContext<F>(collectionName).generateId(e, guid) == guid
    ensures DefaultContext<F>(collectionName).resolvePartitionKey(entityId) == Ok(None)
  {
  }

  /** Does `ex` carry the store status `status`? */
  predicate IsStoreStatus(ex: Exception, status: int)
  {
    ex.DocumentClientException? && ex.statusCode == status
  }

  /** The catch block of get, update and delete: only a store NotFound is translated; anything else is rethrown. */
  function CatchNotFound(ex: Exception): (r: Exception)
    ensures IsStoreStatus(ex, StatusNotFound) ==> r == EntityNotFoundException
    ensures !IsStoreStatus(ex, StatusNotFound) ==> r == ex
  {
    if IsStoreStatus(ex, StatusNotFound) then EntityNotFoundException else ex
  }

  /** The catch block of add: only a store Conflict is translated; anything else is rethrown. */
  function CatchConflict(ex: Exception): (r: Exception)
    ensures IsStoreStatus(ex, StatusConflict) ==> r == EntityAlreadyExistsException
    ensures !IsStoreStatus(ex, StatusConflict) ==> r == ex
  {
    if IsStoreStatus(ex, StatusConflict) then EntityAlreadyExistsException else ex
  }

  /** An exception thrown inside a try block, seen by its catch block. */
  function Catch<R, F>(o: Outcome<R, F>, handler: Exception -> Exception): (r: Outcome<R, F>)
    ensures r.calls == o.calls
    ensures o.result.Ok? ==> r.result == o.result
    ensures o.result.Err? ==> r.result == Err(handler(o.result.error))
  {
    match o.result
    case Ok(_) => o
    case Err(ex) => Outcome(o.calls, Err(handler(ex)))
  }

  /** The stored document of a successful call, deserialised. */
  function AsEntity<F>(o: Outcome<Document<F>, F>): (r: Outcome<Entity<F>, F>)
    ensures r.calls == o.calls
    ensures r.result.Ok? <==> o.result.Ok?
    ensures o.result.Ok? ==> r.result.value == Deserialize(o.result.value)
    ensures o.result.Err? ==> r.result.error == o.result.error
  {
    match o.result
    case Ok(d) => Outcome(o.calls, Ok(Deserialize(d)))
    case Err(ex) => Outcome(o.calls, Err(ex))
  }

  /** A successful call whose returned document is not used. */
  function Discard<F>(o: Outcome<Document<F>, F>): (r: Outcome<(), F>)
    ensures r.calls == o.calls
    ensures r.result.Ok? <==> o.result.Ok?
    ensures o.result.Err? ==> r.result.error == o.result.error
  {
    match o.result
    case Ok(_) => Outcome(o.calls, Ok(()))
    case Err(ex) => Outcome(o.calls, Err(ex))
  }

  function GetByIdAsync<F>(repo: CosmosDbRepository<F>, id: Option<string>, send: DocumentCall<F> -> Reply<F>)
    : (o: Outcome<Entity<F>, F>)
    // Before any store call: the collection must be known and the partition key must resolve.
    ensures repo.context.collectionName !in repo.factory.collectionNames ==>
              o.calls == [] && o.result == Err(ArgumentException(Factory.UnknownCollectionMessage(repo.context.collectionName)))
    ensures repo.context.collectionName in repo.factory.collectionNames && repo.context.resolvePartitionKey(id).Err? ==>
              o.calls == [] && o.result == Err(CatchNotFound(repo.context.resolvePartitionKey(id).error))
    // Otherwise exactly one read, of document `id`, with the resolved partition key.
    ensures |o.calls| <= 1
    ensures repo.context.collectionName in repo.factory.collectionNames && repo.context.resolvePartitionKey(id).Ok? ==>
              |o.calls| == 1
    ensures o.calls != [] ==>
              && repo.context.collectionName in repo.factory.collectionNames
              && repo.context.resolvePartitionKey(id).Ok?
              && o.calls[0] == ReadDocument(DocumentUri(repo.factory.databaseName, repo.context.collectionName, id),
                                            Some(RequestOptions(repo.context.resolvePartitionKey(id).value)), DefaultToken)
    ensures o.calls != [] && send(o.calls[0]).Done? ==> o.result == Ok(Deserialize(send(o.calls[0]).document))
    ensures o.calls != [] && send(o.calls[0]).Failed? ==>
              o.result == Err(if send(o.calls[0]).statusCode == StatusNotFound then EntityNotFoundException
                              else DocumentClientException(send(o.calls[0]).statusCode))
  {
    var attempt :=
      match Factory.GetClient(repo.factory, repo.context.collectionName)
      case Err(ex) => Outcome([], Err(ex))
      case Ok(client) =>
        match repo.context.resolvePartitionKey(id)
        case Err(ex) => Outcome([], Err(ex))
        case Ok(partitionKey) =>
          AsEntity(Client.ReadDocumentAsync(client, send, id, Some(RequestOptions(partitionKey))));
    Catch(attempt, CatchNotFound)
  }

  /**
   * What AddAsync does once the entity's id has been overwritten: create the
   * entity's document, with no options and automatic ids left enabled, and
   * return the stored document.
   */
  function CreateOutcome<F>(repo: CosmosDbRepository<F>, e: Entity<F>, send: DocumentCall<F> -> Reply<F>)
    : (o: Outcome<Entity<F>, F>)
    ensures repo.context.collectionName !in repo.factory.collectionNames ==>
              o.calls == [] && o.result == Err(ArgumentException(Factory.UnknownCollectionMessage(repo.context.collectionName)))
    ensures repo.context.collectionName in repo.factory.collectionNames ==>
              o.calls == [CreateDocument(DocumentCollectionUri(repo.factory.databaseName, repo.context.collectionName),
                                         Serialize(e), None, false, DefaultToken)]
    ensures o.calls != [] && send(o.calls[0]).Done? ==> o.result == Ok(Deserialize(send(o.calls[0]).document))
    ensures o.calls != [] && send(o.calls[0]).Failed? ==>
              o.result == Err(if send(o.calls[0]).statusCode == StatusConflict then EntityAlreadyExistsException
                              else DocumentClientException(send(o.calls[0]).statusCode))
  {
    var attempt :=
      match Factory.GetClient(repo.factory, repo.context.collectionName)
      case Err(ex) => Outcome([], Err(ex))
      case Ok(client) => AsEntity(Client.CreateDocumentAsync(client, send, Serialize(e)));
    Catch(attempt, CatchConflict)
  }

  /** The entity AddAsync leaves in the caller's object: its fields, under a freshly generated id. */
  function WithGeneratedId<F>(repo: CosmosDbRepository<F>, e: Entity<F>, guid: string): (e': Entity<F>)
    ensures e'.id == Some(repo.context.generateId(e, guid)) && e'.fields == e.fields
  {
    e.(id := Some(repo.context.generateId(e, guid)))
  }

  /** The outcome of AddAsync on an entity whose value was `e`, given the fresh GUID. */
  function AddOutcome<F>(repo: CosmosDbRepository<F>, e: Entity<F>, guid: string, send: DocumentCall<F> -> Reply<F>)
    : (o: Outcome<Entity<F>, F>)
    ensures repo.context.collectionName !in repo.factory.collectionNames ==>
              o.calls == [] && o.result == Err(ArgumentException(Factory.UnknownCollectionMessage(repo.context.collectionName)))
    ensures |o.calls| <= 1
    // The one create goes to the collection, carries the entity under its new id, no options, auto-id enabled.
    ensures o.calls != [] ==>
              && repo.context.collectionName in repo.factory.collectionNames
              && o.calls[0] == CreateDocument(DocumentCollectionUri(repo.factory.databaseName, repo.context.collectionName),
                                              Document(Some(repo.context.generateId(e, guid)), e.fields),
                                              None, false, DefaultToken)
    ensures repo.context.collectionName in repo.factory.collectionNames ==> o.calls != []
    ensures o.calls != [] && send(o.calls[0]).Done? ==> o.result == Ok(Deserialize(send(o.calls[0]).document))
    ensures o.calls != [] && send(o.calls[0]).Failed? ==>
              o.result == Err(if send(o.calls[0]).statusCode == StatusConflict then EntityAlreadyExistsException
                              else DocumentClientException(send(o.calls[0]).statusCode))
  {
    CreateOutcome(repo, WithGeneratedId(repo, e, guid), send)
  }

  /**
   * AddAsync: overwrites the caller's entity id with a generated one before
   * anything else (so the object keeps the new id even when the add fails),
   * then creates the document.
   */
  method AddAsync<F>(repo: CosmosDbRepository<F>, entity: EntityObject<F>, guid: string, send: DocumentCall<F> -> Reply<F>)
    returns (o: Outcome<Entity<F>, F>)
    modifies entity
    ensures entity.Value() == WithGeneratedId(repo, old(entity.Value()), guid)
    ensures o == AddOutcome(repo, old(entity.Value()), guid, send)
  {
    entity.id := Some(repo.context.generateId(entity.Value(), guid));
    var client := Factory.GetClient(repo.factory, repo.context.collectionName);
    if client.Err? {
      return Outcome([], Err(CatchConflict(client.error)));
    }
    var created := Client.CreateDocumentAsync(client.value, send, Serialize(entity.Value()));
    o := Catch(AsEntity(created), CatchConflict);
  }

  /** UpdateAsync: a full replace of the document at the entity's id, with no options and so no partition key. */
  function UpdateAsync<F>(repo: CosmosDbRepository<F>, entity: Entity<F>, send: DocumentCall<F> -> Reply<F>)
    : (o: Outcome<(), F>)
    ensures repo.context.collectionName !in repo.factory.collectionNames ==>
              o.calls == [] && o.result == Err(ArgumentException(Factory.UnknownCollectionMessage(repo.context.collectionName)))
    ensures |o.calls| <= 1
    ensures repo.context.collectionName in repo.factory.collectionNames ==>
              o.calls == [ReplaceDocument(DocumentUri(repo.factory.databaseName, repo.context.collectionName, entity.id),
                                          Serialize(entity), None, DefaultToken)]
    ensures o.calls != [] && send(o.calls[0]).Done? ==> o.result == Ok(())
    ensures o.calls != [] && send(o.calls[0]).Failed? ==>
              o.result == Err(if send(o.calls[0]).statusCode == StatusNotFound then EntityNotFoundException
                              else DocumentClientException(send(o.calls[0]).statusCode))
  {
    var attempt :=
      match Factory.GetClient(repo.factory, repo.context.collectionName)
      case Err(ex) => Outcome([], Err(ex))
      case Ok(client) => Discard(Client.ReplaceDocumentAsync(client, send, entity.id, Serialize(entity)));
    Catch(attempt, CatchNotFound)
  }

  /** DeleteAsync: a delete of the document at the entity's id, with the partition key resolved from that id. */
  function DeleteAsync<F>(repo: CosmosDbRepository<F>, entity: Entity<F>, send: DocumentCall<F> -> Reply<F>)
    : (o: Outcome<(), F>)
    ensures repo.context.collectionName !in repo.factory.collectionNames ==>
              o.calls == [] && o.result == Err(ArgumentException(Factory.UnknownCollectionMessage(repo.context.collectionName)))
    ensures repo.context.collectionName in repo.factory.collectionNames && repo.context.resolvePartitionKey(entity.id).Err? ==>
              o.calls == [] && o.result == Err(CatchNotFound(repo.context.resolvePartitionKey(entity.id).error))
    ensures |o.calls| <= 1
    ensures repo.context.collectionName in repo.factory.collectionNames && repo.context.resolvePartitionKey(entity.id).Ok? ==>
              |o.calls| == 1
    ensures o.calls != [] ==>
              && repo.context.collectionName in repo.factory.collectionNames
              && repo.context.resolvePartitionKey(entity.id).Ok?
              && o.calls[0] == DeleteDocument(DocumentUri(repo.factory.databaseName, repo.context.collectionName, entity.id),
                                              Some(RequestOptions(repo.context.resolvePartitionKey(entity.id).value)),
                                              DefaultToken)
    ensures o.calls != [] && send(o.calls[0]).Done? ==> o.result == Ok(())
    ensures o.calls != [] && send(o.calls[0]).Failed? ==>
              o.result == Err(if send(o.calls[0]).statusCode == StatusNotFound then EntityNotFoundException
                              else DocumentClientException(send(o.calls[0]).statusCode))
  {
    var attempt :=
      match Factory.GetClient(repo.factory, repo.context.collectionName)
      case Err(ex) => Outcome([], Err(ex))
      case Ok(client) =>
        match repo.context.resolvePartitionKey(entity.id)
        case Err(ex) => Outcome([], Err(ex))
        case Ok(partitionKey) =>
          Discard(Client.DeleteDocumentAsync(client, send, entity.id, Some(RequestOptions(partitionKey))));
    Catch(attempt, CatchNotFound)
  }
}
