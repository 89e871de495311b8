/**
 * Laws of the repository stated over the reference store: what an add, get,
 * update or delete does to the store and what a later call then sees, the
 * Todo item scenario end to end, the startup check against the store, and the
 * controller actions on top of the repository.
 */
module Laws {
  import opened Wrappers
  import opened Exceptions
  import opened Models
  import opened Documents
  import opened Store
  import Factory
  import Repository
  import TodoRepository
  import Controller

  /** The key of the document with id `id` in partition `partition` of the repository's collection. */
  function KeyIn<F>(repo: Repository.CosmosDbRepository<F>, partition: Option<PartitionKey>, id: string): DocumentKey
  {
    DocumentKey(repo.factory.databaseName, repo.context.collectionName, partition, id)
  }

  /** The repository's collection is configured in its factory and exists in the store. */
  predicate Wired<F>(repo: Repository.CosmosDbRepository<F>, s: StoreState<F>)
  {
    && repo.context.collectionName in repo.factory.collectionNames
    && (repo.factory.databaseName, repo.context.collectionName) in s.collections
  }

  /** The partition the repository's collection places the document of `e` in. */
  function PlacedIn<F>(repo: Repository.CosmosDbRepository<F>, s: StoreState<F>, e: Entity<F>): Option<PartitionKey>
    requires Wired(repo, s)
  {
    s.collections[(repo.factory.databaseName, repo.context.collectionName)](Serialize(e))
  }

  /** The partition key the repository resolves from the id of `e` is the partition the store places `e` in. */
  predicate Routed<F>(repo: Repository.CosmosDbRepository<F>, s: StoreState<F>, e: Entity<F>)
    requires Wired(repo, s)
  {
    repo.context.resolvePartitionKey(e.id) == Ok(PlacedIn(repo, s, e))
  }

  /** Every stored document carries the id it is stored under and sits in the partition its collection places it in. */
  predicate WellKeyed<F>(s: StoreState<F>)
  {
    forall k :: k in s.documents ==>
      && s.documents[k].id == Some(k.documentId)
      && (k.databaseId, k.collectionId) in s.collections
      && s.collections[(k.databaseId, k.collectionId)](s.documents[k]) == k.partition
  }

  /** No call the store accepts breaks WellKeyed. */
  lemma ExecuteKeepsWellKeyed<F>(s: StoreState<F>, call: DocumentCall<F>)
    requires WellKeyed(s)
    ensures WellKeyed(Execute(s, call).0)
  {
  }

  /**
   * Add then get (round trip): when the repository resolves the generated id
   * to the partition the store places the new document in, the entity comes
   * back with every field it was added with, under the generated id.
   */
  lemma AddThenGetById<F>(repo: Repository.CosmosDbRepository<F>, s: StoreState<F>, e: Entity<F>, guid: string)
    requires Wired(repo, s)
    requires Routed(repo, s, Repository.WithGeneratedId(repo, e, guid))
    requires KeyIn(repo, PlacedIn(repo, s, Repository.WithGeneratedId(repo, e, guid)), repo.context.generateId(e, guid))
             !in s.documents
    ensures var newId := repo.context.generateId(e, guid);
            var added := Repository.AddOutcome(repo, e, guid, Respond(s));
            var s' := Apply(s, added.calls);
            && added.result == Ok(Entity(Some(newId), e.fields))
            && s'.documents == s.documents[KeyIn(repo, PlacedIn(repo, s, Repository.WithGeneratedId(repo, e, guid)), newId)
                                             := Document(Some(newId), e.fields)]
            && Repository.GetByIdAsync(repo, Some(newId), Respond(s')).result == added.result
  {
  }

  /**
   * Add then get with a misrouting resolver: when the partition key resolved
   * from the generated id is not the partition the new document was placed
   * in, the add succeeds but a get of the new id finds nothing.
   */
  lemma AddThenGetByIdMisrouted<F>(repo: Repository.CosmosDbRepository<F>, s: StoreState<F>, e: Entity<F>, guid: string)
    requires Wired(repo, s)
    requires !Routed(repo, s, Repository.WithGeneratedId(repo, e, guid))
    requires repo.context.resolvePartitionKey(Some(repo.context.generateId(e, guid))).Ok?
    requires KeyIn(repo, PlacedIn(repo, s, Repository.WithGeneratedId(repo, e, guid)), repo.context.generateId(e, guid))
             !in s.documents
    requires KeyIn(repo, repo.context.resolvePartitionKey(Some(repo.context.generateId(e, guid))).value,
                   repo.context.generateId(e, guid)) !in s.documents
    ensures var newId := repo.context.generateId(e, guid);
            var added := Repository.AddOutcome(repo, e, guid, Respond(s));
            && added.result == Ok(Entity(Some(newId), e.fields))
            && Repository.GetByIdAsync(repo, Some(newId), Respond(Apply(s, added.calls))).result == Err(EntityNotFoundException)
  {
  }

  /** A create whose generated id is taken in its partition fails with EntityAlreadyExistsException and leaves the store as it was. */
  lemma AddOfTakenId<F>(repo: Repository.CosmosDbRepository<F>, s: StoreState<F>, e: Entity<F>, guid: string)
    requires Wired(repo, s)
    requires KeyIn(repo, PlacedIn(repo, s, Repository.WithGeneratedId(repo, e, guid)), repo.context.generateId(e, guid))
             in s.documents
    ensures var added := Repository.AddOutcome(repo, e, guid, Respond(s));
            added.result == Err(EntityAlreadyExistsException) && Apply(s, added.calls) == s
  {
  }

  /** A get of an id with no document in the partition resolved from it fails with EntityNotFoundException. */
  lemma GetByIdOfMissing<F>(repo: Repository.CosmosDbRepository<F>, s: StoreState<F>, id: string)
    requires repo.context.collectionName in repo.factory.collectionNames
    requires repo.context.resolvePartitionKey(Some(id)).Ok?
    requires KeyIn(repo, repo.context.resolvePartitionKey(Some(id)).value, id) !in s.documents
    ensures Repository.GetByIdAsync(repo, Some(id), Respond(s)).result == Err(EntityNotFoundException)
  {
  }

  /** An update of an entity with no document at its id, in the partition it is placed in, fails with EntityNotFoundException and changes nothing. */
  lemma UpdateOfMissing<F>(repo: Repository.CosmosDbRepository<F>, s: StoreState<F>, e: Entity<F>)
    requires Wired(repo, s)
    requires e.id.Some? && KeyIn(repo, PlacedIn(repo, s, e), e.id.value) !in s.documents
    ensures var updated := Repository.UpdateAsync(repo, e, Respond(s));
            updated.result == Err(EntityNotFoundException) && Apply(s, updated.calls) == s
  {
  }

  /** A delete of an entity with no document at its id, in the partition resolved from it, fails with EntityNotFoundException and changes nothing. */
  lemma DeleteOfMissing<F>(repo: Repository.CosmosDbRepository<F>, s: StoreState<F>, e: Entity<F>)
    requires repo.context.collectionName in repo.factory.collectionNames
    requires repo.context.resolvePartitionKey(e.id).Ok?
    requires e.id.Some? && KeyIn(repo, repo.context.resolvePartitionKey(e.id).value, e.id.value) !in s.documents
    ensures var deleted := Repository.DeleteAsync(repo, e, Respond(s));
            deleted.result == Err(EntityNotFoundException) && Apply(s, deleted.calls) == s
  {
  }

  /** An update is a full replace: when the entity is routed correctly, a later get returns exactly the updated entity. */
  lemma UpdateThenGetById<F>(repo: Repository.CosmosDbRepository<F>, s: StoreState<F>, e: Entity<F>)
    requires Wired(repo, s)
    requires Routed(repo, s, e)
    requires e.id.Some? && KeyIn(repo, PlacedIn(repo, s, e), e.id.value) in s.documents
    ensures var updated := Repository.UpdateAsync(repo, e, Respond(s));
            var s' := Apply(s, updated.calls);
            && updated.result == Ok(())
            && s'.documents == s.documents[KeyIn(repo, PlacedIn(repo, s, e), e.id.value) := Serialize(e)]
            && Repository.GetByIdAsync(repo, e.id, Respond(s')).result == Ok(e)
  {
  }

  /** Delete then get: once an entity is deleted, a get of its id fails with EntityNotFoundException. */
  lemma DeleteThenGetById<F>(repo: Repository.CosmosDbRepository<F>, s: StoreState<F>, e: Entity<F>)
    requires repo.context.collectionName in repo.factory.collectionNames
    requires repo.context.resolvePartitionKey(e.id).Ok?
    requires e.id.Some? && KeyIn(repo, repo.context.resolvePartitionKey(e.id).value, e.id.value) in s.documents
    ensures var deleted := Repository.DeleteAsync(repo, e, Respond(s));
            var s' := Apply(s, deleted.calls);
            && deleted.result == Ok(())
            && s'.documents == s.documents - {KeyIn(repo, repo.context.resolvePartitionKey(e.id).value, e.id.value)}
            && Repository.GetByIdAsync(repo, e.id, Respond(s')).result == Err(EntityNotFoundException)
  {
  }

  /**
   * Any id the caller supplied is discarded by AddAsync: a Todo item's add
   * depends only on its other fields and the fresh GUID.
   */
  lemma TodoAddIgnoresCallerId(factory: Factory.CosmosDbClientFactory, item: TodoItem, callerId: Option<string>,
                               guid: string, send: DocumentCall<TodoFields> -> Reply<TodoFields>)
    ensures var repo := TodoRepository.NewTodoItemRepository(factory);
            Repository.AddOutcome(repo, item, guid, send) == Repository.AddOutcome(repo, item.(id := callerId), guid, send)
  {
  }

  /**
   * A "todoItems" collection partitioned on the category: a document's
   * partition is its category. A null category is left out of the stored
   * JSON, so such a document sits in the partition of the absent value, which
   * is not the partition "".
   */
  function CategoryScheme(d: Document<TodoFields>): (p: Option<PartitionKey>)
    ensures d.body.category.Some? ==> p == Some(PartitionKey(d.body.category.value))
    ensures d.body.category.None? ==> p == None
  {
    if d.body.category.Some? then Some(PartitionKey(d.body.category.value)) else None
  }

  /** The store's "todoItems" collection exists in `databaseName` and is partitioned on the category. */
  ghost predicate CategoryPartitioned(databaseName: string, s: StoreState<TodoFields>)
  {
    && (databaseName, TodoRepository.CollectionName) in s.collections
    && forall d :: s.collections[(databaseName, TodoRepository.CollectionName)](d) == CategoryScheme(d)
  }

  /** The key under which the Todo repository looks up, and deletes, the item with id `id`. */
  function TodoKey(databaseName: string, id: string): DocumentKey
  {
    DocumentKey(databaseName, TodoRepository.CollectionName, Some(PartitionKey(TodoRepository.FirstSegment(id))), id)
  }

  /**
   * Over a collection partitioned on the category, a new Todo item is routed
   * to its own partition exactly when it has a category and that category
   * has no ':'.
   */
  lemma TodoRoutedExactly(factory: Factory.CosmosDbClientFactory, s: StoreState<TodoFields>, item: TodoItem, guid: string)
    requires TodoRepository.CollectionName in factory.collectionNames
    requires CategoryPartitioned(factory.databaseName, s)
    ensures var repo := TodoRepository.NewTodoItemRepository(factory);
            Routed(repo, s, Repository.WithGeneratedId(repo, item, guid))
            <==> item.fields.category.Some? && ':' !in item.fields.category.value
  {
    TodoRepository.PartitionKeyOfGeneratedId(item, guid);
    if item.fields.category.Some? && ':' !in item.fields.category.value {
      TodoRepository.FirstSegmentWithoutDelimiter(item.fields.category.value);
    }
  }

  /**
   * The Todo scenario: with the "todoItems" collection configured and
   * partitioned on the category, adding {Name: "Grocery", Category:
   * "Shopping"} succeeds with an id prefixed "Shopping:", a get of that id
   * returns the same name and category, and after a delete the get fails with
   * EntityNotFoundException.
   */
  lemma TodoScenario(databaseName: string, handle: ConnectionHandle, s: StoreState<TodoFields>, guid: string)
    requires CategoryPartitioned(databaseName, s)
    requires TodoKey(databaseName, "Shopping:" + guid) !in s.documents
    ensures var repo := TodoRepository.NewTodoItemRepository(Factory.CosmosDbClientFactory(databaseName, ["todoItems"], handle));
            var item := Entity(None, TodoFields(Some("Grocery"), None, Some("Shopping")));
            var added := Repository.AddOutcome(repo, item, guid, Respond(s));
            var s1 := Apply(s, added.calls);
            var got := Repository.GetByIdAsync(repo, Some("Shopping:" + guid), Respond(s1));
            && added.result.Ok? && added.result.value.id == Some("Shopping:" + guid)
            && got.result.Ok? && got.result.value.fields.name == Some("Grocery")
            && got.result.value.fields.category == Some("Shopping")
            && var deleted := Repository.DeleteAsync(repo, got.result.value, Respond(s1));
               var s2 := Apply(s1, deleted.calls);
               && deleted.result == Ok(())
               && Repository.GetByIdAsync(repo, Some("Shopping:" + guid), Respond(s2)).result == Err(EntityNotFoundException)
  {
    var factory := Factory.CosmosDbClientFactory(databaseName, ["todoItems"], handle);
    var repo := TodoRepository.NewTodoItemRepository(factory);
    var item := Entity(None, TodoFields(Some("Grocery"), None, Some("Shopping")));
    assert TodoRepository.GenerateId(item, guid) == "Shopping:" + guid;
    assert ':' !in "Shopping";
    TodoRoutedExactly(factory, s, item, guid);
    TodoRepository.PartitionKeyRoundTrip(item, guid);
    AddThenGetById(repo, s, item, guid);
    var added := Repository.AddOutcome(repo, item, guid, Respond(s));
    var s1 := Apply(s, added.calls);
    var got := Repository.GetByIdAsync(repo, Some("Shopping:" + guid), Respond(s1));
    DeleteThenGetById(repo, s1, got.result.value);
  }

  /**
   * Over a collection partitioned on the category, an item whose category is
   * null or contains ':' is added, but a get of its new id finds nothing: the
   * id's first segment is not the partition the item was placed in.
   */
  lemma TodoUnroutedItemIsLost(factory: Factory.CosmosDbClientFactory, s: StoreState<TodoFields>, item: TodoItem, guid: string)
    requires TodoRepository.CollectionName in factory.collectionNames
    requires CategoryPartitioned(factory.databaseName, s)
    requires item.fields.category.None? || ':' in item.fields.category.value
    requires forall k :: k in s.documents ==> k.documentId != TodoRepository.GenerateId(item, guid)
    ensures var repo := TodoRepository.NewTodoItemRepository(factory);
            var newId := TodoRepository.GenerateId(item, guid);
            var added := Repository.AddOutcome(repo, item, guid, Respond(s));
            && added.result == Ok(Entity(Some(newId), item.fields))
            && Repository.GetByIdAsync(repo, Some(newId), Respond(Apply(s, added.calls))).result == Err(EntityNotFoundException)
  {
  }

  /** The startup checks all pass against the store exactly when the database and every configured collection exist. */
  lemma SetupAgainstStore<F>(f: Factory.CosmosDbClientFactory, s: StoreState<F>)
    ensures (forall i :: 0 <= i < |Factory.SetupChecks(f)| ==> Check(s, Factory.SetupChecks(f)[i]) == Found)
            <==> (f.databaseName in s.databases && forall name :: name in f.collectionNames ==> (f.databaseName, name) in s.collections)
  {
    var checks := Factory.SetupChecks(f);
    if forall i :: 0 <= i < |checks| ==> Check(s, checks[i]) == Found {
      assert Check(s, checks[0]) == Found;
      forall name | name in f.collectionNames
        ensures (f.databaseName, name) in s.collections
      {
        var i :| 0 <= i < |f.collectionNames| && f.collectionNames[i] == name;
        assert Check(s, checks[i + 1]) == Found;
      }
    }
    if f.databaseName in s.databases && forall name :: name in f.collectionNames ==> (f.databaseName, name) in s.collections {
      forall i | 0 <= i < |checks|
        ensures Check(s, checks[i]) == Found
      {
        if i > 0 {
          assert f.collectionNames[i - 1] in f.collectionNames;
        }
      }
    }
  }

  /** A repository answer as the controller sees it: an entity that is never null. */
  function NonNull<R>(r: Result<R, Exception>): (r': Result<Option<R>, Exception>)
    ensures r.Ok? <==> r'.Ok?
    ensures r.Ok? ==> r'.value == Some(r.value)
    ensures r.Err? ==> r'.error == r.error
  {
    match r
    case Ok(v) => Ok(Some(v))
    case Err(ex) => Err(ex)
  }

  /** GetItem over the Todo repository: a store NotFound becomes a 404 naming the id; every other store status propagates unchanged. */
  lemma GetItemOverRepository(factory: Factory.CosmosDbClientFactory, id: string,
                              send: DocumentCall<TodoFields> -> Reply<TodoFields>)
    requires TodoRepository.CollectionName in factory.collectionNames
    ensures var repo := TodoRepository.NewTodoItemRepository(factory);
            var got := Repository.GetByIdAsync(repo, Some(id), send);
            var action := Controller.GetItem(Some(id), NonNull(got.result));
            && |got.calls| == 1
            && (send(got.calls[0]) == Failed(StatusNotFound) ==> action.response == Ok(Controller.NotFoundObjectResult(Some(id))))
            && (send(got.calls[0]).Failed? && send(got.calls[0]).statusCode != StatusNotFound ==>
                  action.response == Err(DocumentClientException(send(got.calls[0]).statusCode)))
            && (send(got.calls[0]).Done? ==>
                  action.response == Ok(Controller.OkObjectResult(Some(Deserialize(send(got.calls[0]).document)))))
  {
  }

  /** RemoveItem over the Todo repository and the store: a stored item is deleted and the answer is 204. */
  lemma RemoveItemOverStore(factory: Factory.CosmosDbClientFactory, s: StoreState<TodoFields>, id: string)
    requires TodoRepository.CollectionName in factory.collectionNames
    requires WellKeyed(s)
    requires TodoKey(factory.databaseName, id) in s.documents
    ensures var repo := TodoRepository.NewTodoItemRepository(factory);
            var got := Repository.GetByIdAsync(repo, Some(id), Respond(s));
            var deleted := Repository.DeleteAsync(repo, got.result.value, Respond(s));
            var action := Controller.RemoveItem(Some(id), NonNull(got.result), deleted.result);
            && got.result.Ok? && got.result.value.id == Some(id)
            && action.response == Ok(Controller.NoContentResult)
            && Apply(s, deleted.calls).documents == s.documents - {TodoKey(factory.databaseName, id)}
  {
  }

  /** RemoveItem over the Todo repository: an id with no document where it is looked up is a 404 naming the id, and nothing is deleted. */
  lemma RemoveItemOfMissing(factory: Factory.CosmosDbClientFactory, s: StoreState<TodoFields>, id: string,
                            deleted: Result<(), Exception>)
    requires TodoRepository.CollectionName in factory.collectionNames
    requires TodoKey(factory.databaseName, id) !in s.documents
    ensures var repo := TodoRepository.NewTodoItemRepository(factory);
            var got := Repository.GetByIdAsync(repo, Some(id), Respond(s));
            var action := Controller.RemoveItem(Some(id), NonNull(got.result), deleted);
            action.calls == [Controller.GetByIdAsyncCall(Some(id))]
            && action.response == Ok(Controller.NotFoundObjectResult(Some(id)))
  {
  }
}
