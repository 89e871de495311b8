# Partitioned document repository: a Dafny model

This project models the data-access core of a to-do REST service built on a partitioned document
database (Cosmos DB). It covers five pieces:

- **Document client** (`Client`). A client bound to one database and one collection. It addresses
  read, replace and delete at the document path and create at the collection path. It forwards
  each of them to the underlying document client in exactly one call.
- **Client factory** (`Factory`). It checks its constructor arguments for null. It hands out a
  client only for a configured collection name. At startup it checks that the database and every
  configured collection exist.
- **Generic repository** (`Repository`). It does typed get / add / update / delete over the
  repository's fixed collection. It derives the partition key from the id and makes one store call
  per operation. Only two failures are translated into domain exceptions: a store NotFound into
  `EntityNotFoundException` (get, update, delete) and a store Conflict into
  `EntityAlreadyExistsException` (add). Adding overwrites the caller's entity id before anything
  else.
- **Todo item repository** (`TodoRepository`). The collection is `"todoItems"`. Ids are
  `<category>:<guid>`. The partition key is the id's text before its first `':'`.
- **Todo items controller** (`Controller`). It turns the inputs and the repository's answers into
  action results. It catches only `EntityNotFoundException`.

Some things are given to the model as inputs. The document store's reply to each call is an oracle
(`send`, `probe`). The GUID text, the model-state validity flag and the repository's answers to the
controller are parameters. Every operation returns the sequence of calls it made together with its
result or the exception it throws. That lets contracts say "exactly one call, at this address,
with these arguments" and "no call at all".

A reference in-memory store (`Store`) is the reference model for the round-trip laws in `Laws`:
add then get, delete then get, update then get, missing documents, taken ids, the startup check,
and the controller on top of the repository. The store keys documents by (database, collection,
partition, id). Each collection has a partition scheme, which places each created or replaced
document in a partition. Reads and deletes look only in the partition their request options name.
So the round-trip laws hold only for a repository that is `Routed`: the key it resolves from an id
must be the partition the document was placed in. `AddThenGetByIdMisrouted` shows that otherwise
an added entity cannot be read back.

The partition key path of the "todoItems" collection is deployment configuration that the code
does not contain. The Todo laws assume a collection partitioned on the category (`CategoryScheme`).
With the category left out of the stored JSON when it is null, such an item sits in the partition
of the absent value. Under that scheme `TodoRoutedExactly` proves that a new item is routed
exactly when its category is non-null and has no `':'`. `TodoUnroutedItemIsLost` proves that any
other item is added but a get of its id finds nothing.

Modules and files:

| module | file | models |
|---|---|---|
| `Wrappers` | wrappers.dfy | `Option` (a nullable reference), `Result` (a value or an exception) |
| `Exceptions` | exceptions.dfy | TodoService.Core/Exceptions and the framework exceptions thrown on these paths |
| `Models` | models.dfy | TodoService.Core/Models: `Entity<F>`, `TodoFields`, the mutable `EntityObject<F>` |
| `Documents` | documents.dfy | the store SDK's vocabulary: addresses, options, documents, calls, replies |
| `Client` | cosmos_db_client.dfy | TodoService.Infrastructure/Data/CosmosDbClient.cs |
| `Factory` | cosmos_db_client_factory.dfy | TodoService.Infrastructure/Data/CosmosDbClientFactory.cs |
| `Repository` | cosmos_db_repository.dfy | TodoService.Infrastructure/Data/CosmosDbRepository.cs |
| `TodoRepository` | todo_item_repository.dfy | TodoService.Infrastructure/Data/TodoItemRepository.cs |
| `Controller` | todo_items_controller.dfy | TodoService.Api/Controllers/TodoItemsController.cs |
| `Store` | document_store.dfy | a reference model of the document store behind the client |
| `Laws` | repository_laws.dfy | laws relating the operations to each other through the store |

Notes on the modelling:

- A C# `string` that may be null is `Option<string>`. This covers `Entity.Id`, the TodoItem
  fields, route ids and constructor arguments.
- The abstract generic repository with virtual `GenerateId` / `ResolvePartitionKey` becomes a
  datatype. It holds a `DocumentCollectionContext`: the collection name plus the two policies as
  function values. `DefaultContext` gives the base class's defaults (the GUID alone as the id; no
  partition key). `TodoRepository.Context` gives the TodoItem overrides.
- The policies are called in the source's order. The client comes first. In get and delete the
  partition key is resolved before the store call. A resolver that throws (the TodoItem one throws
  `NullReferenceException` on a null id) ends the operation before any store call, and the
  repository's catch does not translate that exception.
- `AddAsync` changes the caller's object. It is a method on `Models.EntityObject` that assigns the
  new id first and is proved equal to the pure `Repository.AddOutcome`. So the object keeps the
  new id even when getting the client or creating the document fails.
- `EnsureDbSetupAsync` is a loop over the collection list. It builds the sequence of checks it
  issued and stops at the first failure, which it propagates.

Behaviour of the code at its edges, which the model follows:

- The constructors of the client and the factory reject only **null** arguments, with
  `ArgumentNullException` naming the first null parameter. Empty names and empty lists are
  accepted, and the factory checks nothing about collections when it is built.
- An unknown collection name raises `ArgumentException` with the message
  `"Unable to find collection: " + name`.
- The repository never passes a cancellation token. Every store call carries the default token.
- `CreateItem` answers with `OkObjectResult`, not 201 Created.
- `UpdateItem` with two null ids answers `NotFoundObjectResult(null)`.

## Model

| member | source | states |
|---|---|---|
| `Documents.Serialize` | TodoService.Infrastructure/Data/CosmosDbClient.cs:29-34 | the document written for an entity carries its id and all its other fields |
| `Documents.Deserialize` | TodoService.Infrastructure/Data/CosmosDbRepository.cs:32 | the entity read back from a document has the document's id and fields |
| `Models.EntityObject.constructor` | TodoService.Core/Models/Entity.cs:6-13 | a new entity object holds exactly the given id and fields |
| `Models.EntityObject.Value` | TodoService.Core/Models/Entity.cs:12 | the object's current value is its current id together with its current fields |
| `Client.New` | TodoService.Infrastructure/Data/CosmosDbClient.cs:15-20 | construction succeeds iff no argument is null; otherwise ArgumentNullException naming the first null of databaseName, collectionName, documentClient; fields are the arguments |
| `Client.DocumentAddress` | TodoService.Infrastructure/Data/CosmosDbClient.cs:26 | a document address is (database, collection, documentId) of this client |
| `Client.CollectionAddress` | TodoService.Infrastructure/Data/CosmosDbClient.cs:33 | the create address is (database, collection), with no document id |
| `Client.Forward` | TodoService.Infrastructure/Data/CosmosDbClient.cs:25 | the underlying reply is returned untranslated: its document on success, a DocumentClientException with the same status on failure |
| `Client.ReadDocumentAsync` | TodoService.Infrastructure/Data/CosmosDbClient.cs:22-27 | exactly one ReadDocument call at the document path, options and token passed through (defaults null and the default token), reply forwarded |
| `Client.CreateDocumentAsync` | TodoService.Infrastructure/Data/CosmosDbClient.cs:29-35 | exactly one CreateDocument call at the collection path with the document, options, auto-id flag and token unchanged (defaults null, false, default token), reply forwarded |
| `Client.ReplaceDocumentAsync` | TodoService.Infrastructure/Data/CosmosDbClient.cs:37-43 | exactly one ReplaceDocument call at the document path with the document, options and token unchanged, reply forwarded |
| `Client.DeleteDocumentAsync` | TodoService.Infrastructure/Data/CosmosDbClient.cs:45-50 | exactly one DeleteDocument call at the document path with options and token unchanged, reply forwarded |
| `Factory.New` | TodoService.Infrastructure/Data/CosmosDbClientFactory.cs:18-23 | construction succeeds iff no argument is null; otherwise ArgumentNullException naming the first null of databaseName, collectionNames, documentClient |
| `Factory.GetClient` | TodoService.Infrastructure/Data/CosmosDbClientFactory.cs:25-33 | succeeds iff the name is configured; on success a client bound to the factory's database, that name and the same connection; otherwise ArgumentException "Unable to find collection: " + name |
| `Factory.SetupChecks` | TodoService.Infrastructure/Data/CosmosDbClientFactory.cs:37-43 | the startup checks: the database once, then each configured collection once, in list order |
| `Factory.EnsureDbSetupAsync` | TodoService.Infrastructure/Data/CosmosDbClientFactory.cs:35-44 | the issued checks are a non-empty prefix of the plan with every check before the last one passing; success iff every planned check passes, and then all were issued; on failure the last issued check failed and its status propagates as DocumentClientException |
| `Repository.DefaultContext` | TodoService.Infrastructure/Data/CosmosDbRepository.cs:104-106 | a repository that overrides only the collection name uses that name |
| `Repository.DefaultPolicies` | TodoService.Infrastructure/Data/CosmosDbRepository.cs:105-106 | by default the generated id is the GUID text alone and every id resolves to no partition key |
| `Repository.DefaultGenerateId` | TodoService.Infrastructure/Data/CosmosDbRepository.cs:105 | the default id is the fresh GUID's text, whatever the entity |
| `Repository.DefaultResolvePartitionKey` | TodoService.Infrastructure/Data/CosmosDbRepository.cs:106 | by default every id, null included, resolves to no partition key, without failing |
| `Repository.Catch` | TodoService.Infrastructure/Data/CosmosDbRepository.cs:24-42 | a catch block adds no call: a success passes through, and an exception thrown in the try block becomes the handler's exception |
| `Repository.AsEntity` | TodoService.Infrastructure/Data/CosmosDbRepository.cs:32 | the calls are kept; a returned document is deserialised into the entity; an exception passes through unchanged |
| `Repository.Discard` | TodoService.Infrastructure/Data/CosmosDbRepository.cs:70 | the calls are kept; a success carries no value; an exception passes through unchanged |
| `Repository.CatchNotFound` | TodoService.Infrastructure/Data/CosmosDbRepository.cs:34-41 | a store NotFound becomes EntityNotFoundException; every other exception is rethrown unchanged |
| `Repository.CatchConflict` | TodoService.Infrastructure/Data/CosmosDbRepository.cs:54-61 | a store Conflict becomes EntityAlreadyExistsException; every other exception is rethrown unchanged |
| `Repository.GetByIdAsync` | TodoService.Infrastructure/Data/CosmosDbRepository.cs:22-43 | unknown collection or failing partition resolution: no store call; otherwise exactly one read of document id with options carrying ResolvePartitionKey(id); success gives the deserialised document, NotFound gives EntityNotFoundException, any other status is rethrown with the same code |
| `Repository.WithGeneratedId` | TodoService.Infrastructure/Data/CosmosDbRepository.cs:49 | the entity after the id overwrite: GenerateId(entity) as id, the other fields unchanged |
| `Repository.CreateOutcome` | TodoService.Infrastructure/Data/CosmosDbRepository.cs:50-62 | unknown collection: no call; otherwise exactly one create at the collection path of the entity as given, no options, auto-id enabled, default token; success returns the stored document, Conflict gives EntityAlreadyExistsException, every other status is rethrown |
| `Repository.AddOutcome` | TodoService.Infrastructure/Data/CosmosDbRepository.cs:45-63 | unknown collection: no call; otherwise one create at the collection path of the entity under the generated id, no options, auto-id enabled, default token; success returns the stored document, Conflict gives EntityAlreadyExistsException, every other status (NotFound included) is rethrown |
| `Repository.AddAsync` | TodoService.Infrastructure/Data/CosmosDbRepository.cs:45-63 | the caller's object ends with the generated id and its other fields unchanged, whatever the outcome; the outcome is AddOutcome of the object's old value |
| `Repository.UpdateAsync` | TodoService.Infrastructure/Data/CosmosDbRepository.cs:65-81 | unknown collection: no call; otherwise exactly one replace at entity.Id with the whole entity and no options (no partition key); NotFound gives EntityNotFoundException, other statuses are rethrown |
| `Repository.DeleteAsync` | TodoService.Infrastructure/Data/CosmosDbRepository.cs:83-102 | unknown collection or failing resolution: no call; otherwise exactly one delete, always made, at entity.Id with partition key ResolvePartitionKey(entity.Id); NotFound gives EntityNotFoundException, other statuses are rethrown |
| `TodoRepository.Interpolated` | TodoService.Infrastructure/Data/TodoItemRepository.cs:13 | a null category is rendered as the empty string, any other as itself |
| `TodoRepository.GenerateId` | TodoService.Infrastructure/Data/TodoItemRepository.cs:13 | the id is the category text, then ':', then the GUID text |
| `TodoRepository.FirstSegment` | TodoService.Infrastructure/Data/TodoItemRepository.cs:14 | Split(':')[0]: a prefix of the id with no ':', which is the whole id or is followed by ':' |
| `TodoRepository.ResolvePartitionKey` | TodoService.Infrastructure/Data/TodoItemRepository.cs:14 | a non-null id gives the partition key FirstSegment(id); a null id throws NullReferenceException |
| `TodoRepository.Context` | TodoService.Infrastructure/Data/TodoItemRepository.cs:12-14 | the collection name is the constant "todoItems"; ids are generated by GenerateId and resolved by ResolvePartitionKey |
| `TodoRepository.NewTodoItemRepository` | TodoService.Infrastructure/Data/TodoItemRepository.cs:8-14 | the repository uses the given factory, the "todoItems" collection and the TodoItem id and partition-key schemes |
| `TodoRepository.FirstSegmentOfDelimited` | TodoService.Infrastructure/Data/TodoItemRepository.cs:13-14 | the first segment of a + ":" + b is the first segment of a |
| `TodoRepository.PartitionKeyOfGeneratedId` | TodoService.Infrastructure/Data/TodoItemRepository.cs:13-14 | the partition key of a generated id is the part of the category before its first ':' |
| `TodoRepository.FirstSegmentWithoutDelimiter` | TodoService.Infrastructure/Data/TodoItemRepository.cs:14 | an id with no ':' is its own partition key |
| `TodoRepository.PartitionKeyRoundTrip` | TodoService.Infrastructure/Data/TodoItemRepository.cs:13-14 | when the category has no ':', ResolvePartitionKey(GenerateId(item)) is the category, whatever the GUID text |
| `TodoRepository.EmptyCategory` | TodoService.Infrastructure/Data/TodoItemRepository.cs:13-14 | a null or empty category gives the id ":" + guid and the partition key "", with no failure |
| `TodoRepository.CategoryWithDelimiter` | TodoService.Infrastructure/Data/TodoItemRepository.cs:14 | a category containing ':' contributes only its text before the first ':' to the partition key |
| `Controller.CatchEntityNotFound` | TodoService.Api/Controllers/TodoItemsController.cs:143-146 | EntityNotFoundException becomes NotFound(toDoId); any other exception propagates |
| `Controller.CreateItem` | TodoService.Api/Controllers/TodoItemsController.cs:37-46 | invalid model state gives BadRequest with no repository call; otherwise one AddAsync and Ok(its result); no exception is caught |
| `Controller.GetItem` | TodoService.Api/Controllers/TodoItemsController.cs:63-74 | one GetByIdAsync; Ok(item) on success, NotFound(toDoId) on EntityNotFoundException, any other exception propagates |
| `Controller.UpdateItem` | TodoService.Api/Controllers/TodoItemsController.cs:92-113 | mismatching ids give BadRequest(updatedItem.Id) first, with no call; equal null ids give NotFound(null) with no call; otherwise one UpdateAsync giving Ok, NotFound(toDoId) on EntityNotFoundException, other exceptions propagate |
| `Controller.RemoveItem` | TodoService.Api/Controllers/TodoItemsController.cs:127-147 | GetByIdAsync first; null gives NotFound(toDoId) with no delete; otherwise the retrieved item is deleted and the answer is NoContent; EntityNotFoundException from either call gives NotFound(toDoId); other exceptions propagate |
| `Store.KeyOf` | TodoService.Infrastructure/Data/ICosmosDbClient.cs:13-24 | a document address with an id names the store key (database, collection, the given partition, id) |
| `Store.Execute` | TodoService.Infrastructure/Data/ICosmosDbClient.cs:13-24 | reference store: failures and reads change nothing; a successful read returns the document at the requested partition and id; a successful create inserts the document at a free key in the partition its collection places it in; a successful replace overwrites a present key in that partition; a successful delete removes a key that was present in the requested partition |
| `Store.Check` | TodoService.Infrastructure/Data/CosmosDbClientFactory.cs:37-43 | a startup check is answered Found exactly when the database, or the collection, exists; otherwise NotFound |
| `Laws.ExecuteKeepsWellKeyed` | TodoService.Infrastructure/Data/ICosmosDbClient.cs:13-24 | no store call leaves a document under an id other than its own or in a partition other than the one its collection places it in |
| `Laws.AddThenGetById` | TodoService.Infrastructure/Data/CosmosDbRepository.cs:22-63 | round trip: when the id the add generates resolves to the partition the new document is placed in, add stores the entity there under the generated id and returns it, and a get of that id returns the same entity, every field equal |
| `Laws.AddThenGetByIdMisrouted` | TodoService.Infrastructure/Data/CosmosDbRepository.cs:22-63 | when the generated id resolves to a different partition from the one the document is placed in, the add succeeds but a get of the new id gives EntityNotFoundException |
| `Laws.AddOfTakenId` | TodoService.Infrastructure/Data/CosmosDbRepository.cs:45-63 | an add whose generated id is taken in its partition fails with EntityAlreadyExistsException and the store is unchanged |
| `Laws.GetByIdOfMissing` | TodoService.Infrastructure/Data/CosmosDbRepository.cs:22-43 | a get of an id with no document in the partition resolved from the id fails with EntityNotFoundException |
| `Laws.UpdateOfMissing` | TodoService.Infrastructure/Data/CosmosDbRepository.cs:65-81 | an update with no document at entity.Id, in the partition the entity is placed in, fails with EntityNotFoundException and the store is unchanged |
| `Laws.DeleteOfMissing` | TodoService.Infrastructure/Data/CosmosDbRepository.cs:83-102 | a delete with no document at entity.Id, in the partition resolved from it, fails with EntityNotFoundException and the store is unchanged |
| `Laws.UpdateThenGetById` | TodoService.Infrastructure/Data/CosmosDbRepository.cs:65-81 | an update is a full replace of the document in its partition: for a routed entity, a later get returns exactly the updated entity |
| `Laws.DeleteThenGetById` | TodoService.Infrastructure/Data/CosmosDbRepository.cs:83-102 | a delete removes exactly the key (partition resolved from the id, id); a later get of that id fails with EntityNotFoundException |
| `Laws.TodoAddIgnoresCallerId` | TodoService.Infrastructure/Data/CosmosDbRepository.cs:49 | a caller-supplied id has no effect on a Todo item's add |
| `Laws.TodoRoutedExactly` | TodoService.Infrastructure/Data/TodoItemRepository.cs:13-14 | over a collection partitioned on the category, a new item's id resolves to the item's own partition iff its category is non-null and contains no ':' |
| `Laws.TodoUnroutedItemIsLost` | TodoService.Infrastructure/Data/TodoItemRepository.cs:13-14 | over a collection partitioned on the category, an item with a null category or one containing ':' is added, but a get of its new id gives EntityNotFoundException |
| `Laws.TodoScenario` | TodoService.Infrastructure/Data/TodoItemRepository.cs:8-14 | over a collection partitioned on the category, adding {Name "Grocery", Category "Shopping"} gives the id "Shopping:" + guid; a get returns the same name and category; after a delete the get fails with EntityNotFoundException |
| `Laws.SetupAgainstStore` | TodoService.Infrastructure/Data/CosmosDbClientFactory.cs:35-44 | every startup check passes iff the database and every configured collection exist in the store |
| `Laws.GetItemOverRepository` | TodoService.Api/Controllers/TodoItemsController.cs:63-74 | over the Todo repository, a store NotFound becomes NotFound(id), a success becomes Ok(item), every other status propagates unchanged |
| `Laws.RemoveItemOverStore` | TodoService.Api/Controllers/TodoItemsController.cs:127-147 | removing an item stored in the partition its id names deletes exactly that document and answers NoContent |
| `Laws.RemoveItemOfMissing` | TodoService.Api/Controllers/TodoItemsController.cs:127-147 | removing an id with no document in the partition its id names answers NotFound(id) after a single lookup, with no delete |

## Left out

- Asynchrony: every `async` call is modelled as a synchronous step that finishes before the next
  one starts.
- Cancellation: tokens are opaque values passed through. The repository always passes the default
  token, so a cancelled call is never produced.
- The SDK's URI factory: addresses are tuples. Its validation of null or empty ids is foreign code
  and is not modelled.
- Store behaviour beyond the reference store. The oracle covers every status the real store can
  return. The reference store does not model server-side id assignment, system properties,
  cross-partition queries or throttling. A collection's partition scheme is a parameter of the
  store, because the partition key paths are deployment configuration outside the code.
- Store failures other than `DocumentClientException`: replies carry only a status code. Any
  other exception would not be caught by the repository either.
- JSON (de)serialisation: modelled as field-preserving identity, with no unknown fields and no
  deserialisation failures.
- The GUID generator: a parameter. Its text format is not modelled (nothing here depends on it).
- ASP.NET model binding and validation: `ModelState.IsValid` is a boolean input.
- The repository constructor stores its factory without a null check. A null factory is not
  modelled.
- Null collection names inside the factory's list: the list is a `seq<string>`.
- Null entities: `Entity` values and `EntityObject` references cannot be null here. So the model
  does not express the `NullReferenceException` that `AddAsync(null)`, `UpdateAsync(null)` and
  `DeleteAsync(null)` throw (CosmosDbRepository.cs:49, :70, :88), the one the Todo id generator
  throws on a null item (TodoItemRepository.cs:13), or the one `UpdateItem` throws on a null
  body (TodoItemsController.cs:94).
- Aliasing of the factory's collection list: the factory keeps a reference to the caller's
  `List<string>` (CosmosDbClientFactory.cs:21), so a later change to that list changes what
  `GetClient` and `EnsureDbSetupAsync` see. The model copies the list into a `seq` when the
  factory is built.
- Hosting, dependency wiring, Swagger, health checks, Key Vault, the error-handling middleware and
  the options classes: they are plumbing over frameworks that are not part of this model.
- The interfaces (`IRepository`, `ICosmosDbClient`, `ICosmosDbClientFactory`,
  `IDocumentCollectionContext`): they appear only as the signatures of the modelled members.
