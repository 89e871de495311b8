/**
 * TodoItemsController: the four HTTP actions over the TodoItem repository.
 * Each action is a decision over its inputs and the repository's answers;
 * only EntityNotFoundException is caught, every other exception leaves the
 * action unchanged.
 */
module Controller {
  import opened Wrappers
  import opened Exceptions
  import opened Models

  /** The action results the controller produces. */
  datatype ActionResult =
    | OkObjectResult(value: Option<TodoItem>)
    | OkResult
    | BadRequestResult
    | BadRequestObjectResult(badValue: Option<string>)
    | NotFoundObjectResult(missing: Option<string>)
    | NoContentResult

  /** A call the controller makes on the repository. */
  datatype RepositoryCall =
    | AddAsyncCall(item: TodoItem)
    | GetByIdAsyncCall(id: Option<string>)
    | UpdateAsyncCall(item: TodoItem)
    | DeleteAsyncCall(item: TodoItem)

  /** The repository calls an action made, in order, and its action result or the exception it lets out. */
  datatype ActionOutcome = ActionOutcome(calls: seq<RepositoryCall>, response: Result<ActionResult, Exception>)

  /** The catch block of GetItem, UpdateItem and RemoveItem. */
  function CatchEntityNotFound(calls: seq<RepositoryCall>, ex: Exception, toDoId: Option<string>): (o: ActionOutcome)
    ensures o.calls == calls
    ensures ex == EntityNotFoundException ==> o.response == Ok(NotFoundObjectResult(toDoId))
    ensures ex != EntityNotFoundException ==> o.response == Err(ex)
  {
    if ex == EntityNotFoundException then ActionOutcome(calls, Ok(NotFoundObjectResult(toDoId)))
    else ActionOutcome(calls, Err(ex))
  }

  /** POST: `added` is what AddAsync returns or throws. */
  function CreateItem(modelStateIsValid: bool, newTodoItem: TodoItem, added: Result<Option<TodoItem>, Exception>)
    : (o: ActionOutcome)
    ensures !modelStateIsValid ==> o.calls == [] && o.response == Ok(BadRequestResult)
    ensures modelStateIsValid ==> o.calls == [AddAsyncCall(newTodoItem)]
    ensures modelStateIsValid && added.Ok? ==> o.response == Ok(OkObjectResult(added.value))
    // No exception is caught here, EntityNotFoundException and EntityAlreadyExistsException included.
    ensures modelStateIsValid && added.Err? ==> o.response == Err(added.error)
  {
    if !modelStateIsValid then ActionOutcome([], Ok(BadRequestResult))
    else
      var calls := [AddAsyncCall(newTodoItem)];
      match added
      case Ok(toDo) => ActionOutcome(calls, Ok(OkObjectResult(toDo)))
      case Err(ex) => ActionOutcome(calls, Err(ex))
  }

  /** GET: `found` is what GetByIdAsync returns or throws. */
  function GetItem(toDoId: Option<string>, found: Result<Option<TodoItem>, Exception>): (o: ActionOutcome)
    ensures o.calls == [GetByIdAsyncCall(toDoId)]
    ensures found.Ok? ==> o.response == Ok(OkObjectResult(found.value))
    ensures found == Err(EntityNotFoundException) ==> o.response == Ok(NotFoundObjectResult(toDoId))
    ensures found.Err? && found.error != EntityNotFoundException ==> o.response == Err(found.error)
  {
    var calls := [GetByIdAsyncCall(toDoId)];
    match found
    case Ok(toDo) => ActionOutcome(calls, Ok(OkObjectResult(toDo)))
    case Err(ex) => CatchEntityNotFound(calls, ex, toDoId)
  }

  /** PUT: `updated` is what UpdateAsync returns or throws, if it is called. */
  function UpdateItem(toDoId: Option<string>, updatedItem: TodoItem, updated: Result<(), Exception>): (o: ActionOutcome)
    // The id check comes first and calls nothing.
    ensures updatedItem.id != toDoId ==> o.calls == [] && o.response == Ok(BadRequestObjectResult(updatedItem.id))
    // Matching null ids are not found, without an update.
    ensures updatedItem.id == toDoId && toDoId.None? ==> o.calls == [] && o.response == Ok(NotFoundObjectResult(None))
    ensures updatedItem.id == toDoId && toDoId.Some? ==> o.calls == [UpdateAsyncCall(updatedItem)]
    ensures updatedItem.id == toDoId && toDoId.Some? && updated.Ok? ==> o.response == Ok(OkResult)
    ensures updatedItem.id == toDoId && toDoId.Some? && updated == Err(EntityNotFoundException)
            ==> o.response == Ok(NotFoundObjectResult(toDoId))
    ensures updatedItem.id == toDoId && toDoId.Some? && updated.Err? && updated.error != EntityNotFoundException
            ==> o.response == Err(updated.error)
  {
    if updatedItem.id != toDoId then ActionOutcome([], Ok(BadRequestObjectResult(updatedItem.id)))
    else if toDoId.None? then ActionOutcome([], Ok(NotFoundObjectResult(toDoId)))
    else
      var calls := [UpdateAsyncCall(updatedItem)];
      match updated
      case Ok(_) => ActionOutcome(calls, Ok(OkResult))
      case Err(ex) => CatchEntityNotFound(calls, ex, toDoId)
  }

  /**
   * DELETE: `found` is what GetByIdAsync returns or throws; `deleted` is what
   * DeleteAsync returns or throws, if it is called.
   */
  function RemoveItem(toDoId: Option<string>, found: Result<Option<TodoItem>, Exception>, deleted: Result<(), Exception>)
    : (o: ActionOutcome)
    ensures |o.calls| >= 1 && o.calls[0] == GetByIdAsyncCall(toDoId)
    ensures found.Err? || found == Ok(None) ==> o.calls == [GetByIdAsyncCall(toDoId)]
    ensures found == Ok(None) ==> o.response == Ok(NotFoundObjectResult(toDoId))
    ensures found == Err(EntityNotFoundException) ==> o.response == Ok(NotFoundObjectResult(toDoId))
    ensures found.Err? && found.error != EntityNotFoundException ==> o.response == Err(found.error)
    // The item deleted is the one retrieved, not one built from the route id.
    ensures found.Ok? && found.value.Some? ==>
              o.calls == [GetByIdAsyncCall(toDoId), DeleteAsyncCall(found.value.value)]
              && (deleted.Ok? ==> o.response == Ok(NoContentResult))
              && (deleted == Err(EntityNotFoundException) ==> o.response == Ok(NotFoundObjectResult(toDoId)))
              && (deleted.Err? && deleted.error != EntityNotFoundException ==> o.response == Err(deleted.error))
  {
    var lookup := [GetByIdAsyncCall(toDoId)];
    match found
    case Err(ex) => CatchEntityNotFound(lookup, ex, toDoId)
    case Ok(None) => ActionOutcome(lookup, Ok(NotFoundObjectResult(toDoId)))
    case Ok(Some(toDoToUpdate)) =>
      var calls := lookup + [DeleteAsyncCall(toDoToUpdate)];
      match deleted
      case Ok(_) => ActionOutcome(calls, Ok(NoContentResult))
      case Err(ex) => CatchEntityNotFound(calls, ex, toDoId)
  }
}
