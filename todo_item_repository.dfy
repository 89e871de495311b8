/**
 * TodoItemRepository: the repository for TodoItems. Its ids are
 * "<category>:<guid>" and the partition key of an id is the id's text before
 * its first ':'.
 */
module TodoRepository {
  import opened Wrappers
  import opened Exceptions
  import opened Models
  import opened Documents
  import Factory
  import Repository

  const CollectionName: string := "todoItems"

  /** A nullable string as string interpolation renders it: null becomes "". */
  function Interpolated(s: Option<string>): (r: string)
    ensures s.Some? ==> r == s.value
    ensures s.None? ==> r == ""
  {
    if s.Some? then s.value else ""
  }

  /** The id of a new item: its category, a ':' and the fresh GUID. */
  function GenerateId(item: TodoItem, guid: string): (id: string)
    ensures |id| == |Interpolated(item.fields.category)| + 1 + |guid|
    ensures id[..|Interpolated(item.fields.category)|] == Interpolated(item.fields.category)
    ensures id[|Interpolated(item.fields.category)|] == ':'
    ensures id[|Interpolated(item.fields.category)| + 1..] == guid
  {
    Interpolated(item.fields.category) + ":" + guid
  }

  /** `s.Split(':')[0]`: the text of `s` before its first ':', or all of `s` when it has none. */
  function FirstSegment(s: string): (r: string)
    ensures r <= s
    ensures ':' !in r
    ensures |r| < |s| ==> s[|r|] == ':'
  {
    if s == [] || s[0] == ':' then [] else [s[0]] + FirstSegment(s[1..])
  }

  /** The partition key of an id; a null id throws, since the id is split without a null check. */
  function ResolvePartitionKey(entityId: Option<string>): (r: Result<Option<PartitionKey>, Exception>)
    ensures entityId.None? ==> r == Err(NullReferenceException)
    ensures entityId.Some? ==> r == Ok(Some(PartitionKey(FirstSegment(entityId.value))))
  {
    match entityId
    case None => Err(NullReferenceException)
    case Some(id) => Ok(Some(PartitionKey(FirstSegment(id))))
  }

  /** The three overrides TodoItemRepository makes: its collection, its id scheme and its partition-key scheme. */
  function Context(): (c: Repository.DocumentCollectionContext<TodoFields>)
    ensures c.collectionName == "todoItems"
    ensures forall item, guid :: c.generateId(item, guid) == GenerateId(item, guid)
    ensures forall entityId :: c.resolvePartitionKey(entityId) == ResolvePartitionKey(entityId)
  {
    Repository.DocumentCollectionContext(CollectionName,
                                         (item, guid) => GenerateId(item, guid),
                                         entityId => ResolvePartitionKey(entityId))
  }

  function NewTodoItemRepository(factory: Factory.CosmosDbClientFactory): (repo: Repository.CosmosDbRepository<TodoFields>)
    ensures repo.factory == factory && repo.context.collectionName == "todoItems"
    ensures forall item, guid :: repo.context.generateId(item, guid) == GenerateId(item, guid)
    ensures forall entityId :: repo.context.resolvePartitionKey(entityId) == ResolvePartitionKey(entityId)
  {
    Repository.CosmosDbRepository(factory, Context())
  }

  /** The first segment of a string that has a ':' after `a` is the first segment of `a`. */
  lemma {:induction false} FirstSegmentOfDelimited(a: string, b: string)
    ensures FirstSegment(a + ":" + b) == FirstSegment(a)
  {
    if a == [] {
    } else if a[0] == ':' {
      assert (a + ":" + b)[0] == ':';
    } else {
      assert (a + ":" + b)[1..] == a[1..] + ":" + b;
      FirstSegmentOfDelimited(a[1..], b);
    }
  }

  /** The partition key of a generated id is the first segment of the category (the part before any ':' in it). */
  lemma PartitionKeyOfGeneratedId(item: TodoItem, guid: string)
    ensures ResolvePartitionKey(Some(GenerateId(item, guid)))
            == Ok(Some(PartitionKey(FirstSegment(Interpolated(item.fields.category)))))
  {
    FirstSegmentOfDelimited(Interpolated(item.fields.category), guid);
  }

  /** A string with no ':' is its own first segment. */
  lemma FirstSegmentWithoutDelimiter(s: string)
    requires ':' !in s
    ensures FirstSegment(s) == s
  {
  }

  /** Round trip: when the category has no ':', the partition key of a generated id is the category. */
  lemma PartitionKeyRoundTrip(item: TodoItem, guid: string)
    requires ':' !in Interpolated(item.fields.category)
    ensures ResolvePartitionKey(Some(GenerateId(item, guid))) == Ok(Some(PartitionKey(Interpolated(item.fields.category))))
  {
    PartitionKeyOfGeneratedId(item, guid);
    FirstSegmentWithoutDelimiter(Interpolated(item.fields.category));
  }

  /** A null or empty category gives an id that starts with ':' and the empty partition key, without failing. */
  lemma EmptyCategory(item: TodoItem, guid: string)
    requires item.fields.category == None || item.fields.category == Some("")
    ensures GenerateId(item, guid) == ":" + guid
    ensures ResolvePartitionKey(Some(GenerateId(item, guid))) == Ok(Some(PartitionKey("")))
  {
    PartitionKeyOfGeneratedId(item, guid);
  }

  /** A category containing ':' contributes only its part before the first ':' to the partition key. */
  lemma CategoryWithDelimiter(item: TodoItem, guid: string, before: string, after: string)
    requires item.fields.category == Some(before + ":" + after)
    ensures ResolvePartitionKey(Some(GenerateId(item, guid))) == Ok(Some(PartitionKey(FirstSegment(before))))
  {
    PartitionKeyOfGeneratedId(item, guid);
    FirstSegmentOfDelimited(before, after);
  }
}
