/**
 * CosmosDbClientFactory: holds the database name, the fixed list of known
 * collection names and the document-client connection; hands out clients for
 * known collections and runs the startup existence checks.
 */
module Factory {
  import opened Wrappers
  import opened Exceptions
  import opened Documents
  import Client

  /** The three readonly fields; nothing changes them after construction. */
  datatype CosmosDbClientFactory =
    CosmosDbClientFactory(databaseName: string, collectionNames: seq<string>, documentClient: ConnectionHandle)

  /** The constructor: each argument is checked for null, in declaration order. Empty values are accepted. */
  function New(databaseName: Option<string>, collectionNames: Option<seq<string>>, documentClient: Option<ConnectionHandle>)
    : (r: Result<CosmosDbClientFactory, Exception>)
    ensures r.Ok? <==> databaseName.Some? && collectionNames.Some? && documentClient.Some?
    ensures r.Ok? ==> r.value.databaseName == databaseName.value && r.value.collectionNames == collectionNames.value
                      && r.value.documentClient == documentClient.value
    ensures databaseName.None? ==> r == Err(ArgumentNullException("databaseName"))
    ensures databaseName.Some? && collectionNames.None? ==> r == Err(ArgumentNullException("collectionNames"))
    ensures databaseName.Some? && collectionNames.Some? && documentClient.None?
            ==> r == Err(ArgumentNullException("documentClient"))
  {
    if databaseName.None? then Err(ArgumentNullException("databaseName"))
    else if collectionNames.None? then Err(ArgumentNullException("collectionNames"))
    else if documentClient.None? then Err(ArgumentNullException("documentClient"))
    else Ok(CosmosDbClientFactory(databaseName.value, collectionNames.value, documentClient.value))
  }

  /** The message of the exception GetClient throws for an unknown collection. */
  function UnknownCollectionMessage(collectionName: string): string
  {
    "Unable to find collection: " + collectionName
  }

  /**
   * A client for a configured collection, bound to this factory's database and
   * connection; any other name is refused.
   */
  function GetClient(f: CosmosDbClientFactory, collectionName: string): (r: Result<Client.CosmosDbClient, Exception>)
    ensures r.Ok? <==> collectionName in f.collectionNames
    ensures r.Err? ==> r.error == ArgumentException(UnknownCollectionMessage(collectionName))
    ensures r.Ok? ==> r.value.databaseName == f.databaseName && r.value.collectionName == collectionName
                      && r.value.documentClient == f.documentClient
  {
    if collectionName !in f.collectionNames then
      Err(ArgumentException(UnknownCollectionMessage(collectionName)))
    else
      // The client constructor cannot fail here: none of its arguments is null.
      Client.New(Some(f.databaseName), Some(collectionName), Some(f.documentClient))
  }

  /**
   * The existence checks EnsureDbSetupAsync is to make, in order: the
   * database once, then every configured collection once, in list order.
   */
  function SetupChecks(f: CosmosDbClientFactory): (checks: seq<SetupCall>)
    ensures |checks| == |f.collectionNames| + 1
    ensures checks[0] == ReadDatabase(DatabaseUri(f.databaseName))
    ensures forall i :: 0 <= i < |f.collectionNames| ==>
              checks[i + 1] == ReadDocumentCollection(DocumentCollectionUri(f.databaseName, f.collectionNames[i]))
  {
    [ReadDatabase(DatabaseUri(f.databaseName))] +
      seq(|f.collectionNames|, i requires 0 <= i < |f.collectionNames| =>
            ReadDocumentCollection(DocumentCollectionUri(f.databaseName, f.collectionNames[i])))
  }

  /**
   * The startup check. `probe` is the underlying client's answer to each
   * check. The checks are issued one at a time; a failure is not caught: it
   * ends the method with that failure and no later check is issued.
   */
  method EnsureDbSetupAsync(f: CosmosDbClientFactory, probe: SetupCall -> CheckReply)
    returns (issued: seq<SetupCall>, result: Result<(), Exception>)
    ensures 1 <= |issued| <= |SetupChecks(f)| && issued == SetupChecks(f)[..|issued|]
    ensures forall i :: 0 <= i < |issued| - 1 ==> probe(issued[i]) == Found
    ensures result.Ok? <==> forall i :: 0 <= i < |SetupChecks(f)| ==> probe(SetupChecks(f)[i]) == Found
    ensures result.Ok? ==> issued == SetupChecks(f)
    ensures result.Err? ==> probe(issued[|issued| - 1]).CheckFailed?
                            && result.error == DocumentClientException(probe(issued[|issued| - 1]).statusCode)
  {
    ghost var plan := SetupChecks(f);
    var databaseCheck := ReadDatabase(DatabaseUri(f.databaseName));
    issued := [databaseCheck];
    var reply := probe(databaseCheck);
    if reply.CheckFailed? {
      return issued, Err(DocumentClientException(reply.statusCode));
    }
    var i := 0;
    while i < |f.collectionNames|
      invariant 0 <= i <= |f.collectionNames|
      invariant issued == plan[..i + 1]
      invariant forall k :: 0 <= k < |issued| ==> probe(issued[k]) == Found
    {
      var collectionCheck := ReadDocumentCollection(DocumentCollectionUri(f.databaseName, f.collectionNames[i]));
      issued := issued + [collectionCheck];
      reply := probe(collectionCheck);
      if reply.CheckFailed? {
        return issued, Err(DocumentClientException(reply.statusCode));
      }
      i := i + 1;
    }
    result := Ok(());
  }
}
