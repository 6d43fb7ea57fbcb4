/**
 * How the browser's copy of the list follows the server's collection: each
 * hook operation mirrors the reply of the matching route. Delete and create
 * mirror exactly; update mirrors exactly when the id names one record.
 */
module Consistency {
  import opened Results
  import opened Records
  import opened IpInventory
  import opened UseIPs

  /** The reply a create or update result travels back as: the entry, or 404 with `{ error }`. */
  function EntryReply(res: Result<Record, InventoryError>): Reply<Record>
  {
    match res
    case Success(e) => Ok(e)
    case Failure(err) => Failed([("error", Str(err.Message()))])
  }

  /** The reply of a delete: `{ message }`, or 404 with `{ error }`. */
  function DeleteReply(res: Result<string, InventoryError>): Reply<Record>
  {
    match res
    case Success(m) => Ok([("message", Str(m))])
    case Failure(err) => Failed([("error", Str(err.Message()))])
  }

  /** At most one record carries the id. */
  predicate IdUnique(s: seq<Record>, id: string)
  {
    forall i, j :: 0 <= i < |s| && 0 <= j < |s| && HasId(s[i], id) && HasId(s[j], id) ==> i == j
  }

  /** The client's replace-every-match equals the server's replace-the-first when the id is unique. */
  lemma ClientUpdateMatchesServer(s: seq<Record>, id: string, updated: Record)
    requires IdUnique(s, id) && IndexOfId(s, id).Some?
    ensures ReplaceById(s, id, updated) == s[IndexOfId(s, id).value := updated]
  {
    var k := IndexOfId(s, id).value;
    var r := ReplaceById(s, id, updated);
    forall i | 0 <= i < |s| ensures r[i] == s[k := updated][i] {
      if i != k && HasId(s[i], id) {
        assert false;
      }
    }
  }

  /** With two records sharing the id, the client replaces both and the server only the first. */
  lemma ClientUpdateDivergesOnDuplicateIds()
    ensures var e := [("id", Str("1"))];
      var u := [("id", Str("1")), ("status", Str("occupied"))];
      && IndexOfId([e, e], "1") == Some(0)
      && ReplaceById([e, e], "1", u) == [u, u]
      && [e, e][0 := u] == [u, e]
      && [u, u] != [u, e]
  {
    var e := [("id", Str("1"))];
    var u := [("id", Str("1")), ("status", Str("occupied"))];
    assert HasId(e, "1");
    assert [u, u][1] != [u, e][1];
  }

  /** Posting an entry and appending the reply leaves both copies equal. */
  method SyncedCreate(store: IpStore, list: IpList, body: Record, generatedId: string, createdAt: string, updatedAt: string)
    requires store.Valid() && WellFormed(body) && store.ips == list.ips
    modifies store, list
    ensures store.Valid() && store.ips == list.ips
  {
    var entry := store.Create(body, generatedId, createdAt, updatedAt);
    var _ := list.AddIP(Ok(entry));
  }

  /** Updating, found or not, leaves both copies equal when the id names at most one record. */
  method SyncedUpdate(store: IpStore, list: IpList, id: string, body: Record, now: string)
    requires store.Valid() && WellFormed(body) && store.ips == list.ips
    requires IdUnique(store.ips, id)
    modifies store, list
    ensures store.Valid() && store.ips == list.ips
  {
    ghost var before := store.ips;
    var res := store.Update(id, body, now);
    var _ := list.UpdateIP(id, EntryReply(res));
    if res.Success? {
      ClientUpdateMatchesServer(before, id, res.value);
    }
  }

  /** Deleting, found or not, leaves both copies equal. */
  method SyncedDelete(store: IpStore, list: IpList, id: string)
    requires store.Valid() && store.ips == list.ips
    modifies store, list
    ensures store.Valid() && store.ips == list.ips
  {
    var res := store.Delete(id);
    var _ := list.DeleteIP(id, DeleteReply(res));
  }

  /** Fetching after any of these gives the client the server's collection. */
  method SyncedFetch(store: IpStore, list: IpList)
    modifies list
    ensures list.ips == store.ips && list.error == None && !list.loading
  {
    var current := store.List();
    list.FetchIPs(Ok(current));
  }
}
