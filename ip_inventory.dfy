/**
 * The IP-entry routes of the server (create, list, update, delete). Each
 * handler reads the whole collection, changes it in memory and writes it
 * back whole; the store is the class below, whose `ips` field is that
 * collection. Clock readings and generated identifiers are parameters.
 */
module IpInventory {
  import opened Results
  import opened Seqs
  import opened Records

  /** The one failure of update and delete: 404 with `{ error: 'IP not found' }`. */
  datatype InventoryError = NotFound
  {
    function Status(): nat { 404 }
    function Message(): string { "IP not found" }
  }

  const DeletedMessage := "IP deleted successfully"

  /**
   * The record `create` stores: `{ id: generatedId, ...body, createdAt, updatedAt }`,
   * where the two timestamps are two separate readings of the clock.
   */
  function NewEntry(body: Record, generatedId: string, createdAt: string, updatedAt: string): Record
  {
    Put(Put(Spread([("id", Str(generatedId))], body), "createdAt", Str(createdAt)), "updatedAt", Str(updatedAt))
  }

  /**
   * Every field of a created record: the timestamps are always the server's,
   * a body `id` overrides the generated one, and any other key is the body's.
   */
  lemma NewEntryLookup(body: Record, generatedId: string, createdAt: string, updatedAt: string, k: string)
    requires WellFormed(body)
    ensures Lookup(NewEntry(body, generatedId, createdAt, updatedAt), k) ==
      if k == "updatedAt" then Some(Str(updatedAt))
      else if k == "createdAt" then Some(Str(createdAt))
      else if k in Keys(body) then Lookup(body, k)
      else if k == "id" then Some(Str(generatedId))
      else None
  {
    var base := [("id", Str(generatedId))];
    var spread := Spread(base, body);
    SpreadLookup(base, body, k);
    PutLookup(spread, "createdAt", Str(createdAt), k);
    PutLookup(Put(spread, "createdAt", Str(createdAt)), "updatedAt", Str(updatedAt), k);
  }

  /**
   * The key order of a created record: `id` first, then the body's other keys
   * in the body's order, then `createdAt` and `updatedAt` unless the body
   * already placed them; no key twice.
   */
  lemma NewEntryKeys(body: Record, generatedId: string, createdAt: string, updatedAt: string)
    requires WellFormed(body)
    ensures var e := NewEntry(body, generatedId, createdAt, updatedAt);
      var spreadKeys := ["id"] + Filter(Keys(body), NotIn(["id"]));
      var withCreated := if "createdAt" in spreadKeys then spreadKeys else spreadKeys + ["createdAt"];
      && WellFormed(e)
      && Keys(e) == (if "updatedAt" in withCreated then withCreated else withCreated + ["updatedAt"])
      && Keys(e)[0] == "id"
  {
    var base := [("id", Str(generatedId))];
    assert Keys(base) == ["id"];
    SpreadKeys(base, body);
    SpreadWellFormed(base, body);
    var spread := Spread(base, body);
    PutWellFormed(spread, "createdAt", Str(createdAt));
    PutWellFormed(Put(spread, "createdAt", Str(createdAt)), "updatedAt", Str(updatedAt));
  }

  /** The record `update` stores: `{ ...existing, ...body, updatedAt: now }`. */
  function Merged(existing: Record, body: Record, now: string): Record
  {
    Put(Spread(existing, body), "updatedAt", Str(now))
  }

  /** Body keys override, keys absent from the body keep their old values, `updatedAt` is `now`. */
  lemma MergedLookup(existing: Record, body: Record, now: string, k: string)
    requires WellFormed(body)
    ensures Lookup(Merged(existing, body, now), k) ==
      if k == "updatedAt" then Some(Str(now))
      else if k in Keys(body) then Lookup(body, k)
      else Lookup(existing, k)
  {
    SpreadLookup(existing, body, k);
    PutLookup(Spread(existing, body), "updatedAt", Str(now), k);
  }

  /** An updated record keeps its old keys in place; new keys come after them. */
  lemma MergedKeys(existing: Record, body: Record, now: string)
    requires WellFormed(existing) && WellFormed(body)
    ensures WellFormed(Merged(existing, body, now))
    ensures Keys(existing) <= Keys(Merged(existing, body, now))
  {
    SpreadKeys(existing, body);
    SpreadWellFormed(existing, body);
    PutWellFormed(Spread(existing, body), "updatedAt", Str(now));
  }

  /**
   * What delete leaves: every record without the id, each as often as it
   * occurred, in the original order, and no record with the id.
   */
  lemma WithoutIdMeaning(s: seq<Record>, id: string)
    ensures IsSubsequence(WithoutId(s, id), s)
    ensures forall i :: 0 <= i < |WithoutId(s, id)| ==> !HasId(WithoutId(s, id)[i], id)
    ensures forall r :: multiset(WithoutId(s, id))[r] == if HasId(r, id) then 0 else multiset(s)[r]
    ensures |WithoutId(s, id)| == |s| <==> forall i :: 0 <= i < |s| ==> !HasId(s[i], id)
  {
    FilterIsSubsequence(s, LacksId(id));
    FilterMultiplicity(s, LacksId(id));
  }

  /** The collection of IP entries, as the handlers read and write it. */
  class IpStore {
    var ips: seq<Record>

    /** Every stored record came from JSON, so its keys are distinct. */
    ghost predicate Valid()
      reads this
    {
      forall i :: 0 <= i < |ips| ==> WellFormed(ips[i])
    }

    constructor (stored: seq<Record>)
      requires forall i :: 0 <= i < |stored| ==> WellFormed(stored[i])
      ensures Valid() && ips == stored
    {
      ips := stored;
    }

    /** GET /api/ips: the whole collection, unfiltered, in stored order. */
    method List() returns (r: seq<Record>)
      ensures r == ips
    {
      r := ips;
    }

    /** POST /api/ips: builds the new record and pushes it at the end. */
    method Create(body: Record, generatedId: string, createdAt: string, updatedAt: string)
      returns (entry: Record)
      requires Valid() && WellFormed(body)
      modifies this
      ensures Valid()
      ensures entry == NewEntry(body, generatedId, createdAt, updatedAt)
      ensures ips == old(ips) + [entry]
    {
      entry := NewEntry(body, generatedId, createdAt, updatedAt);
      NewEntryKeys(body, generatedId, createdAt, updatedAt);
      ips := ips + [entry];
    }

    /**
     * PUT /api/ips/:id: merges the body over the first record with the id;
     * NotFound, with nothing written, when there is none.
     */
    method Update(id: string, body: Record, now: string) returns (res: Result<Record, InventoryError>)
      requires Valid() && WellFormed(body)
      modifies this
      ensures Valid()
      ensures res.Failure? <==> forall j :: 0 <= j < |old(ips)| ==> !HasId(old(ips)[j], id)
      ensures res.Failure? ==> res.error == NotFound && ips == old(ips)
      ensures res.Failure? ==> res.error.Status() == 404 && res.error.Message() == "IP not found"
      ensures res.Success? ==>
        var i := IndexOfId(old(ips), id).value;
        && res.value == Merged(old(ips)[i], body, now)
        && ips == old(ips)[i := res.value]
    {
      var index := IndexOfId(ips, id);
      match index
      case None =>
        res := Failure(NotFound);
      case Some(i) =>
        var merged := Merged(ips[i], body, now);
        MergedKeys(ips[i], body, now);
        ips := ips[i := merged];
        res := Success(merged);
    }

    /**
     * DELETE /api/ips/:id: keeps the records without the id; NotFound, with
     * nothing written, when that removes nothing.
     */
    method Delete(id: string) returns (res: Result<string, InventoryError>)
      requires Valid()
      modifies this
      ensures Valid()
      ensures res.Failure? <==> forall j :: 0 <= j < |old(ips)| ==> !HasId(old(ips)[j], id)
      ensures res.Failure? ==> res.error == NotFound && ips == old(ips)
      ensures res.Failure? ==> res.error.Status() == 404 && res.error.Message() == "IP not found"
      ensures res.Success? ==> res.value == DeletedMessage && ips == WithoutId(old(ips), id)
    {
      var filtered := WithoutId(ips, id);
      if |filtered| == |ips| {
        res := Failure(NotFound);
      } else {
        ips := filtered;
        res := Success(DeletedMessage);
      }
    }
  }
}
