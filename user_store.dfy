/** The part of the document store the controller uses: a query returning the
    records that satisfy a predicate (in no particular order), a point read by
    key, and an upsert by key. Query text, partitioning and the network are
    not modelled. */
module UserStore {
  import opened Models

  /** Every record is stored under its own user name. */
  ghost predicate KeyedByUsername(records: map<string, User>) {
    forall k :: k in records ==> records[k].username == k
  }

  /** No two stored records share an e-mail address. */
  ghost predicate UniqueEmails(records: map<string, User>) {
    forall k, l :: k in records && l in records && records[k].email == records[l].email ==> k == l
  }

  /** No two stored records share an identifier. */
  ghost predicate UniqueIds(records: map<string, User>) {
    forall k, l :: k in records && l in records && records[k].id == records[l].id ==> k == l
  }

  class CosmosStore {
    /** The container's contents, by partition key. */
    var records: map<string, User>
    /** Every upsert that took effect, in order. */
    ghost var log: seq<(string, User)>

    constructor (initial: map<string, User>)
      ensures records == initial && log == []
    {
      records := initial;
      log := [];
    }

    /** `GetMultiple`: every returned record is stored and satisfies the
        query, and every stored record that satisfies it is returned. */
    method GetMultiple(query: User -> bool) returns (result: seq<User>)
      ensures forall i :: 0 <= i < |result| ==> result[i] in records.Values && query(result[i])
      ensures forall k :: k in records && query(records[k]) ==> records[k] in result
    {
      result := [];
      var pending := records.Keys;
      while pending != {}
        invariant pending <= records.Keys
        invariant forall i :: 0 <= i < |result| ==> result[i] in records.Values && query(result[i])
        invariant forall k :: k in records && k !in pending && query(records[k]) ==> records[k] in result
        decreases pending
      {
        var k :| k in pending;
        if query(records[k]) {
          result := result + [records[k]];
        }
        pending := pending - {k};
      }
    }

    /** `Get(id, key)`: a point read of the document with identifier `id` in
        partition `key`. The store holds at most one document per key, so the
        read finds the record under `key` when its identifier is `id`, and
        nothing otherwise. */
    method Get(id: Guid, key: string) returns (r: Option<User>)
      ensures r.Some? <==> key in records && records[key].id == id
      ensures r.Some? ==> r.value == records[key] && r.value.id == id
      ensures r.Some? && KeyedByUsername(records) ==> r.value.username == key
    {
      if key in records && records[key].id == id {
        r := Some(records[key]);
      } else {
        r := None;
      }
    }

    /** `Update`: insert or replace the record stored under `key`. When the
        store fails (`fault`) the call throws and nothing is written. */
    method Update(key: string, item: User, fault: bool) returns (ok: bool)
      modifies this
      ensures ok == !fault
      ensures records == if fault then old(records) else old(records)[key := item]
      ensures log == if fault then old(log) else old(log) + [(key, item)]
    {
      if fault {
        ok := false;
      } else {
        records := records[key := item];
        log := log + [(key, item)];
        ok := true;
      }
    }
  }
}
