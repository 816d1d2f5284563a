/** The storage collaborator behind IRepository<CryptData>: a table of records keyed by
    a generated id. It stores whatever strings the entity holds and never transforms
    them; the entities it hands out are unbound. */
module Repositories {
  import opened Results
  import opened Entities

  /** A call that changed the table, in the order it was made. */
  datatype Write = Added(record: Record) | Updated(record: Record) | Deleted(id: int)

  predicate Distinct(s: seq<int>) {
    forall i, j :: 0 <= i < j < |s| ==> s[i] != s[j]
  }

  /** s with x removed, the rest in order. */
  function Without(s: seq<int>, x: int): (r: seq<int>)
    ensures forall y :: y in r <==> y in s && y != x
    ensures Distinct(s) ==> Distinct(r)
  {
    if s == [] then []
    else
      assert Distinct(s) ==> Distinct(s[1..]) && s[0] !in s[1..];
      if s[0] == x then Without(s[1..], x)
      else [s[0]] + Without(s[1..], x)
  }

  class Repository {
    /** The rows, by id. */
    var store: map<int, Record>
    /** The ids in the order GetAll lists them (insertion order). */
    var order: seq<int>
    /** The id the next Add assigns. */
    var nextId: int
    /** Every Add, Update and Delete made so far. */
    ghost var writes: seq<Write>

    ghost predicate Valid()
      reads this
    {
      && nextId > 0
      && (forall id :: id in store ==> 0 < id < nextId && store[id].id == id)
      && Distinct(order)
      && (forall i :: 0 <= i < |order| ==> order[i] in store)
      && (forall id :: id in store ==> id in order)
    }

    /** The rows in listing order. */
    function Records(): (rs: seq<Record>)
      reads this
      requires Valid()
      ensures |rs| == |order|
      ensures forall i :: 0 <= i < |order| ==> rs[i] == store[order[i]]
    {
      var s, o := store, order;
      seq(|o|, i requires 0 <= i < |o| && o[i] in s => s[o[i]])
    }

    constructor ()
      ensures Valid()
      ensures store == map[] && order == [] && writes == []
    {
      store, order, nextId := map[], [], 1;
      writes := [];
    }

    /** GetByIdAsync: a new unbound entity holding the row with this id, or null. */
    method GetById(id: int) returns (entity: Option<CryptData>)
      requires Valid()
      ensures entity.Some? <==> id in store
      ensures entity.Some? ==>
        && id in store && fresh(entity.value)
        && entity.value.provider.None? && entity.value.Fields() == store[id]
    {
      if id !in store {
        return None;
      }
      var row := store[id];
      var e := new CryptData();
      e.id, e.userDocument, e.creditCardToken, e.value := row.id, row.userDocument, row.creditCardToken, row.value;
      return Some(e);
    }

    /** GetAllAsync: one new unbound entity per row, in listing order. */
    method GetAll() returns (entities: seq<CryptData>)
      requires Valid()
      ensures |entities| == |order|
      ensures forall i :: 0 <= i < |entities| ==>
        fresh(entities[i]) && entities[i].provider.None? && entities[i].Fields() == store[order[i]]
    {
      entities := [];
      var k := 0;
      while k < |order|
        invariant 0 <= k <= |order| && |entities| == k
        invariant forall i :: 0 <= i < k ==>
          fresh(entities[i]) && entities[i].provider.None? && entities[i].Fields() == store[order[i]]
      {
        var row := store[order[k]];
        var e := new CryptData();
        e.id, e.userDocument, e.creditCardToken, e.value := row.id, row.userDocument, row.creditCardToken, row.value;
        entities := entities + [e];
        k := k + 1;
      }
    }

    /** AddAsync: assigns the entity a fresh positive id, stores its fields under it and
        returns the same instance. */
    method Add(entity: CryptData) returns (created: CryptData)
      requires Valid()
      modifies this, entity`id
      ensures Valid()
      ensures created == entity
      ensures entity.id == old(nextId) && entity.id > 0 && entity.id !in old(store)
      ensures store == old(store)[entity.id := entity.Fields()]
      ensures order == old(order) + [entity.id]
      ensures nextId == old(nextId) + 1
      ensures writes == old(writes) + [Added(entity.Fields())]
    {
      assert nextId !in order;
      entity.id := nextId;
      store := store[nextId := entity.Fields()];
      order := order + [nextId];
      nextId := nextId + 1;
      writes := writes + [Added(entity.Fields())];
      return entity;
    }

    /** UpdateAsync: overwrites the row of an entity that is stored. */
    method Update(entity: CryptData)
      requires Valid() && entity.id in store
      modifies this
      ensures Valid()
      ensures store == old(store)[entity.id := entity.Fields()]
      ensures order == old(order) && nextId == old(nextId)
      ensures writes == old(writes) + [Updated(entity.Fields())]
    {
      store := store[entity.id := entity.Fields()];
      writes := writes + [Updated(entity.Fields())];
    }

    /** DeleteAsync: removes the row of an entity that is stored. */
    method Delete(entity: CryptData)
      requires Valid() && entity.id in store
      modifies this
      ensures Valid()
      ensures store == old(store) - {entity.id}
      ensures order == Without(old(order), entity.id) && nextId == old(nextId)
      ensures writes == old(writes) + [Deleted(entity.id)]
    {
      store := store - {entity.id};
      order := Without(order, entity.id);
      writes := writes + [Deleted(entity.id)];
      forall i | 0 <= i < |order| ensures order[i] in store {
        assert order[i] in order;
      }
    }
  }
}
