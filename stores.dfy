/** The stores table and its routes: create with validated fields and a
    manager that must exist, a partial update that replaces only the fields
    supplied, and a delete that only deactivates. */
module Stores {
  import opened Common
  import Auth

  /** The roles admitted by `authorize('ceo', 'supervisor')`. */
  const Managers: seq<Role> := [Supervisor, Ceo]

  /** A Store row. */
  datatype Store = Store(
    name: string,
    location: string,
    managerId: Option<Uuid>,
    phoneNumber: Option<string>,
    isActive: bool)

  /** The fields of a PUT body after sanitising; None is a field the body
      leaves undefined. */
  datatype StoreChanges = StoreChanges(
    name: Option<string>,
    location: Option<string>,
    managerId: Option<Uuid>,
    phoneNumber: Option<string>,
    isActive: Option<bool>)

  /** The validators of POST /stores, on the sanitised (trimmed) fields. */
  predicate CreateFieldsValid(name: string, location: string, managerId: Option<string>) {
    NonBlank(name) && NonBlank(location) && OptionalUuid(managerId)
  }

  /** The validators of PUT /stores/:id, on the sanitised body: a supplied
      name or location must be non-blank and a supplied manager id must be a
      UUID. */
  predicate UpdateFieldsValid(c: StoreChanges) {
    (c.name.None? || NonBlank(c.name.value)) && (c.location.None? || NonBlank(c.location.value))
    && OptionalUuid(c.managerId)
  }

  /** The sanitised PUT body: name, location and phone number trimmed, the
      rest as sent. */
  function Sanitised(name: Option<string>, location: Option<string>, managerId: Option<string>,
                     phoneNumber: Option<string>, isActive: Option<bool>): (c: StoreChanges)
    ensures c.name == TrimOption(name) && c.location == TrimOption(location)
    ensures c.phoneNumber == TrimOption(phoneNumber)
    ensures c.managerId == managerId && c.isActive == isActive
  {
    StoreChanges(TrimOption(name), TrimOption(location), managerId, TrimOption(phoneNumber), isActive)
  }

  /** `if (manager_id)`: a supplied manager must name an existing user
      (active or not). */
  predicate ManagerKnown(managerId: Option<string>, users: map<Uuid, User>) {
    managerId.None? || managerId.value == [] || managerId.value in users
  }

  /** The spread merge of `store.update`: name and location are replaced only
      by a truthy (non-empty) value; manager, phone number and the active flag
      are replaced whenever they are defined. */
  function Merge(s: Store, c: StoreChanges): (m: Store)
    ensures c.name.Some? && c.name.value != [] ==> m.name == c.name.value
    ensures c.name.None? || c.name.value == [] ==> m.name == s.name
    ensures c.location.Some? && c.location.value != [] ==> m.location == c.location.value
    ensures c.location.None? || c.location.value == [] ==> m.location == s.location
    ensures m.managerId == if c.managerId.Some? then c.managerId else s.managerId
    ensures m.phoneNumber == if c.phoneNumber.Some? then c.phoneNumber else s.phoneNumber
    ensures m.isActive == if c.isActive.Some? then c.isActive.value else s.isActive
  {
    Store(
      if c.name.Some? && c.name.value != [] then c.name.value else s.name,
      if c.location.Some? && c.location.value != [] then c.location.value else s.location,
      if c.managerId.Some? then c.managerId else s.managerId,
      if c.phoneNumber.Some? then c.phoneNumber else s.phoneNumber,
      if c.isActive.Some? then c.isActive.value else s.isActive)
  }

  /** A body that defines nothing changes nothing. */
  lemma MergeNothing(s: Store)
    ensures Merge(s, StoreChanges(None, None, None, None, None)) == s
  {
  }

  /** Sending the same body twice has the effect of sending it once. */
  lemma MergeIdempotent(s: Store, c: StoreChanges)
    ensures Merge(Merge(s, c), c) == Merge(s, c)
  {
  }

  /** After validation every supplied field is taken over as sanitised (the
      truthiness test on name and location never drops a validated value),
      and every field the body leaves out keeps its stored value. */
  lemma ValidatedMergeTakesEverySuppliedField(s: Store, c: StoreChanges)
    requires UpdateFieldsValid(c)
    requires c.name.Some? ==> c.name.value == Trim(c.name.value)
    requires c.location.Some? ==> c.location.value == Trim(c.location.value)
    ensures var m := Merge(s, c);
            && (c.name.Some? ==> m.name == c.name.value)
            && (c.location.Some? ==> m.location == c.location.value)
            && (c.managerId.Some? ==> m.managerId == c.managerId)
            && (c.phoneNumber.Some? ==> m.phoneNumber == c.phoneNumber)
            && (c.isActive.Some? ==> m.isActive == c.isActive.value)
            && (c.name.None? ==> m.name == s.name) && (c.location.None? ==> m.location == s.location)
            && (c.managerId.None? ==> m.managerId == s.managerId)
            && (c.phoneNumber.None? ==> m.phoneNumber == s.phoneNumber)
            && (c.isActive.None? ==> m.isActive == s.isActive)
  {
  }

  /** What every stored row satisfies: a name and a location, and a manager id
      that is a UUID. */
  predicate StoreWellFormed(s: Store) {
    s.name != [] && s.location != [] && OptionalUuid(s.managerId)
  }

  /** The merge keeps a row well formed whatever the body holds, provided a
      supplied manager id is a UUID. */
  lemma MergeKeepsWellFormed(s: Store, c: StoreChanges)
    requires StoreWellFormed(s)
    requires OptionalUuid(c.managerId)
    ensures StoreWellFormed(Merge(s, c))
  {
  }

  predicate BookValid(stores: map<Uuid, Store>) {
    forall id :: id in stores ==> StoreWellFormed(stores[id])
  }

  /** Writing a well-formed row keeps the table valid. */
  lemma WriteKeepsValid(stores: map<Uuid, Store>, id: Uuid, s: Store)
    requires BookValid(stores) && StoreWellFormed(s)
    ensures BookValid(stores[id := s])
  {
  }

  class StoreBook {
    var stores: map<Uuid, Store>

    ghost predicate Valid()
      reads this
    {
      BookValid(stores)
    }

    constructor ()
      ensures Valid() && stores == map[]
    {
      stores := map[];
    }

    /** GET /stores/:id: the store, or 404. */
    function Get(id: Uuid): (r: Result<Store>)
      reads this
      ensures r.Ok? <==> id in stores
      ensures r.Err? ==> r.status == NotFound
      ensures r.Ok? ==> r.value == stores[id]
    {
      if id in stores then Ok(stores[id]) else Err(NotFound)
    }

    /** POST /stores: supervisors and the CEO create an active store with a
        name and a location; a manager, when given, must exist. */
    method Create(caller: User, id: Uuid, name: string, location: string, managerId: Option<string>,
                  phoneNumber: Option<string>, users: map<Uuid, User>) returns (r: Result<Store>)
      requires Valid()
      modifies this
      ensures Valid()
      ensures !Auth.Permits(caller, Managers) ==> r == Err(Forbidden)
      ensures (Auth.Permits(caller, Managers) && !CreateFieldsValid(name, location, managerId))
                ==> r == Err(BadRequest)
      ensures (Auth.Permits(caller, Managers) && CreateFieldsValid(name, location, managerId)
               && !ManagerKnown(managerId, users)) ==> r == Err(NotFound)
      ensures (Auth.Permits(caller, Managers) && CreateFieldsValid(name, location, managerId)
               && ManagerKnown(managerId, users) && id in old(stores)) ==> r == Err(Conflict)
      ensures r.Ok? <==>
                && Auth.Permits(caller, Managers) && CreateFieldsValid(name, location, managerId)
                && ManagerKnown(managerId, users) && id !in old(stores)
      ensures r.Err? ==> stores == old(stores)
      ensures r.Ok? ==>
                && r.value == Store(Trim(name), Trim(location), managerId, TrimOption(phoneNumber), true)
                && stores == old(stores)[id := r.value]
    {
      if !Auth.Permits(caller, Managers) {
        return Err(Forbidden);
      }
      if !CreateFieldsValid(name, location, managerId) {
        return Err(BadRequest);
      }
      if !ManagerKnown(managerId, users) {
        return Err(NotFound);
      }
      if id in stores {
        return Err(Conflict);
      }
      var store := Store(Trim(name), Trim(location), managerId, TrimOption(phoneNumber), true);
      WriteKeepsValid(stores, id, store);
      stores := stores[id := store];
      r := Ok(store);
    }

    /** PUT /stores/:id: supervisors and the CEO change the fields they
        supply; everything else about the store stays as it was. */
    method Update(caller: User, id: Uuid, name: Option<string>, location: Option<string>,
                  managerId: Option<string>, phoneNumber: Option<string>, isActive: Option<bool>,
                  users: map<Uuid, User>) returns (r: Result<Store>)
      requires Valid()
      modifies this
      ensures Valid()
      ensures var c := Sanitised(name, location, managerId, phoneNumber, isActive);
              && (!Auth.Permits(caller, Managers) ==> r == Err(Forbidden))
              && ((Auth.Permits(caller, Managers) && !UpdateFieldsValid(c)) ==> r == Err(BadRequest))
              && ((Auth.Permits(caller, Managers) && UpdateFieldsValid(c) && id !in old(stores)) ==> r == Err(NotFound))
              && ((Auth.Permits(caller, Managers) && UpdateFieldsValid(c) && id in old(stores)
                   && !ManagerKnown(managerId, users)) ==> r == Err(NotFound))
              && (r.Ok? <==>
                    Auth.Permits(caller, Managers) && UpdateFieldsValid(c) && id in old(stores)
                    && ManagerKnown(managerId, users))
              && (r.Ok? ==> r.value == Merge(old(stores)[id], c) && stores == old(stores)[id := r.value])
      ensures r.Err? ==> r.status in {Forbidden, BadRequest, NotFound} && stores == old(stores)
    {
      if !Auth.Permits(caller, Managers) {
        return Err(Forbidden);
      }
      var changes := Sanitised(name, location, managerId, phoneNumber, isActive);
      if !UpdateFieldsValid(changes) {
        return Err(BadRequest);
      }
      if id !in stores {
        return Err(NotFound);
      }
      if !ManagerKnown(managerId, users) {
        return Err(NotFound);
      }
      MergeKeepsWellFormed(stores[id], changes);
      var updated := Merge(stores[id], changes);
      WriteKeepsValid(stores, id, updated);
      stores := stores[id := updated];
      r := Ok(updated);
    }

    /** DELETE /stores/:id: the CEO deactivates a store; the row stays, with
        every other field unchanged. */
    method Deactivate(caller: User, id: Uuid) returns (r: Result<Store>)
      requires Valid()
      modifies this
      ensures Valid()
      ensures !Auth.Permits(caller, [Ceo]) ==> r == Err(Forbidden)
      ensures (Auth.Permits(caller, [Ceo]) && id !in old(stores)) ==> r == Err(NotFound)
      ensures r.Ok? <==> Auth.Permits(caller, [Ceo]) && id in old(stores)
      ensures r.Err? ==> r.status in {Forbidden, NotFound} && stores == old(stores)
      ensures r.Ok? ==>
                && r.value == old(stores)[id].(isActive := false)
                && stores == old(stores)[id := r.value]
      ensures stores.Keys == old(stores).Keys
    {
      if !Auth.Permits(caller, [Ceo]) {
        return Err(Forbidden);
      }
      if id !in stores {
        return Err(NotFound);
      }
      var updated := stores[id].(isActive := false);
      WriteKeepsValid(stores, id, updated);
      stores := stores[id := updated];
      r := Ok(updated);
    }
  }
}
