/** The customer service: validated create, read, overwrite and delete over
    the customer store. It publishes no events. */
module CustomerServices {
  import opened Common

  /** A persisted customer, and equally the customer response. */
  datatype Customer = Customer(id: string, creationDate: Timestamp, name: string, suid: string, surname: string)

  /** The record invariant every stored customer keeps: name, suid and
      surname are all non-blank. */
  predicate Persistable(customer: Customer) {
    IsNotBlank(Some(customer.name)) && IsNotBlank(Some(customer.suid)) && IsNotBlank(Some(customer.surname))
  }

  /** The body of a create request. */
  datatype CustomerInsertRequest = CustomerInsertRequest(name: Option<string>, suid: Option<string>, surname: Option<string>)

  /** The body of an update request. */
  datatype CustomerUpdateRequest = CustomerUpdateRequest(id: Option<string>, name: Option<string>, suid: Option<string>, surname: Option<string>)

  /** validateInsert: name, then suid, then surname; the first failing check
      decides the message. */
  function ValidateInsert(request: CustomerInsertRequest): (c: Check)
    ensures c.Pass? <==> IsNotBlank(request.name) && IsNotBlank(request.suid) && IsNotBlank(request.surname)
    ensures !IsNotBlank(request.name) ==> c == Fail("Name is required")
    ensures IsNotBlank(request.name) && !IsNotBlank(request.suid) ==> c == Fail("Suid is required")
    ensures IsNotBlank(request.name) && IsNotBlank(request.suid) && !IsNotBlank(request.surname) ==>
      c == Fail("Surname is required")
    ensures c.Fail? ==> c.message in {"Name is required", "Suid is required", "Surname is required"}
  {
    if !IsNotBlank(request.name) then Fail("Name is required")
    else if !IsNotBlank(request.suid) then Fail("Suid is required")
    else if !IsNotBlank(request.surname) then Fail("Surname is required")
    else Pass
  }

  /** validateUpdate: id, then name, suid and surname, in that order. */
  function ValidateUpdate(request: CustomerUpdateRequest): (c: Check)
    ensures c.Pass? <==>
      IsNotBlank(request.id) && IsNotBlank(request.name) && IsNotBlank(request.suid) && IsNotBlank(request.surname)
    ensures !IsNotBlank(request.id) ==> c == Fail("Id is required")
    ensures IsNotBlank(request.id) && !IsNotBlank(request.name) ==> c == Fail("Name is required")
    ensures IsNotBlank(request.id) && IsNotBlank(request.name) && !IsNotBlank(request.suid) ==>
      c == Fail("Suid is required")
    ensures IsNotBlank(request.id) && IsNotBlank(request.name) && IsNotBlank(request.suid) && !IsNotBlank(request.surname) ==>
      c == Fail("Surname is required")
    ensures c.Fail? ==> c.message in {"Id is required", "Name is required", "Suid is required", "Surname is required"}
  {
    if !IsNotBlank(request.id) then Fail("Id is required")
    else if !IsNotBlank(request.name) then Fail("Name is required")
    else if !IsNotBlank(request.suid) then Fail("Suid is required")
    else if !IsNotBlank(request.surname) then Fail("Surname is required")
    else Pass
  }

  /** The entity create builds from a validated request. */
  function NewCustomer(id: string, now: Timestamp, request: CustomerInsertRequest): (customer: Customer)
    requires ValidateInsert(request).Pass?
    ensures Persistable(customer)
  {
    Customer(id, now, request.name.value, request.suid.value, request.surname.value)
  }

  /** The private update's edits on the loaded entity: name, suid and
      surname are replaced; id and creation date stay. */
  function Overwrite(customer: Customer, request: CustomerUpdateRequest): (updated: Customer)
    requires ValidateUpdate(request).Pass?
    ensures updated.id == customer.id && updated.creationDate == customer.creationDate
    ensures Some(updated.name) == request.name && Some(updated.suid) == request.suid
    ensures Some(updated.surname) == request.surname
    ensures Persistable(updated)
  {
    customer.(name := request.name.value, suid := request.suid.value, surname := request.surname.value)
  }

  /** Applying the same update twice leaves the record as one application
      does. */
  lemma OverwriteIdempotent(customer: Customer, request: CustomerUpdateRequest)
    requires ValidateUpdate(request).Pass?
    ensures Overwrite(Overwrite(customer, request), request) == Overwrite(customer, request)
  {
  }

  class CustomerService {
    /** The customer collection, keyed by id. */
    var store: map<string, Customer>

    /** Every record is filed under its own id, which is never blank, and
        keeps the record invariant. */
    ghost predicate Valid()
      reads this
    {
      forall id | id in store :: store[id].id == id && IsNotBlank(Some(id)) && Persistable(store[id])
    }

    constructor ()
      ensures store == map[] && Valid()
    {
      store := map[];
    }

    /** findById: the stored customer, or a failure for a blank or unknown
        id. */
    method FindById(id: Option<string>) returns (r: Result<Customer>)
      requires Valid()
      ensures !IsNotBlank(id) ==> r == Err("Id is required")
      ensures IsNotBlank(id) && id.value !in store ==> r == Err("Customer not found")
      ensures IsNotBlank(id) && id.value in store ==> r == Ok(store[id.value])
      ensures r.Ok? ==> id == Some(r.value.id) && r.value.id in store && store[r.value.id] == r.value
    {
      if !IsNotBlank(id) {
        return Err("Id is required");
      }
      if id.value !in store {
        return Err("Customer not found");
      }
      r := Ok(store[id.value]);
    }

    /** The repository's findBySuid: some stored customer with that suid,
        if there is one. */
    method LookupBySuid(suid: string) returns (found: Option<Customer>)
      requires Valid()
      ensures found.None? <==> forall id | id in store :: store[id].suid != suid
      ensures found.Some? ==> found.value.id in store && store[found.value.id] == found.value && found.value.suid == suid
    {
      var matches := set customer | customer in store.Values && customer.suid == suid;
      if matches == {} {
        found := None;
        forall id | id in store
          ensures store[id].suid != suid
        {
          assert store[id] in store.Values;
          assert store[id] !in matches;
        }
      } else {
        var customer :| customer in matches;
        found := Some(customer);
      }
    }

    /** findBySuid: a stored customer with that suid, or a failure for a
        blank suid or when nobody has it. */
    method FindBySuid(suid: Option<string>) returns (r: Result<Customer>)
      requires Valid()
      ensures !IsNotBlank(suid) ==> r == Err("Suid is required")
      ensures IsNotBlank(suid) ==>
        (r == Err("Customer not found") <==> forall id | id in store :: store[id].suid != suid.value)
      ensures IsNotBlank(suid) && (exists id | id in store :: store[id].suid == suid.value) ==> r.Ok?
      ensures r.Ok? ==> Some(r.value.suid) == suid && r.value.id in store && store[r.value.id] == r.value
    {
      if !IsNotBlank(suid) {
        return Err("Suid is required");
      }
      var found := LookupBySuid(suid.value);
      if found.None? {
        return Err("Customer not found");
      }
      r := Ok(found.value);
    }

    /** create: on a valid request, stores one new customer under a fresh id
        and returns it; otherwise fails and changes nothing. */
    method Create(request: CustomerInsertRequest, now: Timestamp) returns (r: Result<Customer>)
      requires Valid()
      modifies this
      ensures Valid()
      ensures ValidateInsert(request).Fail? ==> r == Err(ValidateInsert(request).message) && store == old(store)
      ensures ValidateInsert(request).Pass? ==>
        && r.Ok? && r.value.id !in old(store) && IsNotBlank(Some(r.value.id))
        && r.value == NewCustomer(r.value.id, now, request)
        && store == old(store)[r.value.id := r.value]
    {
      var check := ValidateInsert(request);
      if check.Fail? {
        return Err(check.message);
      }
      var id := NewKey(store.Keys);
      var entity := NewCustomer(id, now, request);
      store := store[id := entity];
      r := Ok(entity);
    }

    /** update: on a valid request for a stored customer, overwrites name,
        suid and surname and returns the saved record; otherwise fails and
        changes nothing. */
    method Update(request: CustomerUpdateRequest) returns (r: Result<Customer>)
      requires Valid()
      modifies this
      ensures Valid()
      ensures ValidateUpdate(request).Fail? ==> r == Err(ValidateUpdate(request).message) && store == old(store)
      ensures ValidateUpdate(request).Pass? && request.id.value !in old(store) ==>
        r == Err("Customer not found") && store == old(store)
      ensures ValidateUpdate(request).Pass? && request.id.value in old(store) ==>
        && r == Ok(Overwrite(old(store)[request.id.value], request))
        && store == old(store)[request.id.value := r.value]
    {
      var check := ValidateUpdate(request);
      if check.Fail? {
        return Err(check.message);
      }
      var id := request.id.value;
      if id !in store {
        return Err("Customer not found");
      }
      var saved := UpdateCustomer(store[id], request);
      r := Ok(saved);
    }

    /** deleteBySuid: removes exactly one customer, one that has the suid;
        fails on a blank suid or when nobody has it, changing nothing. */
    method DeleteBySuid(suid: Option<string>) returns (r: Result<()>)
      requires Valid()
      modifies this
      ensures Valid()
      ensures !IsNotBlank(suid) ==> r == Err("Suid is required") && store == old(store)
      ensures IsNotBlank(suid) && (forall id | id in old(store) :: old(store)[id].suid != suid.value) ==>
        r == Err("Customer not found") && store == old(store)
      ensures IsNotBlank(suid) && (exists id | id in old(store) :: old(store)[id].suid == suid.value) ==> r.Ok?
      ensures r.Err? ==> store == old(store)
      ensures r.Ok? ==>
        var removed := old(store).Keys - store.Keys;
        && |removed| == 1
        && store == old(store) - removed
        && forall id | id in removed :: Some(old(store)[id].suid) == suid
    {
      if !IsNotBlank(suid) {
        return Err("Suid is required");
      }
      var found := LookupBySuid(suid.value);
      if found.None? {
        return Err("Customer not found");
      }
      var id := found.value.id;
      store := store - {id};
      assert old(store).Keys - store.Keys == {id};
      r := Ok(());
    }

    /** The private update: edits the loaded customer and saves it over the
        stored one. */
    method UpdateCustomer(customer: Customer, request: CustomerUpdateRequest) returns (saved: Customer)
      requires Valid() && ValidateUpdate(request).Pass?
      requires customer.id in store && store[customer.id] == customer
      modifies this
      ensures Valid()
      ensures saved == Overwrite(customer, request)
      ensures store == old(store)[customer.id := saved]
    {
      saved := Overwrite(customer, request);
      store := store[saved.id := saved];
    }
  }
}
