/** The meal service: validated create, read, overwrite and delete over the
    menu store. It publishes no events. */
module MealServices {
  import opened Common
  import opened MealTypes

  /** A persisted menu item, and equally the meal response. */
  datatype Meal = Meal(id: string, creationDate: Timestamp, description: string, note: Option<string>, mealType: MealType)

  /** The record invariant every stored meal keeps: a non-blank description
      and a type other than the ERROR sentinel. The note is free. */
  predicate Persistable(meal: Meal) {
    IsNotBlank(Some(meal.description)) && meal.mealType != Error
  }

  /** A type the service accepts: present and not the ERROR sentinel. */
  predicate IsValidType(mealType: Option<MealType>) {
    mealType.Some? && mealType.value != Error
  }

  /** The body of a create request. */
  datatype MealInsertRequest = MealInsertRequest(description: Option<string>, note: Option<string>, mealType: Option<MealType>)

  /** The body of an update request. */
  datatype MealUpdateRequest = MealUpdateRequest(id: Option<string>, description: Option<string>, note: Option<string>, mealType: Option<MealType>)

  /** validateInsert: description, then type; the note is never checked. */
  function ValidateInsert(request: MealInsertRequest): (c: Check)
    ensures c.Pass? <==> IsNotBlank(request.description) && IsValidType(request.mealType)
    ensures !IsNotBlank(request.description) ==> c == Fail("Description is required")
    ensures IsNotBlank(request.description) && !IsValidType(request.mealType) ==> c == Fail("Invalid meal type")
    ensures c.Fail? ==> c.message in {"Description is required", "Invalid meal type"}
  {
    if !IsNotBlank(request.description) then Fail("Description is required")
    else if !IsValidType(request.mealType) then Fail("Invalid meal type")
    else Pass
  }

  /** validateUpdate: id, then description, then type; the note is never
      checked. */
  function ValidateUpdate(request: MealUpdateRequest): (c: Check)
    ensures c.Pass? <==> IsNotBlank(request.id) && IsNotBlank(request.description) && IsValidType(request.mealType)
    ensures !IsNotBlank(request.id) ==> c == Fail("Id is required")
    ensures IsNotBlank(request.id) && !IsNotBlank(request.description) ==> c == Fail("Description is required")
    ensures IsNotBlank(request.id) && IsNotBlank(request.description) && !IsValidType(request.mealType) ==>
      c == Fail("Invalid meal type")
    ensures c.Fail? ==> c.message in {"Id is required", "Description is required", "Invalid meal type"}
  {
    if !IsNotBlank(request.id) then Fail("Id is required")
    else if !IsNotBlank(request.description) then Fail("Description is required")
    else if !IsValidType(request.mealType) then Fail("Invalid meal type")
    else Pass
  }

  /** The entity create builds from a validated request. */
  function NewMeal(id: string, now: Timestamp, request: MealInsertRequest): (meal: Meal)
    requires ValidateInsert(request).Pass?
    ensures Persistable(meal)
  {
    Meal(id, now, request.description.value, request.note, request.mealType.value)
  }

  /** The private update's edits on the loaded entity: description, note and
      type are replaced; id and creation date stay. */
  function Overwrite(meal: Meal, request: MealUpdateRequest): (updated: Meal)
    requires ValidateUpdate(request).Pass?
    ensures updated.id == meal.id && updated.creationDate == meal.creationDate
    ensures Some(updated.description) == request.description && updated.note == request.note
    ensures Some(updated.mealType) == request.mealType
    ensures Persistable(updated)
  {
    meal.(description := request.description.value, note := request.note, mealType := request.mealType.value)
  }

  /** Applying the same update twice leaves the record as one application
      does. */
  lemma OverwriteIdempotent(meal: Meal, request: MealUpdateRequest)
    requires ValidateUpdate(request).Pass?
    ensures Overwrite(Overwrite(meal, request), request) == Overwrite(meal, request)
  {
  }

  class MealService {
    /** The meal collection, keyed by id. */
    var store: map<string, Meal>

    /** Every record is filed under its own id, which is never blank, and
        keeps the record invariant. */
    ghost predicate Valid()
      reads this
    {
      forall id | id in store :: store[id].id == id && IsNotBlank(Some(id)) && Persistable(store[id])
    }

    constructor ()
      ensures store == map[] && Valid()
    {
      store := map[];
    }

    /** findAll: every stored meal. */
    method FindAll() returns (r: set<Meal>)
      requires Valid()
      ensures forall meal :: meal in r <==> meal.id in store && store[meal.id] == meal
    {
      r := store.Values;
    }

    /** findById: the stored meal, or a failure for a blank or unknown id. */
    method FindById(id: Option<string>) returns (r: Result<Meal>)
      requires Valid()
      ensures !IsNotBlank(id) ==> r == Err("Id is required")
      ensures IsNotBlank(id) && id.value !in store ==> r == Err("Meal not found")
      ensures IsNotBlank(id) && id.value in store ==> r == Ok(store[id.value])
      ensures r.Ok? ==> id == Some(r.value.id) && r.value.id in store && store[r.value.id] == r.value
    {
      if !IsNotBlank(id) {
        return Err("Id is required");
      }
      if id.value !in store {
        return Err("Meal not found");
      }
      r := Ok(store[id.value]);
    }

    /** create: on a valid request, stores one new meal under a fresh id and
        returns it; otherwise fails and changes nothing. */
    method Create(request: MealInsertRequest, now: Timestamp) returns (r: Result<Meal>)
      requires Valid()
      modifies this
      ensures Valid()
      ensures ValidateInsert(request).Fail? ==> r == Err(ValidateInsert(request).message) && store == old(store)
      ensures ValidateInsert(request).Pass? ==>
        && r.Ok? && r.value.id !in old(store) && IsNotBlank(Some(r.value.id))
        && r.value == NewMeal(r.value.id, now, request)
        && store == old(store)[r.value.id := r.value]
    {
      var check := ValidateInsert(request);
      if check.Fail? {
        return Err(check.message);
      }
      var id := NewKey(store.Keys);
      var entity := NewMeal(id, now, request);
      store := store[id := entity];
      r := Ok(entity);
    }

    /** update: on a valid request for a stored meal, overwrites
        description, note and type and returns the saved record; otherwise
        fails and changes nothing. */
    method Update(request: MealUpdateRequest) returns (r: Result<Meal>)
      requires Valid()
      modifies this
      ensures Valid()
      ensures ValidateUpdate(request).Fail? ==> r == Err(ValidateUpdate(request).message) && store == old(store)
      ensures ValidateUpdate(request).Pass? && request.id.value !in old(store) ==>
        r == Err("Meal not found") && store == old(store)
      ensures ValidateUpdate(request).Pass? && request.id.value in old(store) ==>
        && r == Ok(Overwrite(old(store)[request.id.value], request))
        && store == old(store)[request.id.value := r.value]
    {
      var check := ValidateUpdate(request);
      if check.Fail? {
        return Err(check.message);
      }
      var id := request.id.value;
      if id !in store {
        return Err("Meal not found");
      }
      var saved := UpdateMeal(store[id], request);
      r := Ok(saved);
    }

    /** delete: on a non-blank id of a stored meal, removes exactly that
        meal; otherwise fails and changes nothing. */
    method Delete(id: Option<string>) returns (r: Result<()>)
      requires Valid()
      modifies this
      ensures Valid()
      ensures !IsNotBlank(id) ==> r == Err("Id is required") && store == old(store)
      ensures IsNotBlank(id) && id.value !in old(store) ==> r == Err("Meal not found") && store == old(store)
      ensures IsNotBlank(id) && id.value in old(store) ==> r == Ok(()) && store == old(store) - {id.value}
    {
      if !IsNotBlank(id) {
        return Err("Id is required");
      }
      if id.value !in store {
        return Err("Meal not found");
      }
      var found := store[id.value];
      store := store - {found.id};
      r := Ok(());
    }

    /** The private update: edits the loaded meal and saves it over the
        stored one. */
    method UpdateMeal(meal: Meal, request: MealUpdateRequest) returns (saved: Meal)
      requires Valid() && ValidateUpdate(request).Pass?
      requires meal.id in store && store[meal.id] == meal
      modifies this
      ensures Valid()
      ensures saved == Overwrite(meal, request)
      ensures store == old(store)[meal.id := saved]
    {
      saved := Overwrite(meal, request);
      store := store[saved.id := saved];
    }
  }
}
