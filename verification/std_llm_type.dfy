/** `StdLlmTypeService` (kajix-api/src/std-llm-type/std-llm-type.service.ts):
    the standard LLM types (chat, embedding, ...) over the database's
    `stdTypes` table, and the models of a type.

    As in the LLM catalogue, `fault` is the error the database reports instead
    of carrying out a call. `create`, `findAll`, `findOne` and the queries do
    not catch, so their faults reach the caller as they are; `update` and
    `remove` turn every failure into NotFound. */
module StdLlmTypes {
  import opened Common
  import opened Prisma
  import opened Llms

  /** `CreateStdLlmTypeDto`; its `type` column is `typeName` here. */
  datatype CreateTypeDto = CreateTypeDto(typeName: string, isActive: Option<bool>)

  /** `UpdateStdLlmTypeDto`: `None` leaves a field as it is. */
  datatype UpdateTypeDto = UpdateTypeDto(typeName: Option<string>, isActive: Option<bool>)

  function TypeNotFound(id: int): string {
    "LLM Type with ID " + IntToString(id) + " not found"
  }

  function UpdatedType(t: StdType, dto: UpdateTypeDto, now: int): (u: StdType)
    ensures u.id == t.id && u.createdAt == t.createdAt && u.updatedAt == now
    ensures u.typeName == (if dto.typeName.Some? then dto.typeName.value else t.typeName)
    ensures u.isActive == (if dto.isActive.Some? then dto.isActive.value else t.isActive)
  {
    t.(typeName := if dto.typeName.Some? then dto.typeName.value else t.typeName,
       isActive := if dto.isActive.Some? then dto.isActive.value else t.isActive,
       updatedAt := now)
  }

  /** Whether some model is of the type. */
  predicate TypeInUse(models: map<int, LlmModel>, typeId: int) {
    exists k | k in models :: models[k].typeId == typeId
  }

  /** Models stay valid when the type table changes but keeps every type a
      model refers to. */
  lemma ModelsKeepTypes(
    models: map<int, LlmModel>, nextId: int, companies: map<int, Company>, types: map<int, StdType>,
    types': map<int, StdType>)
    requires ModelsValid(models, nextId, companies, types)
    requires forall k | k in models :: models[k].typeId in types'
    ensures ModelsValid(models, nextId, companies, types')
  {
  }

  /** Removing a type no model uses keeps every model's type. */
  lemma {:induction false} UnusedTypeRemovable(models: map<int, LlmModel>, types: map<int, StdType>, id: int)
    requires forall k | k in models :: models[k].typeId in types
    requires !TypeInUse(models, id)
    ensures forall k | k in models :: models[k].typeId in types - {id}
  {
    forall k | k in models
      ensures models[k].typeId in types - {id}
    {
      assert models[k].typeId != id;
    }
  }

  class StdLlmTypeService {
    const db: Database

    constructor (db: Database)
      ensures this.db == db
    {
      this.db := db;
    }

    /** `create`: a new type, active unless the body says otherwise. */
    method Create(dto: CreateTypeDto, now: int, fault: Option<DbError>) returns (r: Result<StdType>)
      requires db.Valid()
      modifies db`stdTypes, db`nextTypeId
      ensures db.Valid()
      ensures fault.Some? ==> r == Err(Unhandled(fault.value)) && db.stdTypes == old(db.stdTypes)
      ensures fault.None? ==>
        && r.Ok?
        && r.value == StdType(old(db.nextTypeId), dto.typeName,
                              if dto.isActive.Some? then dto.isActive.value else true, now, now)
        && r.value.id !in old(db.stdTypes)
        && db.stdTypes == old(db.stdTypes)[r.value.id := r.value]
    {
      if fault.Some? {
        return Err(Unhandled(fault.value));
      }
      var t := StdType(db.nextTypeId, dto.typeName, if dto.isActive.Some? then dto.isActive.value else true, now, now);
      ModelsKeepTypes(db.models, db.nextModelId, db.companies, db.stdTypes, db.stdTypes[t.id := t]);
      db.stdTypes := db.stdTypes[t.id := t];
      db.nextTypeId := db.nextTypeId + 1;
      r := Ok(t);
    }

    /** `findAll`. */
    method FindAll(fault: Option<DbError>) returns (r: Result<set<StdType>>)
      ensures fault.Some? ==> r == Err(Unhandled(fault.value))
      ensures fault.None? ==> r == Ok(db.stdTypes.Values)
    {
      if fault.Some? {
        return Err(Unhandled(fault.value));
      }
      r := Ok(db.stdTypes.Values);
    }

    /** `findOne`: the type with that id, NotFound when there is none. */
    method FindOne(id: int, fault: Option<DbError>) returns (r: Result<StdType>)
      requires db.Valid()
      ensures fault.Some? ==> r == Err(Unhandled(fault.value))
      ensures fault.None? && id !in db.stdTypes ==> r == Err(NotFound(TypeNotFound(id)))
      ensures fault.None? && id in db.stdTypes ==> r == Ok(db.stdTypes[id])
      ensures r.Ok? ==> r.value.id == id
    {
      if fault.Some? {
        return Err(Unhandled(fault.value));
      }
      if id !in db.stdTypes {
        return Err(NotFound(TypeNotFound(id)));
      }
      r := Ok(db.stdTypes[id]);
    }

    /** `update`: change the requested fields of one type and no other; any
        failure, a missing id included, is NotFound. */
    method Update(id: int, dto: UpdateTypeDto, now: int, fault: Option<DbError>) returns (r: Result<StdType>)
      requires db.Valid()
      modifies db`stdTypes
      ensures db.Valid()
      ensures r.Err? <==> fault.Some? || id !in old(db.stdTypes)
      ensures r.Err? ==> r.error == NotFound(TypeNotFound(id)) && db.stdTypes == old(db.stdTypes)
      ensures r.Ok? ==>
        && r.value == UpdatedType(old(db.stdTypes)[id], dto, now)
        && db.stdTypes.Keys == old(db.stdTypes).Keys
        && db.stdTypes[id] == r.value
        && forall k | k in db.stdTypes && k != id :: db.stdTypes[k] == old(db.stdTypes)[k]
    {
      if fault.Some? || id !in db.stdTypes {
        return Err(NotFound(TypeNotFound(id)));
      }
      var t := UpdatedType(db.stdTypes[id], dto, now);
      ModelsKeepTypes(db.models, db.nextModelId, db.companies, db.stdTypes, db.stdTypes[id := t]);
      db.stdTypes := db.stdTypes[id := t];
      r := Ok(t);
    }

    /** `remove`: delete one type and no other. Any failure is NotFound: a
        missing id, and also a type that models still use (P2003), which
        exists but cannot be deleted. */
    method Remove(id: int, fault: Option<DbError>) returns (r: Result<StdType>)
      requires db.Valid()
      modifies db`stdTypes
      ensures db.Valid()
      ensures r.Err? <==> fault.Some? || id !in old(db.stdTypes) || TypeInUse(db.models, id)
      ensures r.Err? ==> r.error == NotFound(TypeNotFound(id)) && db.stdTypes == old(db.stdTypes)
      ensures r.Ok? ==> r.value == old(db.stdTypes)[id] && db.stdTypes == old(db.stdTypes) - {id}
    {
      if fault.Some? || id !in db.stdTypes || TypeInUse(db.models, id) {
        return Err(NotFound(TypeNotFound(id)));
      }
      var t := db.stdTypes[id];
      UnusedTypeRemovable(db.models, db.stdTypes, id);
      ModelsKeepTypes(db.models, db.nextModelId, db.companies, db.stdTypes, db.stdTypes - {id});
      db.stdTypes := db.stdTypes - {id};
      r := Ok(t);
    }

    /** `findActiveTypes`: exactly the active types. */
    method FindActiveTypes(fault: Option<DbError>) returns (r: Result<set<StdType>>)
      ensures fault.Some? ==> r == Err(Unhandled(fault.value))
      ensures fault.None? ==> r.Ok?
      ensures r.Ok? ==> forall t :: t in r.value <==> t in db.stdTypes.Values && t.isActive
    {
      if fault.Some? {
        return Err(Unhandled(fault.value));
      }
      r := Ok(set t | t in db.stdTypes.Values && t.isActive);
    }

    /** `findModelsWithType`: NotFound for an unknown type, checked before
        the models are queried; otherwise exactly the models of that type,
        each with its company. */
    method FindModelsWithType(typeId: int, lookupFault: Option<DbError>, queryFault: Option<DbError>)
      returns (r: Result<set<ModelWithCompany>>)
      requires db.Valid()
      ensures lookupFault.Some? ==> r == Err(Unhandled(lookupFault.value))
      ensures lookupFault.None? && typeId !in db.stdTypes ==> r == Err(NotFound(TypeNotFound(typeId)))
      ensures lookupFault.None? && typeId in db.stdTypes && queryFault.Some? ==> r == Err(Unhandled(queryFault.value))
      ensures r.Ok? <==> lookupFault.None? && queryFault.None? && typeId in db.stdTypes
      ensures r.Ok? ==> forall mc :: mc in r.value <==>
        && mc.model in db.models.Values && mc.model.typeId == typeId
        && mc.model.llmCompanyId in db.companies && mc.llmCompany == db.companies[mc.model.llmCompanyId]
      ensures r.Ok? ==> forall k | k in db.models && db.models[k].typeId == typeId ::
        ModelWithCompany(db.models[k], db.companies[db.models[k].llmCompanyId]) in r.value
    {
      var found := FindOne(typeId, lookupFault);
      if found.Err? {
        return Err(found.error);
      }
      if queryFault.Some? {
        return Err(Unhandled(queryFault.value));
      }
      var rows := set m | m in db.models.Values && m.typeId == typeId && m.llmCompanyId in db.companies ::
        ModelWithCompany(m, db.companies[m.llmCompanyId]);
      r := Ok(rows);
    }
  }
}
