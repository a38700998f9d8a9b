/** `LLMsService` (kajix-api/src/llms/llms.service.ts): the catalogue of LLM
    companies and their models over the database's `companies` and `models`
    tables, with the database errors each operation maps to HTTP exceptions.

    Every operation takes `fault`: the error the database reports instead of
    carrying out the call (a lost connection, a driver error, ...). A `None`
    fault means the database behaves as its constraints say: a missing id is
    P2025, a duplicate company name P2002 and a dangling reference P2003. */
module Llms {
  import opened Common
  import opened Prisma

  datatype CreateCompanyDto = CreateCompanyDto(companyName: string, isActive: Option<bool>)

  /** `PartialType(CreateLLMDto)`: `None` leaves a field as it is. */
  datatype UpdateCompanyDto = UpdateCompanyDto(companyName: Option<string>, isActive: Option<bool>)

  /** The body of a model creation. `typeId` is not declared by the DTO but is
      passed on to the database with the rest of the body; `None` is a body
      without it. */
  datatype CreateModelDto = CreateModelDto(displayName: string, modelName: string, llmCompanyId: int, typeId: Option<int>)

  datatype UpdateModelDto = UpdateModelDto(
    displayName: Option<string>, modelName: Option<string>, llmCompanyId: Option<int>, typeId: Option<int>)

  /** A model as `defaultModelSelect` returns it: no `typeId`, and its
      company nested. */
  datatype ModelView = ModelView(
    id: int, displayName: string, modelName: string, llmCompanyId: int,
    createdAt: int, updatedAt: int, llmCompany: Company)

  function View(m: LlmModel, c: Company): (v: ModelView)
    requires c.id == m.llmCompanyId
    ensures v.id == m.id && v.llmCompanyId == m.llmCompanyId && v.llmCompany == c
    ensures v.displayName == m.displayName && v.modelName == m.modelName
  {
    ModelView(m.id, m.displayName, m.modelName, m.llmCompanyId, m.createdAt, m.updatedAt, c)
  }

  /** A model with every column and its company (`include: { llmCompany: true }`). */
  datatype ModelWithCompany = ModelWithCompany(model: LlmModel, llmCompany: Company)

  function CompanyNotFound(id: int): string {
    "LLM company with ID " + IntToString(id) + " not found"
  }

  function ModelNotFound(id: int): string {
    "LLM model with ID " + IntToString(id) + " not found"
  }

  const InvalidCompanyId := "Invalid LLM company ID"

  /** `createCompany`'s catch: P2002 is a Conflict, anything else an
      InternalServerError. */
  function CreateCompanyError(e: DbError): (x: Exception)
    ensures x.Conflict? <==> e == KnownRequest(UniqueConstraintViolation)
    ensures x.Conflict? ==> x.message == "LLM company already exists"
    ensures !x.Conflict? ==> x == InternalServerError("Failed to create LLM company")
  {
    if e == KnownRequest(UniqueConstraintViolation) then Conflict("LLM company already exists")
    else InternalServerError("Failed to create LLM company")
  }

  /** `updateCompany`'s catch: P2025 is NotFound, P2002 a Conflict, any other
      Prisma code an InternalServerError; an error that is not Prisma's is
      rethrown as it is. */
  function UpdateCompanyError(id: int, e: DbError): (x: Exception)
    ensures x.NotFound? <==> e == KnownRequest(RecordNotFound)
    ensures x.NotFound? ==> x.message == CompanyNotFound(id)
    ensures x.Conflict? <==> e == KnownRequest(UniqueConstraintViolation)
    ensures x.Conflict? ==> x.message == "Updated company name already exists"
    ensures x.Unhandled? <==> e.OtherDbError?
    ensures x.Unhandled? ==> x.cause == e
    ensures x.InternalServerError? <==>
      e.KnownRequest? && e.code != RecordNotFound && e.code != UniqueConstraintViolation
    ensures x.InternalServerError? ==> x.message == "Database operation failed"
  {
    match e
    case OtherDbError(_) => Unhandled(e)
    case KnownRequest(code) =>
      if code == RecordNotFound then NotFound(CompanyNotFound(id))
      else if code == UniqueConstraintViolation then Conflict("Updated company name already exists")
      else InternalServerError("Database operation failed")
  }

  /** `removeCompany`'s catch: P2025 is NotFound, anything else an
      InternalServerError. */
  function RemoveCompanyError(id: int, e: DbError): (x: Exception)
    ensures x.NotFound? <==> e == KnownRequest(RecordNotFound)
    ensures x.NotFound? ==> x.message == CompanyNotFound(id)
    ensures !x.NotFound? ==> x == InternalServerError("Failed to delete LLM company")
  {
    if e == KnownRequest(RecordNotFound) then NotFound(CompanyNotFound(id))
    else InternalServerError("Failed to delete LLM company")
  }

  /** `createModel`'s catch: P2003 is the same BadRequest as the pre-check,
      anything else an InternalServerError. */
  function CreateModelError(e: DbError): (x: Exception)
    ensures x.BadRequest? <==> e == KnownRequest(ForeignKeyConstraintViolation)
    ensures x.BadRequest? ==> x.message == InvalidCompanyId
    ensures !x.BadRequest? ==> x == InternalServerError("Failed to create LLM model")
  {
    if e == KnownRequest(ForeignKeyConstraintViolation) then BadRequest(InvalidCompanyId)
    else InternalServerError("Failed to create LLM model")
  }

  /** `updateModel`'s catch: P2025 is NotFound, P2003 a BadRequest, any other
      Prisma code an InternalServerError; an error that is not Prisma's is
      rethrown as it is. */
  function UpdateModelError(id: int, e: DbError): (x: Exception)
    ensures x.NotFound? <==> e == KnownRequest(RecordNotFound)
    ensures x.NotFound? ==> x.message == ModelNotFound(id)
    ensures x.BadRequest? <==> e == KnownRequest(ForeignKeyConstraintViolation)
    ensures x.BadRequest? ==> x.message == InvalidCompanyId
    ensures x.Unhandled? <==> e.OtherDbError?
    ensures x.Unhandled? ==> x.cause == e
    ensures x.InternalServerError? <==>
      e.KnownRequest? && e.code != RecordNotFound && e.code != ForeignKeyConstraintViolation
    ensures x.InternalServerError? ==> x.message == "Database operation failed"
  {
    match e
    case OtherDbError(_) => Unhandled(e)
    case KnownRequest(code) =>
      if code == RecordNotFound then NotFound(ModelNotFound(id))
      else if code == ForeignKeyConstraintViolation then BadRequest(InvalidCompanyId)
      else InternalServerError("Database operation failed")
  }

  /** `removeModel`'s catch: P2025 is NotFound, anything else an
      InternalServerError. */
  function RemoveModelError(id: int, e: DbError): (x: Exception)
    ensures x.NotFound? <==> e == KnownRequest(RecordNotFound)
    ensures x.NotFound? ==> x.message == ModelNotFound(id)
    ensures !x.NotFound? ==> x == InternalServerError("Failed to delete LLM model")
  {
    if e == KnownRequest(RecordNotFound) then NotFound(ModelNotFound(id))
    else InternalServerError("Failed to delete LLM model")
  }

  /** Whether some company is called `name`. */
  predicate NameUsed(companies: map<int, Company>, name: string) {
    exists k | k in companies :: companies[k].companyName == name
  }

  /** Whether a company other than `id` is called `name`. */
  predicate NameTaken(companies: map<int, Company>, id: int, name: string) {
    exists k | k in companies :: k != id && companies[k].companyName == name
  }

  /** Whether some model belongs to the company. */
  predicate HasModels(models: map<int, LlmModel>, companyId: int) {
    exists k | k in models :: models[k].llmCompanyId == companyId
  }

  function UpdatedCompany(c: Company, dto: UpdateCompanyDto, now: int): (d: Company)
    ensures d.id == c.id && d.createdAt == c.createdAt && d.updatedAt == now
    ensures d.companyName == (if dto.companyName.Some? then dto.companyName.value else c.companyName)
    ensures d.isActive == (if dto.isActive.Some? then dto.isActive.value else c.isActive)
  {
    c.(companyName := if dto.companyName.Some? then dto.companyName.value else c.companyName,
       isActive := if dto.isActive.Some? then dto.isActive.value else c.isActive,
       updatedAt := now)
  }

  function UpdatedModel(m: LlmModel, dto: UpdateModelDto, now: int): (n: LlmModel)
    ensures n.id == m.id && n.createdAt == m.createdAt && n.updatedAt == now
    ensures n.llmCompanyId == (if dto.llmCompanyId.Some? then dto.llmCompanyId.value else m.llmCompanyId)
    ensures n.typeId == (if dto.typeId.Some? then dto.typeId.value else m.typeId)
    ensures n.displayName == (if dto.displayName.Some? then dto.displayName.value else m.displayName)
    ensures n.modelName == (if dto.modelName.Some? then dto.modelName.value else m.modelName)
  {
    m.(displayName := if dto.displayName.Some? then dto.displayName.value else m.displayName,
       modelName := if dto.modelName.Some? then dto.modelName.value else m.modelName,
       llmCompanyId := if dto.llmCompanyId.Some? then dto.llmCompanyId.value else m.llmCompanyId,
       typeId := if dto.typeId.Some? then dto.typeId.value else m.typeId,
       updatedAt := now)
  }

  /** The company table stays valid when a company's name changes to one no
      other company has. */
  lemma {:induction false} CompanyUpdateValid(companies: map<int, Company>, nextId: int, id: int, c: Company)
    requires CompaniesValid(companies, nextId)
    requires id in companies && c.id == id
    requires !NameTaken(companies, id, c.companyName)
    ensures CompaniesValid(companies[id := c], nextId)
  {
    var updated := companies[id := c];
    forall a, b | a in updated && b in updated && a != b
      ensures updated[a].companyName != updated[b].companyName
    {
      if a == id {
        assert companies[b].companyName != c.companyName;
      } else if b == id {
        assert companies[a].companyName != c.companyName;
      }
    }
  }

  /** A company with a fresh id and an unused name keeps the table valid. */
  lemma {:induction false} CompanyInsertValid(companies: map<int, Company>, nextId: int, c: Company)
    requires CompaniesValid(companies, nextId)
    requires c.id == nextId && !NameUsed(companies, c.companyName)
    ensures CompaniesValid(companies[nextId := c], nextId + 1)
  {
    var inserted := companies[nextId := c];
    forall a, b | a in inserted && b in inserted && a != b
      ensures inserted[a].companyName != inserted[b].companyName
    {
      if a == nextId {
        assert companies[b].companyName != c.companyName;
      } else if b == nextId {
        assert companies[a].companyName != c.companyName;
      }
    }
  }

  /** Models stay valid when a company they reference is replaced by a row
      with the same id, and when an unreferenced company is deleted. */
  lemma {:induction false} ModelsKeepCompanies(
    models: map<int, LlmModel>, nextId: int, companies: map<int, Company>, companies': map<int, Company>,
    types: map<int, StdType>)
    requires ModelsValid(models, nextId, companies, types)
    requires forall k | k in models :: models[k].llmCompanyId in companies'
    ensures ModelsValid(models, nextId, companies', types)
  {
  }

  class LlmsService {
    const db: Database

    constructor (db: Database)
      ensures this.db == db
    {
      this.db := db;
    }

    /** `createCompany`: a new company. An absent `isActive` is stored as
        `true`, taken to be the column default of the database schema. */
    method CreateCompany(dto: CreateCompanyDto, now: int, fault: Option<DbError>) returns (r: Result<Company>)
      requires db.Valid()
      modifies db`companies, db`nextCompanyId
      ensures db.Valid()
      ensures fault.Some? ==> r == Err(CreateCompanyError(fault.value))
      ensures fault.None? && NameUsed(old(db.companies), dto.companyName) ==>
        r == Err(Conflict("LLM company already exists"))
      ensures r.Err? ==> db.companies == old(db.companies)
      ensures r.Ok? <==> fault.None? && !NameUsed(old(db.companies), dto.companyName)
      ensures r.Ok? ==>
        && r.value == Company(old(db.nextCompanyId), dto.companyName,
                              if dto.isActive.Some? then dto.isActive.value else true, now, now)
        && r.value.id !in old(db.companies)
        && db.companies == old(db.companies)[r.value.id := r.value]
    {
      if fault.Some? {
        return Err(CreateCompanyError(fault.value));
      }
      if NameUsed(db.companies, dto.companyName) {
        return Err(CreateCompanyError(KnownRequest(UniqueConstraintViolation)));
      }
      var c := Company(db.nextCompanyId, dto.companyName, if dto.isActive.Some? then dto.isActive.value else true, now, now);
      CompanyInsertValid(db.companies, db.nextCompanyId, c);
      ModelsKeepCompanies(db.models, db.nextModelId, db.companies, db.companies[c.id := c], db.stdTypes);
      db.companies := db.companies[c.id := c];
      db.nextCompanyId := db.nextCompanyId + 1;
      r := Ok(c);
    }

    /** `findAllCompanies`. */
    method FindAllCompanies(fault: Option<DbError>) returns (r: Result<set<Company>>)
      ensures fault.Some? <==> r.Err?
      ensures r.Err? ==> r.error == InternalServerError("Failed to fetch LLM companies")
      ensures r.Ok? ==> r.value == db.companies.Values
    {
      if fault.Some? {
        return Err(InternalServerError("Failed to fetch LLM companies"));
      }
      r := Ok(db.companies.Values);
    }

    /** `findOneCompany`: NotFound for a missing id, InternalServerError for
        any other failure. */
    method FindOneCompany(id: int, fault: Option<DbError>) returns (r: Result<Company>)
      requires db.Valid()
      ensures fault.Some? ==> r == Err(InternalServerError("Failed to fetch LLM company"))
      ensures fault.None? && id !in db.companies ==> r == Err(NotFound(CompanyNotFound(id)))
      ensures fault.None? && id in db.companies ==> r == Ok(db.companies[id])
      ensures r.Ok? ==> r.value.id == id
    {
      if fault.Some? {
        return Err(InternalServerError("Failed to fetch LLM company"));
      }
      if id !in db.companies {
        return Err(NotFound(CompanyNotFound(id)));
      }
      r := Ok(db.companies[id]);
    }

    /** `findCompanyByName`: the company with that name (there is at most
        one), NotFound when there is none. */
    method FindCompanyByName(companyName: string, fault: Option<DbError>) returns (r: Result<Company>)
      requires db.Valid()
      ensures fault.Some? ==> r == Err(InternalServerError("Failed to fetch LLM company by name"))
      ensures fault.None? && !NameUsed(db.companies, companyName) ==>
        r == Err(NotFound("LLM company with name " + companyName + " not found"))
      ensures r.Ok? ==>
        && r.value.id in db.companies && db.companies[r.value.id] == r.value && r.value.companyName == companyName
        && forall k | k in db.companies && db.companies[k].companyName == companyName :: k == r.value.id
      ensures r.Ok? <==> fault.None? && NameUsed(db.companies, companyName)
    {
      if fault.Some? {
        return Err(InternalServerError("Failed to fetch LLM company by name"));
      }
      if !NameUsed(db.companies, companyName) {
        return Err(NotFound("LLM company with name " + companyName + " not found"));
      }
      var k :| k in db.companies && db.companies[k].companyName == companyName;
      r := Ok(db.companies[k]);
    }

    /** `updateCompany`: change the requested fields of one company. */
    method UpdateCompany(id: int, dto: UpdateCompanyDto, now: int, fault: Option<DbError>) returns (r: Result<Company>)
      requires db.Valid()
      modifies db`companies
      ensures db.Valid()
      ensures fault.Some? ==> r == Err(UpdateCompanyError(id, fault.value))
      ensures fault.None? && id !in old(db.companies) ==> r == Err(NotFound(CompanyNotFound(id)))
      ensures fault.None? && id in old(db.companies) ==>
        var c := UpdatedCompany(old(db.companies)[id], dto, now);
        && (NameTaken(old(db.companies), id, c.companyName) ==>
              r == Err(Conflict("Updated company name already exists")))
        && (!NameTaken(old(db.companies), id, c.companyName) ==>
              r == Ok(c) && db.companies == old(db.companies)[id := c])
      ensures r.Err? ==> db.companies == old(db.companies)
    {
      if fault.Some? {
        return Err(UpdateCompanyError(id, fault.value));
      }
      if id !in db.companies {
        return Err(UpdateCompanyError(id, KnownRequest(RecordNotFound)));
      }
      var c := UpdatedCompany(db.companies[id], dto, now);
      if NameTaken(db.companies, id, c.companyName) {
        return Err(UpdateCompanyError(id, KnownRequest(UniqueConstraintViolation)));
      }
      CompanyUpdateValid(db.companies, db.nextCompanyId, id, c);
      ModelsKeepCompanies(db.models, db.nextModelId, db.companies, db.companies[id := c], db.stdTypes);
      db.companies := db.companies[id := c];
      r := Ok(c);
    }

    /** `removeCompany`: delete one company. A company that still has models
        cannot be deleted (P2003), which is an InternalServerError. */
    method RemoveCompany(id: int, fault: Option<DbError>) returns (r: Result<Company>)
      requires db.Valid()
      modifies db`companies
      ensures db.Valid()
      ensures fault.Some? ==> r == Err(RemoveCompanyError(id, fault.value))
      ensures fault.None? && id !in old(db.companies) ==> r == Err(NotFound(CompanyNotFound(id)))
      ensures fault.None? && id in old(db.companies) && HasModels(db.models, id) ==>
        r == Err(InternalServerError("Failed to delete LLM company"))
      ensures fault.None? && id in old(db.companies) && !HasModels(db.models, id) ==>
        r == Ok(old(db.companies)[id]) && db.companies == old(db.companies) - {id}
      ensures r.Err? ==> db.companies == old(db.companies)
    {
      if fault.Some? {
        return Err(RemoveCompanyError(id, fault.value));
      }
      if id !in db.companies {
        return Err(RemoveCompanyError(id, KnownRequest(RecordNotFound)));
      }
      if HasModels(db.models, id) {
        return Err(RemoveCompanyError(id, KnownRequest(ForeignKeyConstraintViolation)));
      }
      var c := db.companies[id];
      ModelsKeepCompanies(db.models, db.nextModelId, db.companies, db.companies - {id}, db.stdTypes);
      db.companies := db.companies - {id};
      r := Ok(c);
    }

    /** `createModel`: the company is looked up first and a missing one is
        BadRequest('Invalid LLM company ID'); a body without `typeId` fails
        validation (InternalServerError) and an unknown type is P2003, which
        is reported as the same BadRequest. */
    method CreateModel(dto: CreateModelDto, now: int, fault: Option<DbError>) returns (r: Result<ModelView>)
      requires db.Valid()
      modifies db`models, db`nextModelId
      ensures db.Valid()
      ensures fault.Some? ==> r == Err(CreateModelError(fault.value))
      ensures fault.None? && dto.llmCompanyId !in db.companies ==> r == Err(BadRequest(InvalidCompanyId))
      ensures fault.None? && dto.llmCompanyId in db.companies && dto.typeId.None? ==>
        r == Err(InternalServerError("Failed to create LLM model"))
      ensures fault.None? && dto.llmCompanyId in db.companies && dto.typeId.Some? && dto.typeId.value !in db.stdTypes ==>
        r == Err(BadRequest(InvalidCompanyId))
      ensures r.Err? ==> db.models == old(db.models)
      ensures r.Ok? <==>
        fault.None? && dto.llmCompanyId in db.companies && dto.typeId.Some? && dto.typeId.value in db.stdTypes
      ensures r.Ok? ==>
        var m := LlmModel(old(db.nextModelId), dto.displayName, dto.modelName, dto.llmCompanyId, dto.typeId.value, now, now);
        && m.id !in old(db.models)
        && db.models == old(db.models)[m.id := m]
        && r.value == View(m, db.companies[dto.llmCompanyId])
    {
      if fault.Some? {
        return Err(CreateModelError(fault.value));
      }
      if dto.llmCompanyId !in db.companies {
        return Err(BadRequest(InvalidCompanyId));
      }
      if dto.typeId.None? {
        return Err(CreateModelError(OtherDbError("Argument `type` is missing.")));
      }
      if dto.typeId.value !in db.stdTypes {
        return Err(CreateModelError(KnownRequest(ForeignKeyConstraintViolation)));
      }
      var m := LlmModel(db.nextModelId, dto.displayName, dto.modelName, dto.llmCompanyId, dto.typeId.value, now, now);
      db.models := db.models[m.id := m];
      db.nextModelId := db.nextModelId + 1;
      r := Ok(View(m, db.companies[m.llmCompanyId]));
    }

    /** `findAllModels`. */
    method FindAllModels(fault: Option<DbError>) returns (r: Result<set<ModelView>>)
      requires db.Valid()
      ensures fault.Some? <==> r.Err?
      ensures r.Err? ==> r.error == InternalServerError("Failed to fetch LLM models")
      ensures r.Ok? ==> forall v | v in r.value :: v.id in db.models && v == View(db.models[v.id], db.companies[db.models[v.id].llmCompanyId])
      ensures r.Ok? ==> forall k | k in db.models :: View(db.models[k], db.companies[db.models[k].llmCompanyId]) in r.value
    {
      if fault.Some? {
        return Err(InternalServerError("Failed to fetch LLM models"));
      }
      r := Ok(set k | k in db.models :: View(db.models[k], db.companies[db.models[k].llmCompanyId]));
    }

    /** `findOneModel`. */
    method FindOneModel(id: int, fault: Option<DbError>) returns (r: Result<ModelView>)
      requires db.Valid()
      ensures fault.Some? ==> r == Err(InternalServerError("Failed to fetch LLM model"))
      ensures fault.None? && id !in db.models ==> r == Err(NotFound(ModelNotFound(id)))
      ensures fault.None? && id in db.models ==>
        r == Ok(View(db.models[id], db.companies[db.models[id].llmCompanyId]))
    {
      if fault.Some? {
        return Err(InternalServerError("Failed to fetch LLM model"));
      }
      if id !in db.models {
        return Err(NotFound(ModelNotFound(id)));
      }
      var m := db.models[id];
      r := Ok(View(m, db.companies[m.llmCompanyId]));
    }

    /** `updateModel`: a truthy `llmCompanyId` is checked before the update
        and a missing company is BadRequest('Invalid LLM company ID'); a
        falsy one (0) is left to the database, whose P2003 becomes the same
        BadRequest. */
    method UpdateModel(id: int, dto: UpdateModelDto, now: int, fault: Option<DbError>) returns (r: Result<ModelView>)
      requires db.Valid()
      modifies db`models
      ensures db.Valid()
      ensures fault.Some? ==> r == Err(UpdateModelError(id, fault.value))
      ensures fault.None? && dto.llmCompanyId.Some? && dto.llmCompanyId.value != 0 &&
              dto.llmCompanyId.value !in db.companies ==>
        r == Err(BadRequest(InvalidCompanyId))
      ensures fault.None? && !(dto.llmCompanyId.Some? && dto.llmCompanyId.value != 0 && dto.llmCompanyId.value !in db.companies) ==>
        && (id !in old(db.models) ==> r == Err(NotFound(ModelNotFound(id))))
        && (id in old(db.models) ==>
              var m := UpdatedModel(old(db.models)[id], dto, now);
              && (m.llmCompanyId !in db.companies || m.typeId !in db.stdTypes ==> r == Err(BadRequest(InvalidCompanyId)))
              && (m.llmCompanyId in db.companies && m.typeId in db.stdTypes ==>
                    db.models == old(db.models)[id := m] && r == Ok(View(m, db.companies[m.llmCompanyId]))))
      ensures r.Err? ==> db.models == old(db.models)
    {
      if fault.Some? {
        return Err(UpdateModelError(id, fault.value));
      }
      if dto.llmCompanyId.Some? && dto.llmCompanyId.value != 0 && dto.llmCompanyId.value !in db.companies {
        return Err(BadRequest(InvalidCompanyId));
      }
      if id !in db.models {
        return Err(UpdateModelError(id, KnownRequest(RecordNotFound)));
      }
      var m := UpdatedModel(db.models[id], dto, now);
      if m.llmCompanyId !in db.companies || m.typeId !in db.stdTypes {
        return Err(UpdateModelError(id, KnownRequest(ForeignKeyConstraintViolation)));
      }
      db.models := db.models[id := m];
      r := Ok(View(m, db.companies[m.llmCompanyId]));
    }

    /** `removeModel`. */
    method RemoveModel(id: int, fault: Option<DbError>) returns (r: Result<ModelView>)
      requires db.Valid()
      modifies db`models
      ensures db.Valid()
      ensures fault.Some? ==> r == Err(RemoveModelError(id, fault.value))
      ensures fault.None? && id !in old(db.models) ==> r == Err(NotFound(ModelNotFound(id)))
      ensures fault.None? && id in old(db.models) ==>
        && r == Ok(View(old(db.models)[id], db.companies[old(db.models)[id].llmCompanyId]))
        && db.models == old(db.models) - {id}
      ensures r.Err? ==> db.models == old(db.models)
    {
      if fault.Some? {
        return Err(RemoveModelError(id, fault.value));
      }
      if id !in db.models {
        return Err(RemoveModelError(id, KnownRequest(RecordNotFound)));
      }
      var m := db.models[id];
      db.models := db.models - {id};
      r := Ok(View(m, db.companies[m.llmCompanyId]));
    }

    /** `findOne`: a model with all its columns and its company. */
    method FindOne(id: int, fault: Option<DbError>) returns (r: Result<ModelWithCompany>)
      requires db.Valid()
      ensures fault.Some? ==> r == Err(InternalServerError("Failed to fetch LLM Model"))
      ensures fault.None? && id !in db.models ==> r == Err(NotFound("LLM Model with ID " + IntToString(id) + " not found"))
      ensures fault.None? && id in db.models ==>
        r == Ok(ModelWithCompany(db.models[id], db.companies[db.models[id].llmCompanyId]))
    {
      if fault.Some? {
        return Err(InternalServerError("Failed to fetch LLM Model"));
      }
      if id !in db.models {
        return Err(NotFound("LLM Model with ID " + IntToString(id) + " not found"));
      }
      r := Ok(ModelWithCompany(db.models[id], db.companies[db.models[id].llmCompanyId]));
    }

    /** `remove`: look the model up with `findOne`, then delete it. A
        NotFound from the lookup is passed on and nothing is deleted; any
        other failure of either step is InternalServerError. */
    method Remove(id: int, lookupFault: Option<DbError>, deleteFault: Option<DbError>) returns (r: Result<()>)
      requires db.Valid()
      modifies db`models
      ensures db.Valid()
      ensures lookupFault.Some? ==> r == Err(InternalServerError("Failed to delete LLM Model"))
      ensures lookupFault.None? && id !in old(db.models) ==>
        r == Err(NotFound("LLM Model with ID " + IntToString(id) + " not found"))
      ensures lookupFault.None? && id in old(db.models) && deleteFault.Some? ==>
        r == Err(InternalServerError("Failed to delete LLM Model"))
      ensures r.Ok? <==> lookupFault.None? && deleteFault.None? && id in old(db.models)
      ensures r.Ok? ==> db.models == old(db.models) - {id}
      ensures r.Err? ==> db.models == old(db.models)
    {
      var found := FindOne(id, lookupFault);
      if found.Err? {
        if found.error.NotFound? {
          return Err(found.error);
        }
        return Err(InternalServerError("Failed to delete LLM Model"));
      }
      if deleteFault.Some? {
        return Err(InternalServerError("Failed to delete LLM Model"));
      }
      db.models := db.models - {id};
      r := Ok(());
    }
  }
}
