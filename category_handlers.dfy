/** The guard chains of the category handlers
    (pkg/services/featureOne/controller/expenseCategory.go). Neither handler
    reads the user ID. The store's answers are parameters: `created` for
    CreateCategory and `list` for GetCategories. */
module CategoryHandlers {
  import opened Wrappers
  import opened Text
  import opened Http
  import opened ExpenseHandlers

  const NameRequired: string := "Name is required"
  const DuplicateKey: string := "duplicate key"
  const NameTaken: string := "Category name already exists"
  const CreateCategoryFailed: string := "Failed to create category"

  datatype CreateCategoryRequest = CreateCategoryRequest(name: string, description: Option<string>)

  /** A category as the store returns it and the handler maps it. */
  datatype CategoryRecord = CategoryRecord(id: int, name: string, description: Option<string>)

  datatype CategoryFilters = CategoryFilters(limit: int, offset: int)

  /** CreateCategory, for the bound body (None when binding fails) and the
      store's answer to the insert. */
  function CreateCategory(body: Option<CreateCategoryRequest>, created: Result<CategoryRecord, string>)
    : (r: Response<CategoryRecord>)
    ensures body.None? ==> r == BadRequest("Invalid request body")
    ensures body.Some? && TrimSpace(body.value.name) == "" ==> r == BadRequest(NameRequired)
    ensures r.status == StatusCreated <==> body.Some? && TrimSpace(body.value.name) != "" && created.Success?
    ensures r.status == StatusCreated ==> r.DataResponse? && r.data == Some(created.value)
    ensures r == BadRequest(NameTaken) <==>
              body.Some? && TrimSpace(body.value.name) != "" && created.Failure? && Contains(created.error, DuplicateKey)
    ensures r.status == StatusInternalServerError <==>
              body.Some? && TrimSpace(body.value.name) != "" && created.Failure? && !Contains(created.error, DuplicateKey)
  {
    if body.None? then BadRequest("Invalid request body")
    else if TrimSpace(body.value.name) == "" then BadRequest(NameRequired)
    else if created.Failure? then
      if Contains(created.error, DuplicateKey) then BadRequest(NameTaken)
      else ServerError(CreateCategoryFailed)
    else DataResponse(Suc201, "Category created successfully", Some(created.value), StatusCreated)
  }

  /** The name is checked before the insert: a blank name answers the same
      whatever the store would have done. */
  lemma CreateCategoryChecksFirst(body: Option<CreateCategoryRequest>,
                                  created1: Result<CategoryRecord, string>,
                                  created2: Result<CategoryRecord, string>)
    requires body.None? || TrimSpace(body.value.name) == ""
    ensures CreateCategory(body, created1) == CreateCategory(body, created2)
  {
  }

  /** A unique-constraint error, wherever the driver puts "duplicate key"
      in its text, is reported as the name being taken. */
  lemma DuplicateKeyIsTaken(req: CreateCategoryRequest, before: string, after: string)
    requires TrimSpace(req.name) != ""
    ensures CreateCategory(Some(req), Failure(before + DuplicateKey + after)) == BadRequest(NameTaken)
  {
    ContainsInfix(before, DuplicateKey, after);
  }

  /** Any other store error, one with "duplicate key" at no position of its
      text, is a server error. */
  lemma OtherStoreErrorFails(req: CreateCategoryRequest, error: string)
    requires TrimSpace(req.name) != ""
    requires forall i :: !OccursAt(error, DuplicateKey, i)
    ensures CreateCategory(Some(req), Failure(error)) == ServerError(CreateCategoryFailed)
  {
    ContainsIff(error, DuplicateKey);
  }

  /** The filters GetCategories builds: limit 50 and offset 0 unless given
      as integers. */
  function CategoryFiltersOf(q: Query): (f: CategoryFilters)
    ensures f.limit == QueryInt(q, "limit").GetOr(DefaultLimit)
    ensures f.offset == QueryInt(q, "offset").GetOr(0)
  {
    CategoryFilters(QueryIntDefault(q, "limit", DefaultLimit), QueryIntDefault(q, "offset", 0))
  }

  /** GetCategories, for the store's answer `list` to each filter. */
  function GetCategories<L>(q: Query, list: CategoryFilters -> Result<L, string>): (r: Response<L>)
    ensures r.status == StatusBadRequest <==> !(1 <= CategoryFiltersOf(q).limit <= MaxLimit)
    ensures r.status == StatusBadRequest ==> r == BadRequest(LimitRange)
    ensures r.status == StatusOK <==> 1 <= CategoryFiltersOf(q).limit <= MaxLimit && list(CategoryFiltersOf(q)).Success?
    ensures r.status == StatusOK ==> r.DataResponse? && r.data == Some(list(CategoryFiltersOf(q)).value)
    ensures r.status == StatusInternalServerError <==>
              1 <= CategoryFiltersOf(q).limit <= MaxLimit && list(CategoryFiltersOf(q)).Failure?
  {
    var filters := CategoryFiltersOf(q);
    if filters.limit < 1 || filters.limit > MaxLimit then BadRequest(LimitRange)
    else
      var result := list(filters);
      if result.Failure? then ServerError("Failed to retrieve categories")
      else DataResponse(Suc200, "Categories retrieved successfully", Some(result.value), StatusOK)
  }

  /** The limit is checked before the store is asked. */
  lemma GetCategoriesChecksFirst<L>(q: Query, list1: CategoryFilters -> Result<L, string>,
                                    list2: CategoryFilters -> Result<L, string>)
    requires !(1 <= CategoryFiltersOf(q).limit <= MaxLimit)
    ensures GetCategories(q, list1) == GetCategories(q, list2)
  {
  }

  /** Without a limit parameter the default 50 passes the range check. */
  lemma GetCategoriesDefaultLimit<L>(q: Query, list: CategoryFilters -> Result<L, string>)
    requires "limit" !in q
    ensures CategoryFiltersOf(q).limit == DefaultLimit
    ensures GetCategories(q, list).status != StatusBadRequest
  {
  }
}
