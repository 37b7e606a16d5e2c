/** The guard chains of the expense handlers
    (pkg/services/featureOne/controller/expenses.go) and their query-string
    helpers. Each handler is a function of the request and of the store's
    answers (`found` for ExpenseExists, `updated` for UpdateExpense, `list`
    for GetExpenses); the lemmas say which answers a handler cannot depend
    on, which is how the model states that a check runs before a store call. */
module ExpenseHandlers {
  import opened Wrappers
  import opened Text
  import opened Numbers
  import opened ExpenseModel
  import opened ExpenseValidation
  import opened Http

  const DefaultLimit: int := 50
  const MaxLimit: int := 100
  const LimitRange: string := "Limit must be between 1 and 100"
  const InvalidExpenseID: string := "Invalid expense ID"
  const NoField: string := "At least one field to update is required"
  const AmountNotPositiveMessage: string := "Amount must be greater than 0"
  const BadDate: string := "Invalid date format (expected YYYY-MM-DD)"

  // ---------------------------------------------------------------------
  // Query-string helpers
  // ---------------------------------------------------------------------

  /** A request's query parameters. */
  type Query = map<string, string>

  /** c.Query: the parameter's value, "" when it is absent. */
  function QueryValue(q: Query, key: string): string {
    if key in q then q[key] else ""
  }

  /** getQueryString: nil for an empty value. */
  function QueryString(q: Query, key: string): (r: Option<string>)
    ensures r.None? <==> QueryValue(q, key) == ""
    ensures r.Some? ==> r.value == QueryValue(q, key)
  {
    var val := QueryValue(q, key);
    if val == "" then None else Some(val)
  }

  /** getQueryInt: nil for an empty or unparsable value. Its empty-value
      test is subsumed by strconv.Atoi, which rejects "". */
  function QueryInt(q: Query, key: string): (r: Option<int>)
    ensures r == Atoi(QueryValue(q, key))
    ensures r.Some? ==> QueryValue(q, key) != "" && InInt64(r.value)
  {
    var val := QueryValue(q, key);
    if val == "" then None else Atoi(val)
  }

  /** getQueryFloat, with strconv.ParseFloat as the parser `parseFloat`. */
  function QueryFloat(q: Query, key: string, parseFloat: string -> Option<real>): (r: Option<real>)
    ensures QueryValue(q, key) == "" ==> r.None?
    ensures QueryValue(q, key) != "" ==> r == parseFloat(QueryValue(q, key))
  {
    var val := QueryValue(q, key);
    if val == "" then None else parseFloat(val)
  }

  /** getQueryIntDefault: the default for an empty or unparsable value. */
  function QueryIntDefault(q: Query, key: string, defaultVal: int): (r: int)
    ensures r == QueryInt(q, key).GetOr(defaultVal)
    ensures Atoi(QueryValue(q, key)).None? ==> r == defaultVal
  {
    var val := QueryValue(q, key);
    if val == "" then defaultVal
    else
      var num := Atoi(val);
      if num.None? then defaultVal else num.value
  }

  /** A parameter written as the decimal form of an int64 reads back as
      that number, whatever the default. */
  lemma QueryIntDefaultItoa(q: Query, key: string, n: int, defaultVal: int)
    requires InInt64(n) && QueryValue(q, key) == Itoa(n)
    ensures QueryInt(q, key) == Some(n)
    ensures QueryIntDefault(q, key, defaultVal) == n
  {
    AtoiItoa(n);
  }

  // ---------------------------------------------------------------------
  // GetExpenses
  // ---------------------------------------------------------------------

  /** The filters GetExpenses builds from the query: limit 50 and offset 0
      unless given as integers. */
  function Filters(q: Query, parseFloat: string -> Option<real>): (f: ExpenseFilters)
    ensures Atoi(QueryValue(q, "limit")).None? ==> f.limit == DefaultLimit
    ensures Atoi(QueryValue(q, "limit")).Some? ==> f.limit == Atoi(QueryValue(q, "limit")).value
    ensures Atoi(QueryValue(q, "offset")).None? ==> f.offset == 0
    ensures Atoi(QueryValue(q, "offset")).Some? ==> f.offset == Atoi(QueryValue(q, "offset")).value
    ensures f.categoryID == Atoi(QueryValue(q, "categoryId"))
  {
    ExpenseFilters(
      QueryString(q, "title"),
      QueryFloat(q, "minAmount", parseFloat),
      QueryFloat(q, "maxAmount", parseFloat),
      QueryInt(q, "categoryId"),
      QueryString(q, "startDate"),
      QueryString(q, "endDate"),
      QueryIntDefault(q, "limit", DefaultLimit),
      QueryIntDefault(q, "offset", 0))
  }

  /** GetExpenses, for the store's answer `list` to each filter. */
  function GetExpenses<L>(userID: int, q: Query, parseFloat: string -> Option<real>,
                          list: ExpenseFilters -> Result<L, string>): (r: Response<L>)
    ensures userID == 0 ==> r == NoUser.Answer()
    ensures r.status == StatusBadRequest <==> userID != 0 && !(1 <= Filters(q, parseFloat).limit <= MaxLimit)
    ensures r.status == StatusOK <==>
              userID != 0 && 1 <= Filters(q, parseFloat).limit <= MaxLimit && list(Filters(q, parseFloat)).Success?
    ensures r.status == StatusOK ==> r.DataResponse? && r.data == Some(list(Filters(q, parseFloat)).value)
  {
    if userID == 0 then NoUser.Answer()
    else
      var filters := Filters(q, parseFloat);
      if filters.limit < 1 || filters.limit > MaxLimit then BadInput(LimitRange).Answer()
      else
        var result := list(filters);
        if result.Failure? then ServerError("Failed to retrieve expenses")
        else DataResponse(Suc200, "Expenses retrieved successfully", Some(result.value), StatusOK)
  }

  /** The user and the limit are checked before the store is asked: a
      request that fails either answers the same whatever the store holds. */
  lemma GetExpensesChecksFirst<L>(userID: int, q: Query, parseFloat: string -> Option<real>,
                                  list1: ExpenseFilters -> Result<L, string>,
                                  list2: ExpenseFilters -> Result<L, string>)
    requires userID == 0 || !(1 <= Filters(q, parseFloat).limit <= MaxLimit)
    ensures GetExpenses(userID, q, parseFloat, list1) == GetExpenses(userID, q, parseFloat, list2)
  {
  }

  // ---------------------------------------------------------------------
  // UpdateExpense
  // ---------------------------------------------------------------------

  predicate HasSomeField(req: UpdateExpenseRequest) {
    req.title.Some? || req.amount.Some? || req.categoryID.Some?
    || req.date.Some? || req.notes.Some? || req.imageURL.Some?
  }

  /** The body checks of UpdateExpense: some field present, a present
      amount above zero, and a present, non-blank date in the layout. */
  function UpdateCheck(req: UpdateExpenseRequest): (r: Option<string>)
    ensures r.None? <==>
              HasSomeField(req)
              && (req.amount.None? || req.amount.value > 0.0)
              && (req.date.None? || TrimSpace(req.date.value) == "" || IsLayoutDate(req.date.value))
    ensures r == Some(NoField) <==> !HasSomeField(req)
    ensures r == Some(AmountNotPositiveMessage) <==> HasSomeField(req) && req.amount.Some? && req.amount.value <= 0.0
  {
    if !HasSomeField(req) then Some(NoField)
    else if req.amount.Some? && req.amount.value <= 0.0 then Some(AmountNotPositiveMessage)
    else if req.date.Some? && TrimSpace(req.date.value) != "" && !IsLayoutDate(req.date.value) then Some(BadDate)
    else None
  }

  /** UpdateExpense, for the path parameter `idParam`, the bound body (None
      when binding fails) and the store's answers. */
  function UpdateExpenseAnswer(userID: int, idParam: string, body: Option<UpdateExpenseRequest>,
                               found: bool, updated: Result<ExpenseRecord, string>): (r: Response<ExpenseRecord>)
    ensures userID == 0 ==> r == NoUser.Answer()
    ensures r.status == StatusBadRequest <==>
              userID != 0 && (Atoi(idParam).None? || body.None? || UpdateCheck(body.value).Some?)
    ensures r.status == StatusNotFound <==>
              userID != 0 && Atoi(idParam).Some? && body.Some? && UpdateCheck(body.value).None? && !found
    ensures r.status == StatusOK <==>
              userID != 0 && Atoi(idParam).Some? && body.Some? && UpdateCheck(body.value).None? && found && updated.Success?
    ensures r.status == StatusOK ==> r.DataResponse? && r.data == Some(updated.value)
  {
    if userID == 0 then NoUser.Answer()
    else if Atoi(idParam).None? then BadInput(InvalidExpenseID).Answer()
    else if body.None? then BadInput("Invalid request body").Answer()
    else if UpdateCheck(body.value).Some? then BadInput(UpdateCheck(body.value).value).Answer()
    else if !found then Http.NotFound("Expense not found")
    else if updated.Failure? then ServerError("Failed to update expense")
    else DataResponse(Suc200, "Expense updated successfully", Some(updated.value), StatusOK)
  }

  /** Every check on the request runs before the existence check. */
  lemma UpdateChecksFirst(userID: int, idParam: string, body: Option<UpdateExpenseRequest>,
                          found1: bool, updated1: Result<ExpenseRecord, string>,
                          found2: bool, updated2: Result<ExpenseRecord, string>)
    requires userID == 0 || Atoi(idParam).None? || body.None? || UpdateCheck(body.value).Some?
    ensures UpdateExpenseAnswer(userID, idParam, body, found1, updated1)
            == UpdateExpenseAnswer(userID, idParam, body, found2, updated2)
  {
  }

  /** The existence check runs before the update: for a missing expense the
      update's answer does not matter. */
  lemma UpdateAfterExists(userID: int, idParam: string, body: Option<UpdateExpenseRequest>,
                          updated1: Result<ExpenseRecord, string>, updated2: Result<ExpenseRecord, string>)
    ensures UpdateExpenseAnswer(userID, idParam, body, false, updated1)
            == UpdateExpenseAnswer(userID, idParam, body, false, updated2)
  {
  }

  // ---------------------------------------------------------------------
  // DeleteExpense
  // ---------------------------------------------------------------------

  /** The gates of DeleteExpense before the delete call: a user, an integer
      ID and an existing expense. */
  function DeleteGate(userID: int, idParam: string, found: bool): (r: Result<int, Rejection>)
    ensures r.Success? <==> userID != 0 && Atoi(idParam).Some? && found
    ensures r.Success? ==> r.value == Atoi(idParam).value
    ensures userID == 0 ==> r == Failure(NoUser)
    ensures userID != 0 && Atoi(idParam).Some? && !found ==> r.Failure? && r.error.status == StatusNotFound
  {
    if userID == 0 then Failure(NoUser)
    else if Atoi(idParam).None? then Failure(BadInput(InvalidExpenseID))
    else if !found then Failure(Rejection(Err404, "Expense not found", StatusNotFound))
    else Success(Atoi(idParam).value)
  }

  /** What the store's DeleteExpense reports: whether a row was soft-deleted
      and the image it referenced. */
  datatype DeleteResult = DeleteResult(deleted: bool, imageURL: Option<string>)

  /** DeleteExpense, for the store's answers `found` (ExpenseExists) and
      `result` (DeleteExpense). Removing the image file afterwards only logs
      on failure, so it does not change the answer. */
  function DeleteExpense(userID: int, idParam: string, found: bool, result: Result<DeleteResult, string>)
    : (r: Response<string>)
    ensures DeleteGate(userID, idParam, found).Failure? ==> r == DeleteGate(userID, idParam, found).error.Answer()
    ensures r.status == StatusOK <==>
              DeleteGate(userID, idParam, found).Success? && result.Success? && result.value.deleted
    ensures r.status == StatusInternalServerError <==>
              DeleteGate(userID, idParam, found).Success? && (result.Failure? || !result.value.deleted)
  {
    var gate := DeleteGate(userID, idParam, found);
    if gate.Failure? then gate.error.Answer()
    else if result.Failure? || !result.value.deleted then ServerError("Failed to delete expense")
    else DataResponse(Suc200, "Expense deleted successfully", None, StatusOK)
  }

  /** The user, the ID and the existence check come before the delete: a
      request they stop answers the same whatever the delete would do. */
  lemma DeleteChecksFirst(userID: int, idParam: string, found: bool,
                          result1: Result<DeleteResult, string>, result2: Result<DeleteResult, string>)
    requires userID == 0 || Atoi(idParam).None? || !found
    ensures DeleteExpense(userID, idParam, found, result1) == DeleteExpense(userID, idParam, found, result2)
    ensures DeleteExpense(userID, idParam, found, result1).status != StatusOK
  {
  }
}
