/** The records of the expense and batch-job subsystem
    (pkg/services/featureOne/model/expenses.go and expensesBatch.go).
    Go's pointer fields are Options; float64 amounts are reals. */
module ExpenseModel {
  import opened Wrappers

  /** One item of a batch update: the target expense and the optional fields. */
  datatype BatchUpdateItem = BatchUpdateItem(
    expenseID: int,
    title: Option<string>,
    amount: Option<real>,
    categoryID: Option<int>,
    date: Option<string>,
    notes: Option<string>)

  /** One data row of an uploaded CSV file, after ingestion. */
  datatype CSVExpenseRow = CSVExpenseRow(
    title: string,
    amount: real,
    categoryID: Option<int>,
    date: string,
    notes: Option<string>)

  datatype CreateExpenseRequest = CreateExpenseRequest(
    title: string,
    amount: real,
    categoryID: Option<int>,
    date: string,
    notes: Option<string>,
    imageURL: Option<string>)

  datatype UpdateExpenseRequest = UpdateExpenseRequest(
    title: Option<string>,
    amount: Option<real>,
    categoryID: Option<int>,
    date: Option<string>,
    notes: Option<string>,
    imageURL: Option<string>)

  /** The per-item outcome record of a batch; a record the code builds without
      an expense ID carries Go's zero value 0. */
  datatype BatchUpdateResultItem = BatchUpdateResultItem(
    index: int,
    expenseID: int,
    message: string,
    success: bool)

  /** The list filters GetExpenses hands to the store. */
  datatype ExpenseFilters = ExpenseFilters(
    title: Option<string>,
    minAmount: Option<real>,
    maxAmount: Option<real>,
    categoryID: Option<int>,
    startDate: Option<string>,
    endDate: Option<string>,
    limit: int,
    offset: int)

  /** The in-memory answer of the synchronous batch update. */
  datatype BatchUpdateResponse = BatchUpdateResponse(
    results: seq<BatchUpdateResultItem>,
    total: int,
    successful: int,
    failed: int)

  datatype BatchJobCreatedResponse = BatchJobCreatedResponse(
    jobID: int,
    totalItems: int,
    status: string)

  /** An expense as the store returns it (timestamps left out). */
  datatype ExpenseRecord = ExpenseRecord(
    id: int,
    title: string,
    amount: real,
    categoryID: Option<int>,
    date: string,
    notes: Option<string>,
    imageURL: Option<string>)

  /** The job-level state tag written to the job store. */
  datatype JobStatus = Pending | Processing | Completed | Failed {
    function Name(): string {
      match this
      case Pending => "pending"
      case Processing => "processing"
      case Completed => "completed"
      case Failed => "failed"
    }
  }

  /** The kinds of batch job. */
  datatype JobType = ExpenseBatchUpdate | ExpenseBatchUploadCsv {
    function Name(): string {
      match this
      case ExpenseBatchUpdate => "expense_batch_update"
      case ExpenseBatchUploadCsv => "expense_batch_upload_csv"
    }
  }

  /** One progress write to the job store: the arguments of UpdateBatchJob
      after the job ID. `results` is None for Go's untyped nil (stored as a
      NULL blob) and Some for a results slice (stored as its JSON; an empty
      Some stands for the nil slice, which marshals to "null"). */
  datatype Snapshot = Snapshot(
    status: JobStatus,
    processed: int,
    successful: int,
    failed: int,
    results: Option<seq<BatchUpdateResultItem>>)

  /** A job as the status endpoint reads it back (BatchJobResponse). */
  datatype BatchJobView = BatchJobView(
    jobID: int,
    userID: int,
    jobType: string,
    status: string,
    totalItems: int,
    processedItems: int,
    successfulItems: int,
    failedItems: int,
    results: seq<BatchUpdateResultItem>)

  /** The update request the batch paths build from an item
      (script/expensesBatch.go:138-144, controller/expensesBatch.go:79-85). */
  function UpdateRequestOf(item: BatchUpdateItem): UpdateExpenseRequest {
    UpdateExpenseRequest(item.title, item.amount, item.categoryID, item.date, item.notes, None)
  }

  /** The create request the upload executor builds from a CSV row
      (script/expensesBatch.go:205-211). */
  function CreateRequestOf(row: CSVExpenseRow): CreateExpenseRequest {
    CreateExpenseRequest(row.title, row.amount, row.categoryID, row.date, row.notes, None)
  }
}
