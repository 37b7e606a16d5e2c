/** The shared helpers of pkg/global/utils/utils.go that the handlers rely
    on: AbsDiff, Ptr, GetUserId and the response mapping at the end of
    ExecuteDBFunction. */
module Utils {
  import opened Wrappers
  import opened Numbers
  import opened Http

  /** AbsDiff on int64: the subtraction wraps around as Go's does. */
  function AbsDiff(a: int, b: int): (r: int)
    requires InInt64(a) && InInt64(b)
    ensures InInt64(r)
  {
    if a > b then WrapInt64(a - b) else WrapInt64(b - a)
  }

  /** Where a - b does not overflow, AbsDiff is the distance between a
      and b: non-negative, symmetric and zero exactly for equal inputs. */
  lemma AbsDiffIsDistance(a: int, b: int)
    requires InInt64(a) && InInt64(b) && InInt64(a - b) && InInt64(b - a)
    ensures AbsDiff(a, b) >= 0
    ensures AbsDiff(a, b) == AbsDiff(b, a)
    ensures AbsDiff(a, b) == 0 <==> a == b
    ensures AbsDiff(a, b) == if a >= b then a - b else b - a
  {
  }

  /** At the edge of the range the subtraction wraps and the result is
      negative: the distance from MinInt64 to 0 does not fit an int64. */
  lemma AbsDiffWraps()
    ensures AbsDiff(MinInt64, 0) == MinInt64
    ensures AbsDiff(MinInt64, 0) < 0
  {
    assert WrapInt64(0 - MinInt64) == (0 - MinInt64 - MinInt64) % 0x1_0000_0000_0000_0000 + MinInt64;
  }

  /** Ptr: no value for the type's zero value, else the value itself. The
      zero value of the type parameter is passed in as `zero`. */
  function Ptr<T(==)>(val: T, zero: T): (r: Option<T>)
    ensures r.None? <==> val == zero
    ensures r.Some? ==> r.value == val
  {
    if val == zero then None else Some(val)
  }

  /** Reading through the pointer with the zero value for nil gives the
      value back, so Ptr loses nothing. */
  lemma PtrDeref<T>(val: T, zero: T)
    ensures Ptr(val, zero).GetOr(zero) == val
  {
  }

  /** What the JWT middleware may have stored as the user ID. */
  datatype Local =
    | Absent
    | Float64(x: real)
    | Int(n: int)
    | Int64(n: int)
    | OtherType

  /** GetUserId: 0 unless the value is a float64 (truncated toward zero),
      an int or an int64. */
  function GetUserId(v: Local): (id: int)
    ensures v.Absent? || v.OtherType? ==> id == 0
    ensures v.Int? || v.Int64? ==> id == v.n
    ensures v.Float64? && v.x >= 0.0 ==> id as real <= v.x < id as real + 1.0
    ensures v.Float64? && v.x < 0.0 ==> id as real - 1.0 < v.x <= id as real
  {
    match v
    case Float64(x) => TruncToInt(x)
    case Int(n) => n
    case Int64(n) => n
    case _ => 0
  }

  /** JSON numbers in the token's claims decode as float64: a whole user ID
      within 2^53, which a float64 holds exactly, survives the trip through
      the claims. */
  lemma GetUserIdOfClaim(n: int)
    requires -0x20_0000_0000_0000 <= n <= 0x20_0000_0000_0000
    ensures GetUserId(Float64(n as real)) == n
  {
  }

  /** The JSON values the database function's answer may hold. */
  datatype Json =
    | JNumber(x: real)
    | JString(s: string)
    | JBool(b: bool)
    | JNull
    | JOther

  /** The `code` entry as ExecuteDBFunction reads it: 0 unless it is a
      number, truncated toward zero. */
  function CodeOf(db: map<string, Json>): (c: int)
    ensures ("code" !in db || !db["code"].JNumber?) ==> c == 0
    ensures "code" in db && db["code"].JNumber? ==> c == TruncToInt(db["code"].x)
  {
    if "code" in db && db["code"].JNumber? then TruncToInt(db["code"].x) else 0
  }

  /** The message: the `message` string when non-empty, else the table's
      message for the code, else "". */
  function MessageOf(db: map<string, Json>, codeMessages: map<string, string>): (m: string)
    ensures "message" in db && db["message"].JString? && db["message"].s != "" ==> m == db["message"].s
    ensures !("message" in db && db["message"].JString? && db["message"].s != "") ==>
              m == (if Itoa(CodeOf(db)) in codeMessages then codeMessages[Itoa(CodeOf(db))] else "")
  {
    var message := if "message" in db && db["message"].JString? then db["message"].s else "";
    if message != "" then message
    else if Itoa(CodeOf(db)) in codeMessages then codeMessages[Itoa(CodeOf(db))]
    else ""
  }

  /** The tail of ExecuteDBFunction, once the answer has been decoded into
      `db`: the code is both the envelope's code and its HTTP status, and
      the answer carries `data` only when `success` is the boolean true. */
  function DBAnswer(db: map<string, Json>, codeMessages: map<string, string>): (r: Response<Json>)
    ensures r.code == Raw(Itoa(CodeOf(db))) && r.status == CodeOf(db)
    ensures r.message == MessageOf(db, codeMessages)
    ensures r.DataResponse? <==> "success" in db && db["success"] == JBool(true)
    ensures r.DataResponse? ==> r.data == (if "data" in db then Some(db["data"]) else None)
  {
    var code := CodeOf(db);
    var message := MessageOf(db, codeMessages);
    if !("success" in db && db["success"].JBool? && db["success"].b) then ErrorResponse(Raw(Itoa(code)), message, code)
    else DataResponse(Raw(Itoa(code)), message, if "data" in db then Some(db["data"]) else None, code)
  }

  /** An answer without a non-empty `message` string (absent, not a string,
      or empty) takes the table's message for its code, whatever the code
      entry holds (absent or not a number reads as code 0); a code in int64
      range reads back from the code string as the status. */
  lemma DBAnswerDefaultMessage(db: map<string, Json>, codeMessages: map<string, string>)
    requires !("message" in db && db["message"].JString? && db["message"].s != "")
    ensures DBAnswer(db, codeMessages).message
            == if Itoa(CodeOf(db)) in codeMessages then codeMessages[Itoa(CodeOf(db))] else ""
    ensures InInt64(CodeOf(db)) ==> Atoi(DBAnswer(db, codeMessages).code.text) == Some(DBAnswer(db, codeMessages).status)
  {
    if InInt64(CodeOf(db)) {
      AtoiItoa(CodeOf(db));
    }
  }

  /** An answer with no numeric code is answered with code "0" and status 0. */
  lemma DBAnswerWithoutCode(db: map<string, Json>, codeMessages: map<string, string>)
    requires "code" !in db || !db["code"].JNumber?
    ensures DBAnswer(db, codeMessages).code == Raw("0") && DBAnswer(db, codeMessages).status == 0
  {
  }
}
