/** api/idempotency.rs: the `tool_requests` table behind every mutation of the local tool API. */
module Idempotency {
  import opened MachineInts

  /** The primary key of `tool_requests`. Method and request fingerprint are stored but are not part of it. */
  datatype Scope = Scope(contract: string, contractVersion: u32, principalId: string, idempotencyKey: string)

  datatype OperationSummary = OperationSummary(id: string, kind: string, operationMethod: string, principalId: string)

  /** A success envelope; it names the request that produced it. */
  datatype SuccessResponse = SuccessResponse(contract: string, requestId: string, operation: OperationSummary)

  datatype RequestState = InProgress | Succeeded | Failed

  datatype RequestRow = RequestRow(
    requestMethod: string, fingerprint: string, state: RequestState, operationId: Option<string>,
    response: Option<SuccessResponse>, errorCode: Option<string>, errorMessageKey: Option<string>)

  type Rows = map<Scope, RequestRow>

  datatype IdempotencyResult =
    | Proceed
    | StillInProgress(operationId: string)
    | CachedSuccess(response: Option<SuccessResponse>)
    | CachedFailure(errorCode: string, errorMessageKey: string)

  datatype CatalogError = CatalogError

  /** Storage faults of one claim: the lookup is read with `.ok()`, so a failed read looks like an absent row. */
  datatype ClaimFaults = ClaimFaults(readFails: bool, insertFails: bool)

  const NO_FAULTS := ClaimFaults(false, false)

  function OrEmpty(value: Option<string>): string {
    if value.Some? then value.value else ""
  }

  function Recall(row: RequestRow): IdempotencyResult {
    match row.state
    case InProgress => StillInProgress(OrEmpty(row.operationId))
    case Succeeded => CachedSuccess(row.response)
    case Failed => CachedFailure(OrEmpty(row.errorCode), OrEmpty(row.errorMessageKey))
  }

  function NewRow(requestMethod: string, fingerprint: string): RequestRow {
    RequestRow(requestMethod, fingerprint, InProgress, None, None, None, None)
  }

  /** What check_or_claim does to the table and returns, under one hold of the connection lock. */
  function Claim(rows: Rows, scope: Scope, requestMethod: string, fingerprint: string, faults: ClaimFaults)
    : (Rows, Result<IdempotencyResult, CatalogError>)
  {
    if scope in rows && !faults.readFails then (rows, Ok(Recall(rows[scope])))
    else if scope in rows || faults.insertFails then (rows, Err(CatalogError))
    else (rows[scope := NewRow(requestMethod, fingerprint)], Ok(Proceed))
  }

  /** The UPDATE of commit_success: it has no guard on the row's state. */
  function WithSuccess(rows: Rows, scope: Scope, response: SuccessResponse): Rows {
    if scope in rows then
      rows[scope := rows[scope].(state := Succeeded, response := Some(response), operationId := None)]
    else rows
  }

  /** The UPDATE of commit_failure: it has no guard either. */
  function WithFailure(rows: Rows, scope: Scope, errorCode: string, errorMessageKey: string): Rows {
    if scope in rows then
      rows[scope := rows[scope].(state := Failed, errorCode := Some(errorCode),
                                 errorMessageKey := Some(errorMessageKey))]
    else rows
  }

  class RequestTable {
    var rows: Rows

    constructor ()
      ensures rows == map[]
    {
      rows := map[];
    }

    /** Reads the row of the scope, or inserts a fresh in-progress row when there is none. */
    method CheckOrClaim(scope: Scope, requestMethod: string, fingerprint: string, faults: ClaimFaults)
      returns (r: Result<IdempotencyResult, CatalogError>)
      modifies this
      ensures (rows, r) == Claim(old(rows), scope, requestMethod, fingerprint, faults)
      ensures r == Ok(Proceed) <==> scope !in old(rows) && !faults.insertFails
      ensures rows == if r != Ok(Proceed) then old(rows)
                      else old(rows)[scope :=
                             RequestRow(requestMethod, fingerprint, InProgress, None, None, None, None)]
      ensures scope !in old(rows) && faults.insertFails ==> r == Err(CatalogError)
      ensures scope in old(rows) ==>
                var row := old(rows)[scope];
                r == if faults.readFails then Err(CatalogError)
                     else match row.state
                       case InProgress =>
                         Ok(StillInProgress(if row.operationId.Some? then row.operationId.value else ""))
                       case Succeeded => Ok(CachedSuccess(row.response))
                       case Failed =>
                         Ok(CachedFailure(if row.errorCode.Some? then row.errorCode.value else "",
                                          if row.errorMessageKey.Some? then row.errorMessageKey.value else ""))
    {
      var existing: Option<RequestRow> := None;
      if !faults.readFails && scope in rows {
        existing := Some(rows[scope]);
      }
      match existing {
        case Some(row) =>
          match row.state {
            case InProgress => return Ok(StillInProgress(OrEmpty(row.operationId)));
            case Succeeded => return Ok(CachedSuccess(row.response));
            case Failed => return Ok(CachedFailure(OrEmpty(row.errorCode), OrEmpty(row.errorMessageKey)));
          }
        case None =>
          if faults.insertFails || scope in rows {
            return Err(CatalogError);
          }
          rows := rows[scope := NewRow(requestMethod, fingerprint)];
          return Ok(Proceed);
      }
    }

    method CommitSuccess(scope: Scope, response: SuccessResponse, writeFails: bool)
      returns (r: Result<(), CatalogError>)
      modifies this
      ensures rows == if writeFails then old(rows) else WithSuccess(old(rows), scope, response)
      ensures writeFails || scope !in old(rows) ==> rows == old(rows)
      ensures !writeFails && scope in old(rows) ==>
                && rows == old(rows)[scope := rows[scope]]
                && rows[scope] == old(rows)[scope].(state := Succeeded, response := Some(response), operationId := None)
      ensures r.Err? <==> writeFails
    {
      if writeFails {
        return Err(CatalogError);
      }
      if scope in rows {
        rows := rows[scope := rows[scope].(state := Succeeded, response := Some(response), operationId := None)];
      }
      return Ok(());
    }

    method CommitFailure(scope: Scope, errorCode: string, errorMessageKey: string, writeFails: bool)
      returns (r: Result<(), CatalogError>)
      modifies this
      ensures rows == if writeFails then old(rows) else WithFailure(old(rows), scope, errorCode, errorMessageKey)
      ensures writeFails || scope !in old(rows) ==> rows == old(rows)
      ensures !writeFails && scope in old(rows) ==>
                && rows == old(rows)[scope := rows[scope]]
                && rows[scope] == old(rows)[scope].(state := Failed, errorCode := Some(errorCode),
                                                    errorMessageKey := Some(errorMessageKey))
      ensures r.Err? <==> writeFails
    {
      if writeFails {
        return Err(CatalogError);
      }
      if scope in rows {
        rows := rows[scope := rows[scope].(state := Failed, errorCode := Some(errorCode),
                                           errorMessageKey := Some(errorMessageKey))];
      }
      return Ok(());
    }
  }
}
