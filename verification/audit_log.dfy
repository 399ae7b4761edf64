/**
 * The audit-log viewer: a loading flag around every fetch, the fetched logs,
 * an error that is never cleared, and a confirmed delete of all logs.
 */
module Audit {
  import opened Net

  datatype AuditLog = AuditLog(id: int, description: string, createdAt: string)

  const LogsNotFound: string := "No se encontraron registros de auditoría."
  const UnknownFailure: string := "Ocurrió un error desconocido."
  const ClearFailed: string := "Error al eliminar los registros de auditoría."
  const UnknownClearFailure: string := "Ocurrió un error al limpiar los registros."

  /** The log table (with its "Limpiar Registros" button). */
  predicate ShowsTable(loading: bool, logCount: nat)
  {
    !loading && logCount > 0
  }

  /** `!error`: the error slot is null or holds the empty (falsy) string. */
  predicate NoError(error: Option<string>)
  {
    error.None? || error.value == ""
  }

  /** The "no logs available" notice. */
  predicate ShowsEmptyNotice(loading: bool, logCount: nat, error: Option<string>)
  {
    !loading && logCount == 0 && NoError(error)
  }

  /** The table and the empty notice are never on screen together; once
      loading is over, the table shows exactly when there are logs, and the
      notice exactly when there are none and no error (null or empty). */
  lemma TableAndNoticeExclusive(loading: bool, logCount: nat, error: Option<string>)
    ensures !(ShowsTable(loading, logCount) && ShowsEmptyNotice(loading, logCount, error))
    ensures loading ==> !ShowsTable(loading, logCount) && !ShowsEmptyNotice(loading, logCount, error)
    ensures !loading && NoError(error) ==>
      ShowsTable(loading, logCount) != ShowsEmptyNotice(loading, logCount, error)
  {
  }

  /** The state slots of the audit-log viewer. */
  class AuditLogViewer {
    var logs: seq<AuditLog>
    var loading: bool
    var error: Option<string>

    constructor ()
      ensures logs == [] && loading && error == None
    {
      logs := [];
      loading := true;
      error := None;
    }

    /** The part of `fetchLogs` before the request is awaited. */
    method BeginFetchLogs()
      modifies this`loading
      ensures loading
    {
      loading := true;
    }

    /** The part of `fetchLogs` after the response: an ok response replaces
        the logs, a failure sets `error`, and `loading` ends false in every
        case. */
    method FinishFetchLogs(outcome: Response<seq<AuditLog>>)
      modifies this
      ensures !loading
      ensures outcome.Ok? ==> logs == outcome.body && error == old(error)
      ensures outcome.NotOk? ==> logs == old(logs) && error == Some(LogsNotFound)
      ensures outcome.Threw? ==>
        logs == old(logs) && error == Some(CaughtMessage(outcome.thrown, UnknownFailure))
      ensures old(error).Some? ==> error.Some?
      ensures TableShown() <==> |logs| > 0
      ensures EmptyNoticeShown() <==> |logs| == 0 && NoError(error)
      ensures !(TableShown() && EmptyNoticeShown())
    {
      match outcome {
        case Ok(data) => logs := data;
        case NotOk => error := Some(LogsNotFound);
        case Threw(t) => error := Some(CaughtMessage(t, UnknownFailure));
      }
      loading := false;
    }

    /** `fetchLogs` as a whole: `loading` is true while the request is in
        flight (`loadingInFlight`) and false afterwards. */
    method FetchLogs(outcome: Response<seq<AuditLog>>) returns (loadingInFlight: bool)
      modifies this
      ensures loadingInFlight && !loading
      ensures outcome.Ok? ==> logs == outcome.body && error == old(error)
      ensures outcome.NotOk? ==> logs == old(logs) && error == Some(LogsNotFound)
      ensures outcome.Threw? ==>
        logs == old(logs) && error == Some(CaughtMessage(outcome.thrown, UnknownFailure))
      ensures old(error).Some? ==> error.Some?
    {
      BeginFetchLogs();
      loadingInFlight := loading;
      FinishFetchLogs(outcome);
    }

    /** `clearLogs`: nothing happens unless the user confirms; then the
        DELETE is sent, and the logs are emptied only when it succeeds.
        `loading` is never touched. */
    method ClearLogs(confirmed: bool, outcome: Response<()>) returns (requested: bool)
      modifies this`logs, this`error
      ensures requested == confirmed
      ensures !confirmed ==> logs == old(logs) && error == old(error)
      ensures confirmed && outcome.Ok? ==> logs == [] && error == old(error)
      ensures confirmed && outcome.NotOk? ==> logs == old(logs) && error == Some(ClearFailed)
      ensures confirmed && outcome.Threw? ==>
        logs == old(logs) && error == Some(CaughtMessage(outcome.thrown, UnknownClearFailure))
      ensures logs != [] ==> logs == old(logs)
      ensures old(error).Some? ==> error.Some?
      ensures confirmed && outcome.Ok? ==>
        !TableShown() && (EmptyNoticeShown() <==> !loading && NoError(error))
    {
      if !confirmed {
        return false;
      }
      requested := true;
      match outcome {
        case Ok(_) => logs := [];
        case NotOk => error := Some(ClearFailed);
        case Threw(t) => error := Some(CaughtMessage(t, UnknownClearFailure));
      }
    }

    /** The log table is currently on screen. */
    predicate TableShown()
      reads this
    {
      ShowsTable(loading, |logs|)
    }

    /** The "no logs available" notice is currently on screen. */
    predicate EmptyNoticeShown()
      reads this
    {
      ShowsEmptyNotice(loading, |logs|, error)
    }
  }
}
