/**
 * The locally stored error log of client/src/components/error-monitoring.tsx: global
 * errors and unhandled promise rejections are recorded under `error_logs`, newest 50
 * kept.  localStorage, the upload and console output are left out.
 */
module ErrorMonitoring {
  import opened Wrappers
  import opened BoundedLog

  const ErrorLogCap: nat := 50
  const RejectionPrefix: string := "Unhandled Promise Rejection: "

  /** `ErrorDetails`. */
  datatype ErrorDetails = ErrorDetails(
    message: string,
    stack: Option<string>,
    url: string,
    timestamp: string,
    userAgent: string,
    userId: Option<string>)

  /** `\`Unhandled Promise Rejection: ${event.reason}\``, with the reason already a string. */
  function RejectionMessage(reason: string): (m: string)
    ensures |m| == |RejectionPrefix| + |reason|
    ensures m[..|RejectionPrefix|] == RejectionPrefix && m[|RejectionPrefix|..] == reason
  {
    RejectionPrefix + reason
  }

  class ErrorLog {
    /** The array stored under `error_logs`. */
    var errorLogs: seq<ErrorDetails>

    constructor (stored: seq<ErrorDetails>)
      ensures errorLogs == stored
    {
      errorLogs := stored;
    }

    /** `logError(details)`. */
    method LogError(details: ErrorDetails)
      modifies this
      ensures errorLogs == AppendCapped(old(errorLogs), details, ErrorLogCap)
      ensures |errorLogs| == if |old(errorLogs)| < ErrorLogCap then |old(errorLogs)| + 1 else ErrorLogCap
      ensures errorLogs[|errorLogs| - 1] == details
    {
      var logs := errorLogs;
      logs := logs + [details];
      if |logs| > ErrorLogCap {
        logs := logs[|logs| - ErrorLogCap..];
      }
      errorLogs := logs;
    }

    /** `handleGlobalError(event)`. */
    method HandleGlobalError(message: string, stack: Option<string>, href: string, now: string, userAgent: string)
      modifies this
      ensures errorLogs ==
                AppendCapped(old(errorLogs), ErrorDetails(message, stack, href, now, userAgent, None), ErrorLogCap)
    {
      LogError(ErrorDetails(message, stack, href, now, userAgent, None));
    }

    /** `handleUnhandledRejection(event)`. */
    method HandleUnhandledRejection(reason: string, stack: Option<string>, href: string, now: string, userAgent: string)
      modifies this
      ensures errorLogs ==
                AppendCapped(old(errorLogs), ErrorDetails(RejectionMessage(reason), stack, href, now, userAgent, None), ErrorLogCap)
      ensures errorLogs[|errorLogs| - 1].message == RejectionPrefix + reason
    {
      LogError(ErrorDetails(RejectionMessage(reason), stack, href, now, userAgent, None));
    }
  }
}
