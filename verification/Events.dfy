/** The events of a request (crates/events/proto/mix/events/v1/events.proto). */
module Events {
  import opened Wrappers

  /** Ids of nodes; 0 is the parent of the root. */
  const ROOT: nat := 1

  datatype Kind =
    | Command(dryRun: bool)
    | Plan
    | Step
    | Rollback(undoes: nat)
    | Process
    | Download
    | Inspection
    | LockWait
    | NixActivity
    | Action(operation: string, subject: string)
    | NoKind

  datatype Status = UnspecifiedStatus | Succeeded | AlreadySatisfied | Failed | Cancelled

  datatype Cancellation = UnspecifiedCause | Interrupted | Terminated | ClientGone

  datatype Reason = UnspecifiedReason | NotReached | Skipped | Blocked

  /** A result: that of a process, of an inspection, or of one of the commands. */
  datatype NodeResult = ProcessResult(status: int) | InspectionResult(found: string) | CommandResult(command: string)

  datatype Severity = Informed | Warned | Erred

  datatype Finding = Finding(node: nat, severity: Severity, message: string)

  /** Gauges replace one another; everything else is reported each time. */
  datatype Progress =
    | Bytes(done: nat, total: Option<nat>)
    | Builds(buildsDone: nat, buildsExpected: nat)
    | Line(text: string)
    | Remark(text: string)

  datatype Event =
    | NodeStarted(id: nat, parent: nat, key: string, planned: seq<string>, shielded: bool, kind: Kind)
    | NodeFinished(id: nat, status: Status, cancellation: Cancellation, exitCode: nat,
                   finding: Option<Finding>, result: Option<NodeResult>)
    | NotRun(parent: nat, key: string, reason: Reason, blockedBy: string)
    | NodeProgress(id: nat, progress: Option<Progress>)
    | Diagnostic(found: Finding)

  datatype Envelope = Envelope(number: nat, request: string, event: Option<Event>)
}
