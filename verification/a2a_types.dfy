/** The A2A values: task states, artifacts, and tasks as the providers store them (internal/a2a/task.go). */
module A2ATypes {
  import opened Conflicts

  datatype TaskState = Submitted | Working | InputRequired | Completed | Failed | Canceled | Unknown

  /** The transition graph of `Task.Transition`. */
  predicate CanMove(from: TaskState, to: TaskState) {
    match from
    case Submitted => to.Working? || to.InputRequired? || to.Failed? || to.Canceled?
    case Working => to.InputRequired? || to.Completed? || to.Failed? || to.Canceled?
    case InputRequired => to.Working? || to.Canceled?
    case _ => false
  }

  predicate Terminal(s: TaskState) { s.Completed? || s.Failed? || s.Canceled? }

  /** The JSON an artifact's data part carries. */
  datatype ArtifactData =
    | Granted(claimId: string)
    | Reported(report: ConflictReport)
    | MailboxReply(json: string)

  datatype Artifact = Artifact(name: string, data: ArtifactData)

  datatype StoredTask = StoredTask(id: string, sessionId: string, state: TaskState, claimId: string, namespace: string)

  datatype HistoryMessage = HistoryMessage(role: string, parts: string)

  /** From where each state can be reached: nothing leads back to submitted, nothing leads out of a finished state. */
  lemma WaysInto(from: TaskState)
    ensures !CanMove(from, Submitted) && !CanMove(from, Unknown)
    ensures CanMove(from, Working) <==> from == Submitted || from == InputRequired
    ensures CanMove(from, InputRequired) <==> from == Submitted || from == Working
    ensures CanMove(from, Completed) <==> from == Working
    ensures CanMove(from, Failed) <==> from == Submitted || from == Working
    ensures CanMove(from, Canceled) <==> from == Submitted || from == Working || from == InputRequired
    ensures Terminal(from) ==> forall to :: !CanMove(from, to)
  {}
}
