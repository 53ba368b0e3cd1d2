/** The rows one send reads and writes, and what its settlement plans for its answers. */
module EventModel {
  import opened Options

  type Id = string
  type ThreadId = string

  // The primary thread's id is empty.
  const PRIMARY: ThreadId := ""

  datatype Kind =
    | UserMessage | DefineOutcome | SystemMessage
    | ToolConfirm | ToolResult | CustomToolResult
    | Interrupt
    | SessionIdle
    | Platform(name: string)

  predicate IsAnswer(k: Kind) {
    k.ToolConfirm? || k.ToolResult? || k.CustomToolResult?
  }

  datatype Event = Event(id: Id, kind: Kind, thread: ThreadId, payload: string, restated: bool)

  // One posted answer the settlement processes, and the denial results its walk writes after it.
  datatype AnswerStep = AnswerStep(answer: Id, denials: seq<Event>)

  // pending: the posted answers left unprocessed. steps: per thread, the posted
  // answers processed, in the order the thread's walk processes them.
  datatype AnswerPlan = AnswerPlan(pending: set<Id>, steps: map<ThreadId, seq<AnswerStep>>)

  datatype ThreadWake = ThreadWake(thread: ThreadId, pair: seq<Event>, consumed: seq<Event>)

  datatype DeliveredRow = DeliveredRow(cause: int, row: Event)

  datatype Delivery = Delivery(received: Event, wake: seq<Event>)

  // What one thread's interrupt arm leaves its caller to place.
  datatype InterruptOut = InterruptOut(
    settled: seq<Event>, idled: seq<Event>, told: Option<Delivery>, resume: seq<Event>)
}
