/**
 * Data messages of the Spacebrew wire protocol, already decoded from their JSON
 * text, and the events an inbound message is dispatched as.
 */
module Messages {

  /** The `message` object of a data frame: {clientName, name, type, value}. */
  datatype DataMessage = DataMessage(clientName: string, name: string, kind: string, value: string)

  /** What the client dispatches on the document, in order. */
  datatype Event =
    | SbOpen
    | SbClose
    | StringMessage(name: string, value: string)
    | BooleanMessage(name: string, value: string)
    | RangeMessage(name: string, value: string)
    | CustomMessage(name: string, kind: string, value: string)
  {
    predicate IsMessage() {
      !SbOpen? && !SbClose?
    }
  }

  /** The three route types with their own callbacks. */
  predicate IsReservedKind(kind: string) {
    kind == "string" || kind == "boolean" || kind == "range"
  }

  /**
   * The event an inbound message fires: one of the reserved kinds goes to the
   * callback of that kind, anything else to the custom callback with its type.
   * Name and value pass through untouched.
   */
  function Classify(m: DataMessage): (e: Event)
    ensures e.IsMessage() && e.name == m.name && e.value == m.value
    ensures e.StringMessage? <==> m.kind == "string"
    ensures e.BooleanMessage? <==> m.kind == "boolean"
    ensures e.RangeMessage? <==> m.kind == "range"
    ensures e.CustomMessage? <==> !IsReservedKind(m.kind)
    ensures e.CustomMessage? ==> e.kind == m.kind
  {
    if m.kind == "string" then StringMessage(m.name, m.value)
    else if m.kind == "boolean" then BooleanMessage(m.name, m.value)
    else if m.kind == "range" then RangeMessage(m.name, m.value)
    else CustomMessage(m.name, m.kind, m.value)
  }

  /** The message a dispatched event describes, with the sender left blank. */
  function MessageOf(e: Event): DataMessage
    requires e.IsMessage()
  {
    match e
    case StringMessage(n, v) => DataMessage("", n, "string", v)
    case BooleanMessage(n, v) => DataMessage("", n, "boolean", v)
    case RangeMessage(n, v) => DataMessage("", n, "range", v)
    case CustomMessage(n, k, v) => DataMessage("", n, k, v)
  }

  /** Dispatch loses only the sender's name: the event gives back name, type and value. */
  lemma ClassifyKeepsAllButSender(m: DataMessage)
    ensures MessageOf(Classify(m)) == m.(clientName := "")
  {
  }
}
