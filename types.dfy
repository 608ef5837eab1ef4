/**
 * The records shared by the client and the service: the four operating
 * modes, chat messages and sessions (frontend/src/types.ts), plus the
 * Option and Result wrappers used for absent values and error paths.
 */
module Types {

  datatype Option<+T> = None | Some(value: T)

  datatype Result<+T, +E> = Success(value: T) | Failure(error: E)

  /** AmanMode: the operational directive a session is in. */
  datatype Mode = Align | Model | Act | Navigate

  /** The name a mode has on the wire and in the service ("ALIGN", ...). */
  function ModeName(m: Mode): string
  {
    match m
    case Align => "ALIGN"
    case Model => "MODEL"
    case Act => "ACT"
    case Navigate => "NAVIGATE"
  }

  /** The mode with the given wire name, if there is one. */
  function ModeFromName(name: string): (r: Option<Mode>)
    ensures r.Some? ==> ModeName(r.value) == name
    ensures r.None? ==> forall m: Mode :: ModeName(m) != name
  {
    if name == "ALIGN" then Some(Align)
    else if name == "MODEL" then Some(Model)
    else if name == "ACT" then Some(Act)
    else if name == "NAVIGATE" then Some(Navigate)
    else None
  }

  datatype Role = User | Assistant

  /** A chat message; `mode` is only set on assistant messages that a stream fed. */
  datatype Message = Message(role: Role, content: string, mode: Option<Mode>, timestamp: int)

  /** A conversation; `timestamp` is the time of the last user activity. */
  datatype Session = Session(id: string, title: string, mode: Mode, messages: seq<Message>, timestamp: int)
}
