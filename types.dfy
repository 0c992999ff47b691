/** The record shapes of types.ts. Identifiers are `Date.now()` readings
    rendered as decimal strings; the rendering is injective, so an `Id` is
    kept as the number itself. */
module Types {

  type Id = nat

  datatype Option<T> = None | Some(value: T)

  /** Response-formatting directive of a session. */
  datatype AIMode = Chat | Document | Code | Explanation

  /** Persona directive of a session. */
  datatype AIRole = General | Developer | Designer | Manager | Analyst | Savage

  datatype MessageRole = User | Assistant

  datatype Rating = Up | Down

  datatype Message = Message(
    id: Id,
    role: MessageRole,
    content: string,
    timestamp: nat,
    mode: Option<AIMode>,
    rating: Option<Rating>)

  datatype Session = Session(
    id: Id,
    title: string,
    messages: seq<Message>,
    createdAt: nat,
    lastUpdatedAt: nat,
    mode: AIMode,
    role: AIRole)

  datatype Theme = Light | Dark

  datatype UserSettings = UserSettings(
    theme: Theme,
    model: string,
    temperature: real,
    maxTokens: int,
    sidebarCollapsed: bool)
}
