/** Types shared by every component of the message pipeline: chat roles,
    stored messages, the role/content pairs handed to the model providers,
    and the Option/Result wrappers used for JavaScript's `null` and for
    thrown errors. */
module ChatTypes {

  /** A value or JavaScript's `null`/`undefined`. */
  datatype Option<T> = None | Some(value: T)

  /** The outcome of a call that may throw. */
  datatype Result<T, E> = Ok(value: T) | Err(error: E)

  /** `'system' | 'user' | 'assistant'` */
  datatype Role = System | User | Assistant

  /** A stored chat message; `timestamp` is milliseconds since the epoch. */
  datatype Message = Message(role: Role, content: string, timestamp: int)

  /** A `{ role, content }` pair as sent to a provider (no timestamp). */
  datatype ChatTurn = ChatTurn(role: Role, content: string)

  /** What a failed provider or embedding call throws: its message, code
      and HTTP status. Errors are passed on unchanged; nothing in the model
      reads their fields. */
  datatype ProviderError = ProviderError(message: string, code: string, status: int)

  /** JavaScript truthiness of an optional string: present and non-empty. */
  predicate Present(s: Option<string>) {
    s.Some? && s.value != ""
  }
}
