/** The backend contract as the three screens see it: the entities the REST
    API returns, the outcome of one call, and the toast a handler shows.

    A network call is not performed here. Each handler is given the outcome
    of its call as an input: `Ok(data)` for a resolved promise, `Err(message)`
    for a rejected one, where `message` is the `message` field of the
    response body when the server sent one.
 */
module Api {

  datatype Option<+T> = None | Some(value: T)

  /** The result of one awaited call to the backend. */
  datatype Outcome<+T> = Ok(data: T) | Err(message: Option<string>)

  /** A toast notice: `toast.success(text)` or `toast.error(text)`. */
  datatype Toast = Success(text: string) | Error(text: string)

  /** A user as the `/users` endpoints return it (`_id` is `id` here). */
  datatype User = User(id: string, name: string, email: string, phone: string, role: string)

  /** A predefined question as the `/questions` endpoints return it. */
  datatype Question = Question(id: string, question: string, answer: string)

  /** `err.response?.data?.message || fallback`: the server's message when it
      sent a truthy one, otherwise the action's default text. An empty
      message is falsy in JavaScript, so it also falls back. */
  function ErrorText(message: Option<string>, fallback: string): (r: string)
    ensures r == fallback || message == Some(r)
    ensures r == fallback <==> (message.None? || message.value == "" || message.value == fallback)
    ensures fallback != "" ==> r != ""
  {
    match message
    case Some(m) => if m != "" then m else fallback
    case None => fallback
  }
}
