/** Values shared by every part of the model: optional values, JavaScript
    truthiness of optional strings, and the shapes of the answers that the
    browser's `fetch` and the Supabase client hand back. Each answer is an
    input to the model: the backend itself is not modelled. */
module Common {

  /** `null` / `undefined` versus a present value. */
  datatype Option<T> = None | Some(value: T) {
    /** `x || d` / `x ?? d` for a value that is either absent or present. */
    function GetOr(default: T): T {
      if Some? then value else default
    }
  }

  /** JavaScript truthiness of a string that may be absent: `null`,
      `undefined` and `""` are falsy, every other string is truthy. */
  predicate Truthy(s: Option<string>) {
    s.Some? && s.value != ""
  }

  /** What an awaited `fetch` to one of the app's API routes ended in: a
      response with `ok` set whose JSON body is `data`, a response with `ok`
      unset, or a rejected promise (network failure, unreadable JSON). */
  datatype Fetch<T> = Ok(data: T) | NotOk | Exception(message: string)

  /** What `await response.json()` gave when the caller does not look at
      `response.ok`: a parsed body (`None` for a falsy body such as `null`)
      or a thrown error. */
  datatype Json<T> = Parsed(body: Option<T>) | Threw(message: string)

  /** The `{ data, error }` answer of one Supabase query: no error and the
      data, or an error with its message. */
  datatype Db<T> = Done(data: T) | Failed(message: string)

  /** A notification shown to the user: a success toast, an error toast or a
      browser `alert`. */
  datatype Notice = SuccessToast(message: string) | ErrorToast(message: string) | Alert(message: string)
}
