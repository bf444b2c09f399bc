/** Requests and responses of the broker's handlers, abstracted from `net/http`. */
module Http {
  import opened Wrappers
  import opened Records
  import opened SecondFactor

  const StatusOK: int := 200
  const StatusFound: int := 302
  const StatusBadRequest: int := 400
  const StatusForbidden: int := 403
  const StatusInternalServerError: int := 500

  /** The `session` cookie (None when the request carries none), the URL query, and the form
      values (`r.FormValue` reads the posted body merged with the URL query). */
  datatype Request = Request(cookie: Option<string>, query: Query, form: Query)

  function FormValue(r: Request, key: string): string
  {
    QueryGet(r.form, key)
  }

  datatype Cookie = Cookie(name: string, value: string, maxAge: int)

  /** A redirect target: `target`, then `?` and the encoded query when there is one. */
  datatype Location = Location(target: string, query: Option<Query>)

  datatype Response =
    | Redirect(location: Location, setCookie: Option<Cookie>)  // 302 Found
    | Reply(status: int, body: string)                         // status and the exact body text
    | SignPage(sign: SignRequest)                              // page running u2f.sign
    | RegisterPage(register: RegisterRequest)                  // page running u2f.register
    | AdminPage(roles: seq<string>, users: seq<User>, flash: string)  // admin page: IAM roles, users, flash
    | Abort(reason: string)                                    // a panic: the request is dropped
}
