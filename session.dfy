/** src/interfaces/session.ts: the per-user session the controllers read and
    write, and the ways a request handler can answer. */
module Sessions {
  import opened Wrappers

  /** The session fields the core uses: the GitHub access token and where to
      go back to once the OAuth flow is done. */
  class Session {
    var token: Option<string>
    var redirectTo: Option<string>

    /** A fresh session holds neither. */
    constructor ()
      ensures token == None && redirectTo == None
    {
      token := None;
      redirectTo := None;
    }
  }

  /** JavaScript truthiness of an optional string: present and not empty. */
  predicate Truthy(s: Option<string>) {
    s.Some? && s.value != ""
  }

  const BadRequest := 400
  const InternalServerError := 500

  /** The message of the 500 both controllers answer when a GitHub call fails. */
  const GitHubFailure := "could not access the GitHub API"

  /** How a handler answers: a redirect to GitHub's sign-in page, the view
      model handed to a template, a redirect to a path of the application, or
      a thrown `HttpException`. */
  datatype Response<V> =
    | Authenticate
    | Render(view: V)
    | Redirect(location: string)
    | HttpException(status: int, message: string)
}
