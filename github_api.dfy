/**
 * The parts of the GitHub REST API payloads that the components consume,
 * and the outcome of one `fetch` as the components observe it.
 */
module GithubApi {
  import opened Wrappers

  /** A user record as returned by `GET https://api.github.com/users/{login}`. */
  datatype User = User(
    login: string,
    name: Option<string>,
    avatarUrl: string,
    publicRepos: nat,
    followers: nat,
    reposUrl: string)

  /** A repository entry of the user's repository list. */
  datatype Repo = Repo(id: int, name: string)

  /**
   * A commit entry. The author date is kept as the millisecond timestamp that
   * `new Date(commit.author.date)` yields; parsing the ISO 8601 text is not modelled.
   */
  datatype Commit = Commit(message: string, authorName: string, authorDate: int)

  /**
   * How an awaited request ends:
   *  - Ok(data): the response was ok and its body decoded to `data`;
   *  - NotOk: the response arrived with a non-2xx status, on which every
   *    handler throws an Error carrying its own fixed message;
   *  - Thrown(message): `fetch` or `response.json()` rejected with an Error
   *    whose message is `message`.
   */
  datatype FetchOutcome<+T> = Ok(data: T) | NotOk | Thrown(message: string)

  /**
   * The `err.message` a handler's catch block sees for a failed outcome:
   * the handler's own message for a non-ok response, the rejection's
   * message otherwise.
   */
  function CaughtMessage<T>(o: FetchOutcome<T>, notOkMessage: string): string
    requires !o.Ok?
  {
    if o.NotOk? then notOkMessage else o.message
  }
}
