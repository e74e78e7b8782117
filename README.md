# commitV: search, repository browser and commit-age counter, in Dafny

commitV is a small browser UI over the GitHub REST API. `Buscador` looks a
user up by login and keeps either the user record or an error message;
`UserCard` loads that user's repositories, loads the commits of a selected
repository and shows a live "time since last commit" counter. This project
models the logic inside those two components:

- `Elapsed` (elapsed.dfy): `calculateTimeElapsed`, which breaks a non-negative
  millisecond difference into days, hours mod 24, minutes mod 60 and seconds
  mod 60 and renders them as `"{d}d {h}h {m}m {s}s"`. The decimal rendering
  is given a parser (`ParseFormatted`) that accepts exactly the rendered texts,
  and the text is proved to read back as the four fields, which are proved to be in range and to recombine into the
  whole seconds elapsed.
- `UserCardComponent` (user_card.dfy): the class `UserCard` with the
  component's state fields, its repository load, its repository selection
  and its elapsed-time tick. Every asynchronous handler is split at its
  `await` into a start step (synchronous updates, returns the request URL)
  and a settle step (takes the request's outcome). Pure transition functions
  on `CardState` specify each step, the methods are proved to perform them,
  and lemmas state what a start followed by a settle leaves behind.
- `BuscadorComponent` (buscador.dfy): the class `Buscador`, `String.trim` over
  ECMAScript's whitespace and line terminators, the blank-term check, the
  reset, the users-endpoint URL built from the untrimmed term and the
  success and failure settle.
- `GithubApi` (github_api.dfy) holds the consumed parts of the User, Repository
  and Commit payloads and `FetchOutcome`: `Ok(data)`, `NotOk` (the response
  was not ok, and the handler throws its own fixed message) or
  `Thrown(message)` (`fetch` or `response.json()` rejected).
  `Wrappers` (wrappers.dfy) holds `Option`, which stands for JavaScript's `null`.

The network and the clock are parameters: a settle step receives the
request's outcome and a tick receives the clock reading `now` in
milliseconds. A commit's author date is the millisecond timestamp that
`new Date(...)` would yield.

Points where the code's behaviour is easy to misread:
- The error slot of `UserCard` starts as `""` and a selection sets it to
  `null`. The model keeps both values (`Some("")` and `None`).
  `ShowsError` says when the error paragraph renders.
- A failed load or selection shows the caught error's own message. That is the
  fixed message only for a non-ok response. A rejected `fetch` shows its own
  message, not a generic one.
- "Exactly one of result and error" after a search holds only when a
  rejection's message is non-empty. JavaScript's `new Error()` has the
  message `""`. `SearchEndsWithResultXorError` states this hypothesis.
- A successful selection with an empty commit list does not touch
  `lastCommitDate`. The start step has already set it to null, so it stays
  null. The counter text `timeElapsed` is never cleared. Once no last commit
  date remains, the counter is only hidden.

## Model

| member | source | states |
|---|---|---|
| `Elapsed.Decompose` | src/components/UserCard.jsx:71-74 | for a non-negative difference, hours < 24, minutes < 60, seconds < 60, days ≥ 0, and days·86400 + hours·3600 + minutes·60 + seconds equals the whole seconds `diff / 1000` |
| `Elapsed.DecomposeReconstructs` | src/components/UserCard.jsx:71-74 | the source's four floor-divisions and remainders recombine exactly into `diff / 1000` |
| `Elapsed.ElapsedMonotone` | src/components/UserCard.jsx:71-74 | a larger difference never shows fewer total whole seconds or fewer days |
| `Elapsed.NatToString` | src/components/UserCard.jsx:76 | a number interpolated into the text is a non-empty run of decimal digits with no leading zero except for 0 itself |
| `Elapsed.ParseDigitsOfNatToString` | src/components/UserCard.jsx:76 | reading a rendered number back as decimal digits gives the number |
| `Elapsed.Format` | src/components/UserCard.jsx:76 | the interpolated text `"{d}d {h}h {m}m {s}s"` reads back as exactly the duration it was made from, so it has that shape and loses no field |
| `Elapsed.ParseFormattedOnlyFormat` | src/components/UserCard.jsx:76 | the reading is exact: the only text that reads back as a duration is the text the interpolation produces for it, so no field with a leading zero or any other spelling is accepted |
| `Elapsed.CalculateTimeElapsed` | src/components/UserCard.jsx:67-78 | the counter text for `now - lastCommit ≥ 0` reads back as the broken-down difference, whose fields are in range and recombine into the elapsed whole seconds |
| `Elapsed.OneDayOneHourOneMinuteOneSecond` | src/components/UserCard.jsx:71-76 | 90,061,000 ms after the last commit the counter text is exactly `"1d 1h 1m 1s"` |
| `UserCardComponent.RepoLoadSettles` | src/components/UserCard.jsx:9-27 | the repository load starts with its loading flag up and ends with it down whatever the outcome; on success the list is the response, on failure it stays empty and the error holds the fixed message (non-ok) or the rejection's message |
| `UserCardComponent.SelectionStartResets` | src/components/UserCard.jsx:35-39 | starting a selection sets the selected repository, empties the commits, raises the loading flag, sets the error to null and the last commit date to null, and leaves the repositories, their loading flag and the counter text unchanged |
| `UserCardComponent.SelectionSucceeds` | src/components/UserCard.jsx:49-60 | after a successful selection the commits are the response, the loading flag is down, the last commit date is set if and only if the response is non-empty and then is the first commit's author date |
| `UserCardComponent.SelectionFails` | src/components/UserCard.jsx:45-60 | after a failed selection the error holds the fixed message (non-ok) or the rejection's message, the commits stay empty, the last commit date stays null and the loading flag is down |
| `UserCardComponent.NoTickWithoutCommitDate` | src/components/UserCard.jsx:65 | the elapsed-time effect computes nothing and changes nothing while the last commit date is null |
| `UserCardComponent.EmptyRepositoryStartsNoTick` | src/components/UserCard.jsx:50-65 | selecting a repository with no commits leaves no last commit date, so the elapsed-time effect changes nothing |
| `UserCardComponent.TickAfterSelectionShowsElapsed` | src/components/UserCard.jsx:49-80 | after a selection loads commits, a tick `diff` ms after the first commit's date sets the counter to a text that reads back as the broken-down `diff` and changes no other field |
| `UserCardComponent.CommitsUrl` | src/components/UserCard.jsx:42-44 | the commits request is the repos endpoint, then `{login}/{repoName}` as given, then `/commits` |
| `UserCardComponent.UserCard.constructor` | src/components/UserCard.jsx:4-11 | the initial state: no repositories, nothing selected, no commits, no last commit date, empty counter, repositories loading, commits not loading, error `""` |
| `UserCardComponent.UserCard.StartLoadRepos` | src/components/UserCard.jsx:17 | the repository load requests the user's `repos_url` |
| `UserCardComponent.UserCard.SettleRepos` | src/components/UserCard.jsx:16-27 | the new state is the repository-load settle of the old one: the list on success, the caught message on failure, and the loading flag down in both cases |
| `UserCardComponent.UserCard.StartSelection` | src/components/UserCard.jsx:34-44 | the new state is the selection start of the old one, and the request is `https://api.github.com/repos/{login}/{repoName}/commits` |
| `UserCardComponent.UserCard.SettleCommits` | src/components/UserCard.jsx:41-60 | the new state is the commit settle of the old one: the commits and, if non-empty, the first commit's date on success; the caught message on failure; the loading flag down in both cases |
| `UserCardComponent.UserCard.Tick` | src/components/UserCard.jsx:64-80 | one run of the elapsed-time effect: nothing without a last commit date, otherwise the counter becomes `calculateTimeElapsed(now - lastCommitDate)` |
| `UserCardComponent.UserCard.SelectRepo` | src/components/UserCard.jsx:34-61 | a selection that settles before anything else happens: the request URL, the loading flag down, the repositories kept, and the commits and last commit date or the error as the outcome dictates |
| `BuscadorComponent.SkipLeading` | src/components/Buscador.jsx:10 | the forward scan of `trim` stops at the first character it keeps: everything it passes is whitespace or a line terminator |
| `BuscadorComponent.SkipTrailing` | src/components/Buscador.jsx:10 | the backward scan of `trim` stops after the last character it keeps: everything it passes is whitespace or a line terminator |
| `BuscadorComponent.Trim` | src/components/Buscador.jsx:10 | `searchTerm.trim()` is the term with a whitespace prefix and suffix removed, starts and ends with kept characters, and is empty exactly when every character is ECMAScript whitespace or a line terminator |
| `BuscadorComponent.SearchRequest` | src/components/Buscador.jsx:10-20 | a request is issued exactly when the term is not blank, and its URL is `https://api.github.com/users/` followed by the untrimmed term |
| `BuscadorComponent.BlankSearchOnlySetsError` | src/components/Buscador.jsx:10-13 | a blank or whitespace-only term issues no request, sets the error to the validation message and changes nothing else, so a previous result stays |
| `BuscadorComponent.SearchStartClears` | src/components/Buscador.jsx:15-20 | a non-blank term clears the error and the result and requests `https://api.github.com/users/` followed by the untrimmed term |
| `BuscadorComponent.SearchSettles` | src/components/Buscador.jsx:18-29 | after a non-blank search settles: on success the result is the response and the error is empty; on a non-ok response the error is "Usuario no encontrado"; on a rejection it is the rejection's message; in both failure cases the result stays null |
| `BuscadorComponent.SearchEndsWithResultXorError` | src/components/Buscador.jsx:15-29 | after a non-blank search settles, a result is held exactly when no error shows, provided a rejection's message is non-empty |
| `BuscadorComponent.Buscador.constructor` | src/components/Buscador.jsx:5-7 | the initial state: empty term, no result, no error |
| `BuscadorComponent.Buscador.SetSearchTerm` | src/components/Buscador.jsx:41 | typing replaces the term and changes nothing else |
| `BuscadorComponent.Buscador.Submit` | src/components/Buscador.jsx:9-20 | the new state is the submit step of the old one, and the request is none for a blank term and the users endpoint with the raw term otherwise |
| `BuscadorComponent.Buscador.Settle` | src/components/Buscador.jsx:18-29 | the new state is the settle step of the old one: the result on success, the caught message on failure |
| `BuscadorComponent.Buscador.HandleSearch` | src/components/Buscador.jsx:9-30 | a whole search: a request is issued exactly when the term is not blank, a blank term only sets the validation message, and otherwise the state is the submit followed by the settle |

## Left out

- `fetch`, HTTP statuses beyond ok/not ok, and `response.json()` decoding are I/O. Their outcome is the `FetchOutcome` parameter of each settle step. A body that is not the expected shape (null, not an array) is not modelled.
- `new Date()`, parsing the ISO author date, and `toLocaleString` depend on the clock and the locale. Time is an integer millisecond parameter. An unparsable date (`Invalid Date`, which would render `NaN` fields) is not modelled.
- `setInterval`/`clearInterval` and React's `useEffect`/`useState` scheduling are runtime behaviour. A tick is one call of `Tick`, and when ticks happen is not modelled. The model keeps one fact about them: no computation happens while `lastCommitDate` is null.
- Interleaving of overlapping selections or searches, where a stale response overwrites newer state, is concurrency. The start and settle methods can be called in any order, but the lemmas about a start followed by its settle assume nothing happens in between.
- `Elapsed.Decompose`: requires a non-negative difference. For a commit date in the future, JavaScript's floor division and `%` give negative fields, and these are not modelled.
- `Elapsed.CalculateTimeElapsed`: requires `now ≥ lastCommit`, for the same reason.
- `UserCardComponent.UserCard.Tick`: requires a clock reading no earlier than the last commit date, for the same reason.
- JavaScript numbers are doubles, but integers are unbounded here. The source's `diff / 1000` and the other quotients are rounded floating-point divisions. For every whole `diff` below 2^53 ms, `Math.floor` of each quotient equals the integer quotient, and `%` on those integers is exact. Date differences stay far below that bound.
- JavaScript strings are UTF-16 code units, and the model uses Unicode characters. `trim` is modelled on the whitespace and line-terminator characters themselves.
- All JSX markup and styling, including the `user.name || "Usuario sin nombre"` fallback and the list rendering, is presentation. `src/components/Header.jsx` is static content.
