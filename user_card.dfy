/**
 * The repository and commit browser shown for one GitHub user.
 *
 * Each asynchronous handler is split at its `await`: a start step that makes
 * the synchronous state updates and returns the request it issues, and a
 * settle step that receives the request's outcome and runs the rest of the
 * `try`/`catch`/`finally`. The state changes are specified by pure
 * transition functions on `CardState`; the class methods are proved to
 * perform exactly those transitions, and the lemmas state what the
 * transitions promise.
 */
module UserCardComponent {
  import opened Wrappers
  import opened GithubApi
  import Elapsed

  const ReposErrorMessage: string := "Error al obtener los repositorios"
  const CommitsErrorMessage: string := "Error al obtener los commits"
  const ReposEndpoint: string := "https://api.github.com/repos/"
  const CommitsSuffix: string := "/commits"

  /** The component's state fields, one per `useState`. */
  datatype CardState = CardState(
    repos: seq<Repo>,
    selectedRepo: Option<string>,
    commits: seq<Commit>,
    lastCommitDate: Option<int>,
    timeElapsed: string,
    loadingRepos: bool,
    loadingCommits: bool,
    // starts as "" and is later set to null by a repository selection
    error: Option<string>)

  /** The state on first render. */
  function Initial(): CardState {
    CardState([], None, [], None, "", true, false, Some(""))
  }

  /** Whether an error paragraph is rendered: `error` is neither null nor "". */
  predicate ShowsError(s: CardState) {
    s.error.Some? && s.error.value != ""
  }

  /**
   * The commits endpoint of a repository of `login`: the repos endpoint, then
   * the path "{login}/{repoName}" exactly as given, then "/commits".
   */
  function CommitsUrl(login: string, repoName: string): (url: string)
    ensures |url| == |ReposEndpoint| + |login| + 1 + |repoName| + |CommitsSuffix|
    ensures url[..|ReposEndpoint|] == ReposEndpoint
    ensures url[|ReposEndpoint|..|url| - |CommitsSuffix|] == login + "/" + repoName
    ensures url[|url| - |CommitsSuffix|..] == CommitsSuffix
  {
    ReposEndpoint + login + "/" + repoName + CommitsSuffix
  }

  /** The settle step of the repository load: the rest of `fetchRepos` after its `await`. */
  function ReposSettled(s: CardState, outcome: FetchOutcome<seq<Repo>>): CardState {
    match outcome
    case Ok(data) => s.(repos := data, loadingRepos := false)
    case _ => s.(error := Some(CaughtMessage(outcome, ReposErrorMessage)), loadingRepos := false)
  }

  /** The synchronous part of `handleRepoSelect`, before its `await`. */
  function SelectionStarted(s: CardState, repoName: string): CardState {
    s.(selectedRepo := Some(repoName), commits := [], loadingCommits := true,
       error := None, lastCommitDate := None)
  }

  /** The settle step of `handleRepoSelect`: the rest of it after its `await`. */
  function CommitsSettled(s: CardState, outcome: FetchOutcome<seq<Commit>>): CardState {
    match outcome
    case Ok(data) =>
      var withCommits := s.(commits := data);
      var dated := if |data| > 0 then withCommits.(lastCommitDate := Some(data[0].authorDate)) else withCommits;
      dated.(loadingCommits := false)
    case _ => s.(error := Some(CaughtMessage(outcome, CommitsErrorMessage)), loadingCommits := false)
  }

  /** Whether a tick may run at `now`: there is no last commit date, or it is not in the future. */
  predicate CanTick(s: CardState, now: int) {
    s.lastCommitDate.Some? ==> now >= s.lastCommitDate.value
  }

  /**
   * One evaluation of the elapsed-time effect at clock reading `now`: nothing
   * while there is no last commit date, otherwise the counter is recomputed.
   */
  function Ticked(s: CardState, now: int): CardState
    requires CanTick(s, now)
  {
    match s.lastCommitDate
    case None => s
    case Some(date) => s.(timeElapsed := Elapsed.CalculateTimeElapsed(now, date))
  }

  /**
   * The repository load always ends with the loading flag down; on success the
   * list is the response, otherwise the list stays empty and the error slot
   * holds the caught message.
   */
  lemma RepoLoadSettles(outcome: FetchOutcome<seq<Repo>>)
    ensures Initial().loadingRepos
    ensures !ReposSettled(Initial(), outcome).loadingRepos
    ensures outcome.Ok? ==> ReposSettled(Initial(), outcome).repos == outcome.data
    ensures outcome.NotOk? ==>
      ReposSettled(Initial(), outcome).repos == [] && ReposSettled(Initial(), outcome).error == Some(ReposErrorMessage)
    ensures outcome.Thrown? ==>
      ReposSettled(Initial(), outcome).repos == [] && ReposSettled(Initial(), outcome).error == Some(outcome.message)
  {
  }

  /**
   * Starting a selection shows the new repository with an empty commit list,
   * the loading flag up, no error and no last commit date, and leaves the
   * repository list alone.
   */
  lemma SelectionStartResets(s: CardState, repoName: string)
    ensures var t := SelectionStarted(s, repoName);
      t.selectedRepo == Some(repoName) && t.commits == [] && t.loadingCommits
      && t.error == None && !ShowsError(t) && t.lastCommitDate == None
      && t.repos == s.repos && t.loadingRepos == s.loadingRepos && t.timeElapsed == s.timeElapsed
  {
  }

  /**
   * A selection whose commit request succeeds shows exactly the response; the
   * last commit date is set if and only if the response is non-empty, and then
   * it is the author date of its first commit.
   */
  lemma SelectionSucceeds(s: CardState, repoName: string, data: seq<Commit>)
    ensures var t := CommitsSettled(SelectionStarted(s, repoName), Ok(data));
      t.commits == data && !t.loadingCommits && t.error == None
      && (t.lastCommitDate.Some? <==> |data| > 0)
      && (|data| > 0 ==> t.lastCommitDate == Some(data[0].authorDate))
      && t.selectedRepo == Some(repoName) && t.repos == s.repos
  {
  }

  /**
   * A selection whose commit request fails shows the caught message, an empty
   * commit list and no last commit date, with the loading flag down.
   */
  lemma SelectionFails(s: CardState, repoName: string, outcome: FetchOutcome<seq<Commit>>)
    requires !outcome.Ok?
    ensures var t := CommitsSettled(SelectionStarted(s, repoName), outcome);
      t.error == Some(if outcome.NotOk? then CommitsErrorMessage else outcome.message)
      && t.commits == [] && t.lastCommitDate == None && !t.loadingCommits
      && t.selectedRepo == Some(repoName) && t.repos == s.repos
  {
  }

  /** No elapsed time is computed while there is no last commit date. */
  lemma NoTickWithoutCommitDate(s: CardState, now: int)
    requires s.lastCommitDate == None
    ensures Ticked(s, now) == s
  {
  }

  /**
   * Selecting a repository with no commits leaves no last commit date, so the
   * elapsed-time effect changes nothing however often it runs.
   */
  lemma EmptyRepositoryStartsNoTick(s: CardState, repoName: string, now: int)
    ensures var t := CommitsSettled(SelectionStarted(s, repoName), Ok([]));
      t.lastCommitDate == None && Ticked(t, now) == t
  {
  }

  /**
   * Once a selection has loaded commits, a tick `diff` milliseconds after the
   * newest commit's date shows a counter that reads back as the broken-down
   * `diff`, and changes no other field.
   */
  lemma TickAfterSelectionShowsElapsed(s: CardState, repoName: string, data: seq<Commit>, diff: int)
    requires |data| > 0 && diff >= 0
    ensures var t := CommitsSettled(SelectionStarted(s, repoName), Ok(data));
      var u := Ticked(t, data[0].authorDate + diff);
      Elapsed.ParseFormatted(u.timeElapsed) == Some(Elapsed.Decompose(diff))
      && u == t.(timeElapsed := u.timeElapsed)
  {
    var t := CommitsSettled(SelectionStarted(s, repoName), Ok(data));
    assert t.lastCommitDate == Some(data[0].authorDate);
  }

  /** The component's mutable state for one `user`. */
  class UserCard {
    const user: User
    var repos: seq<Repo>
    var selectedRepo: Option<string>
    var commits: seq<Commit>
    var lastCommitDate: Option<int>
    var timeElapsed: string
    var loadingRepos: bool
    var loadingCommits: bool
    var error: Option<string>

    /** The current values of the state fields. */
    function State(): CardState
      reads this
    {
      CardState(repos, selectedRepo, commits, lastCommitDate, timeElapsed, loadingRepos, loadingCommits, error)
    }

    /** First render: empty lists, nothing selected, repositories loading. */
    constructor (user: User)
      ensures this.user == user
      ensures State() == Initial()
    {
      this.user := user;
      repos := [];
      selectedRepo := None;
      commits := [];
      lastCommitDate := None;
      timeElapsed := "";
      loadingRepos := true;
      loadingCommits := false;
      error := Some("");
    }

    /** The request the repository load issues on mount: the user's repos endpoint. */
    method StartLoadRepos() returns (url: string)
      ensures url == user.reposUrl
    {
      url := user.reposUrl;
    }

    /** The repository load after its `await`. */
    method SettleRepos(outcome: FetchOutcome<seq<Repo>>)
      modifies this
      ensures State() == ReposSettled(old(State()), outcome)
    {
      match outcome {
        case Ok(data) =>
          repos := data;
        case NotOk =>
          error := Some(ReposErrorMessage);
        case Thrown(message) =>
          error := Some(message);
      }
      loadingRepos := false;
    }

    /** `handleRepoSelect(repoName)` up to its `await`; returns the commits request. */
    method StartSelection(repoName: string) returns (url: string)
      modifies this
      ensures State() == SelectionStarted(old(State()), repoName)
      ensures url == CommitsUrl(user.login, repoName)
    {
      selectedRepo := Some(repoName);
      commits := [];
      loadingCommits := true;
      error := None;
      lastCommitDate := None;
      url := ReposEndpoint + user.login + "/" + repoName + CommitsSuffix;
    }

    /** `handleRepoSelect` after its `await`. */
    method SettleCommits(outcome: FetchOutcome<seq<Commit>>)
      modifies this
      ensures State() == CommitsSettled(old(State()), outcome)
    {
      match outcome {
        case Ok(data) =>
          commits := data;
          if |data| > 0 {
            lastCommitDate := Some(data[0].authorDate);
          }
        case NotOk =>
          error := Some(CommitsErrorMessage);
        case Thrown(message) =>
          error := Some(message);
      }
      loadingCommits := false;
    }

    /** One run of `calculateTimeElapsed` at clock reading `now`, if the effect is active. */
    method Tick(now: int)
      requires CanTick(State(), now)
      modifies this
      ensures State() == Ticked(old(State()), now)
    {
      if lastCommitDate.Some? {
        timeElapsed := Elapsed.CalculateTimeElapsed(now, lastCommitDate.value);
      }
    }

    /**
     * A selection whose request settles before anything else happens; the
     * commit list and last commit date end as the response dictates.
     */
    method SelectRepo(repoName: string, outcome: FetchOutcome<seq<Commit>>) returns (url: string)
      modifies this
      ensures url == CommitsUrl(user.login, repoName)
      ensures State() == CommitsSettled(SelectionStarted(old(State()), repoName), outcome)
      ensures !loadingCommits && selectedRepo == Some(repoName) && repos == old(repos)
      ensures outcome.Ok? ==> commits == outcome.data && (lastCommitDate.Some? <==> |outcome.data| > 0)
      ensures !outcome.Ok? ==> commits == [] && lastCommitDate == None && error == Some(CaughtMessage(outcome, CommitsErrorMessage))
    {
      url := StartSelection(repoName);
      SettleCommits(outcome);
    }
  }
}
