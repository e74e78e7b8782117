/**
 * The user search: a text field and a submit handler that looks the login
 * up and keeps either the user record or an error message.
 *
 * `handleSearch` is split at its `await` like the browser's handlers: a
 * submit step (validation, reset, the request it issues) and a settle step
 * (the `try`/`catch` after the response). Pure transitions on `SearchState`
 * specify both; the class methods are proved to perform them.
 */
module BuscadorComponent {
  import opened Wrappers
  import opened GithubApi

  const BlankMessage: string := "Por favor, ingresa un nombre de usuario."
  const NotFoundMessage: string := "Usuario no encontrado"
  const UsersEndpoint: string := "https://api.github.com/users/"

  /**
   * The characters `String.prototype.trim` removes: ECMAScript's WhiteSpace
   * (tab, vertical tab, form feed, space, no-break space, byte order mark and
   * the other space separators) and LineTerminator (LF, CR, U+2028, U+2029).
   */
  predicate IsTrimmable(c: char) {
    var n := c as int;
    n == 0x09 || n == 0x0B || n == 0x0C || n == 0x20 || n == 0xA0 || n == 0xFEFF
    || n == 0x1680 || (0x2000 <= n <= 0x200A) || n == 0x202F || n == 0x205F || n == 0x3000
    || n == 0x0A || n == 0x0D || n == 0x2028 || n == 0x2029
  }

  /** A term made only of trimmable characters, the empty term included. */
  predicate IsBlank(s: string) {
    forall i :: 0 <= i < |s| ==> IsTrimmable(s[i])
  }

  /**
   * Scanning forward from `k`: the first index at or after `k` whose
   * character `trim` keeps, or `|s|` if there is none.
   */
  function SkipLeading(s: string, k: nat): (i: nat)
    requires k <= |s|
    ensures k <= i <= |s|
    ensures forall m :: k <= m < i ==> IsTrimmable(s[m])
    ensures i < |s| ==> !IsTrimmable(s[i])
    decreases |s| - k
  {
    if k < |s| && IsTrimmable(s[k]) then SkipLeading(s, k + 1) else k
  }

  /**
   * Scanning backward from `j`, but not below `lo`: the end of the part
   * `trim` keeps, that is, one past its last kept character, or `lo`.
   */
  function SkipTrailing(s: string, lo: nat, j: nat): (e: nat)
    requires lo <= j <= |s|
    ensures lo <= e <= j
    ensures forall m :: e <= m < j ==> IsTrimmable(s[m])
    ensures e > lo ==> !IsTrimmable(s[e - 1])
    decreases j
  {
    if j > lo && IsTrimmable(s[j - 1]) then SkipTrailing(s, lo, j - 1) else j
  }

  /**
   * `s.trim()`: the part of `s` between a trimmable prefix and a trimmable
   * suffix, which is empty or starts and ends with characters `trim` keeps;
   * it is empty exactly when `s` is blank.
   */
  function Trim(s: string): (r: string)
    ensures var i := SkipLeading(s, 0);
      i + |r| <= |s| && r == s[i..i + |r|]
      && (forall m :: 0 <= m < i ==> IsTrimmable(s[m]))
      && (forall m :: i + |r| <= m < |s| ==> IsTrimmable(s[m]))
    ensures r != [] ==> !IsTrimmable(r[0]) && !IsTrimmable(r[|r| - 1])
    ensures r == [] <==> IsBlank(s)
  {
    var i := SkipLeading(s, 0);
    s[i..SkipTrailing(s, i, |s|)]
  }

  /** The component's state fields, one per `useState`. */
  datatype SearchState = SearchState(searchTerm: string, result: Option<User>, error: string)

  /** The state on first render: empty field, no result, no error. */
  function Initial(): SearchState {
    SearchState("", None, "")
  }

  /** The request a submit issues: none for a blank term, else the users endpoint with the raw term. */
  function SearchRequest(searchTerm: string): (r: Option<string>)
    ensures r.Some? <==> !IsBlank(searchTerm)
    ensures r.Some? ==>
      |r.value| == |UsersEndpoint| + |searchTerm|
      && r.value[..|UsersEndpoint|] == UsersEndpoint && r.value[|UsersEndpoint|..] == searchTerm
  {
    if Trim(searchTerm) == [] then None else Some(UsersEndpoint + searchTerm)
  }

  /** The synchronous part of `handleSearch`, before its `await`. */
  function Submitted(s: SearchState): SearchState {
    if Trim(s.searchTerm) == [] then s.(error := BlankMessage)
    else s.(error := "", result := None)
  }

  /** The rest of `handleSearch` after its `await`. */
  function Settled(s: SearchState, outcome: FetchOutcome<User>): SearchState {
    match outcome
    case Ok(data) => s.(result := Some(data))
    case _ => s.(error := CaughtMessage(outcome, NotFoundMessage))
  }

  /**
   * A blank or whitespace-only term issues no request and shows the
   * validation message; the previous result and the term are untouched.
   */
  lemma BlankSearchOnlySetsError(s: SearchState)
    requires IsBlank(s.searchTerm)
    ensures SearchRequest(s.searchTerm) == None
    ensures Submitted(s) == s.(error := BlankMessage)
  {
  }

  /**
   * A term with a non-whitespace character clears the error and the result
   * and requests the users endpoint followed by the term as typed, untrimmed.
   */
  lemma SearchStartClears(s: SearchState)
    requires !IsBlank(s.searchTerm)
    ensures SearchRequest(s.searchTerm) == Some(UsersEndpoint + s.searchTerm)
    ensures Submitted(s) == s.(error := "", result := None)
  {
  }

  /**
   * A non-blank search that settles before anything else happens: on success
   * the result is the response and no error shows; on a non-ok response the
   * error is the not-found message, on a rejection its message, and in both
   * the result stays empty.
   */
  lemma SearchSettles(s: SearchState, outcome: FetchOutcome<User>)
    requires !IsBlank(s.searchTerm)
    ensures var t := Settled(Submitted(s), outcome);
      t.searchTerm == s.searchTerm
      && (outcome.Ok? ==> t.result == Some(outcome.data) && t.error == "")
      && (outcome.NotOk? ==> t.result == None && t.error == NotFoundMessage)
      && (outcome.Thrown? ==> t.result == None && t.error == outcome.message)
  {
  }

  /**
   * After a non-blank search settles, exactly one of "a result is held" and
   * "an error shows" holds, provided a rejection carries a non-empty message.
   */
  lemma SearchEndsWithResultXorError(s: SearchState, outcome: FetchOutcome<User>)
    requires !IsBlank(s.searchTerm)
    requires outcome.Thrown? ==> outcome.message != ""
    ensures var t := Settled(Submitted(s), outcome);
      t.result.Some? <==> t.error == ""
  {
    SearchSettles(s, outcome);
  }

  /** The search component's mutable state. */
  class Buscador {
    var searchTerm: string
    var result: Option<User>
    var error: string

    /** The current values of the state fields. */
    function State(): SearchState
      reads this
    {
      SearchState(searchTerm, result, error)
    }

    constructor ()
      ensures State() == Initial()
    {
      searchTerm := "";
      result := None;
      error := "";
    }

    /** The input's change handler: the field holds what was typed, nothing else changes. */
    method SetSearchTerm(value: string)
      modifies this
      ensures State() == old(State()).(searchTerm := value)
    {
      searchTerm := value;
    }

    /** `handleSearch` up to its `await`; returns the request issued, if any. */
    method Submit() returns (request: Option<string>)
      modifies this
      ensures State() == Submitted(old(State()))
      ensures request == SearchRequest(old(searchTerm))
    {
      if Trim(searchTerm) == [] {
        error := BlankMessage;
        return None;
      }
      error := "";
      result := None;
      request := Some(UsersEndpoint + searchTerm);
    }

    /** `handleSearch` after its `await`. */
    method Settle(outcome: FetchOutcome<User>)
      modifies this
      ensures State() == Settled(old(State()), outcome)
    {
      match outcome {
        case Ok(data) =>
          result := Some(data);
        case NotOk =>
          error := NotFoundMessage;
        case Thrown(message) =>
          error := message;
      }
    }

    /**
     * A whole search: a blank term ends after the validation message with no
     * request; otherwise the request settles with `outcome` before anything
     * else happens.
     */
    method HandleSearch(outcome: FetchOutcome<User>) returns (request: Option<string>)
      modifies this
      ensures request.Some? <==> !IsBlank(old(searchTerm))
      ensures request.Some? ==> request.value == UsersEndpoint + old(searchTerm)
      ensures request.None? ==> State() == old(State()).(error := BlankMessage)
      ensures request.Some? ==> State() == Settled(Submitted(old(State())), outcome)
    {
      request := Submit();
      if request.Some? {
        Settle(outcome);
      }
    }
  }
}
