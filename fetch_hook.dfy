/**
 * The generic fetch hook of src/hooks/useFetch.ts. Each use owns a `Hook`
 * holding `data`, `loading` and `error`; a fetch first sets `loading` and
 * clears `error`, then applies the outcome of the request, and always ends
 * with `loading` cleared. What the request resolves to is a parameter.
 */
module FetchHook {
  import opened Optional
  import Text

  /** What the client's `get` settles with: a response, or a rejection carrying a message. */
  datatype Outcome<T> = Received(status: nat, payload: T) | Rejected(message: string)

  datatype FetchState<T> = FetchState(data: Option<T>, loading: bool, error: string)

  const UnknownError := "An unknown error occurred"

  function Initial<T>(): FetchState<T>
  {
    FetchState(None, false, "")
  }

  const StatusPrefix := "Request failed with status "

  /** The error raised for a response whose status is not 200: the status can be read back from it. */
  function StatusError(status: nat): (m: string)
    ensures |m| > |StatusPrefix| && m[..|StatusPrefix|] == StatusPrefix
    ensures Text.IsDigits(m[|StatusPrefix|..]) && Text.ParseNat(m[|StatusPrefix|..]) == status
  {
    Text.NumberAfterPrefix(StatusPrefix, status);
    StatusPrefix + Text.NatToString(status)
  }

  predicate Succeeded<T>(o: Outcome<T>)
  {
    o.Received? && o.status == 200
  }

  /** The message a failed fetch leaves in `error`: never empty, so an error always shows. */
  function FailureMessage<T>(o: Outcome<T>): (m: string)
    requires !Succeeded(o)
    ensures m != ""
    ensures o.Received? ==> m == StatusError(o.status)
    ensures o.Rejected? && o.message != "" ==> m == o.message
    ensures o.Rejected? && o.message == "" ==> m == UnknownError
  {
    match o
    case Received(status, _) => StatusError(status)
    case Rejected(message) => if message != "" then message else UnknownError
  }

  /**
   * The state after one complete fetch from state `s`. Loading is over, the
   * error is empty exactly when the request succeeded, and a failure keeps
   * whatever data an earlier fetch left.
   */
  function Fetched<T>(s: FetchState<T>, o: Outcome<T>): (r: FetchState<T>)
    ensures !r.loading
    ensures r.error == "" <==> Succeeded(o)
    ensures r.data == if Succeeded(o) then Some(o.payload) else s.data
    ensures o.Received? && o.status != 200 ==> r.error == StatusError(o.status)
    ensures o.Rejected? && o.message != "" ==> r.error == o.message
    ensures o.Rejected? && o.message == "" ==> r.error == UnknownError
  {
    if Succeeded(o) then FetchState(Some(o.payload), false, "")
    else FetchState(s.data, false, FailureMessage(o))
  }

  /** The state once a fetch has started: loading, the error cleared, the data kept. */
  function Started<T>(s: FetchState<T>): (r: FetchState<T>)
    ensures r.loading && r.error == "" && r.data == s.data
  {
    FetchState(s.data, true, "")
  }

  /**
   * The state once a fetch's outcome arrives, whatever happened since it
   * started: a success sets the data and leaves the error alone, a failure
   * sets the error and leaves the data alone; loading is cleared.
   */
  function Settled<T>(s: FetchState<T>, o: Outcome<T>): (r: FetchState<T>)
    ensures !r.loading
    ensures r.data == if Succeeded(o) then Some(o.payload) else s.data
    ensures r.error == if Succeeded(o) then s.error else FailureMessage(o)
  {
    if Succeeded(o) then FetchState(Some(o.payload), false, s.error)
    else FetchState(s.data, false, FailureMessage(o))
  }

  /** A fetch on its own is its start followed by its settlement. */
  lemma FetchedIsStartThenSettle<T>(s: FetchState<T>, o: Outcome<T>)
    ensures Fetched(s, o) == Settled(Started(s), o)
  {
  }

  /**
   * Two fetches of one hook that both start before either settles: `early`
   * settles first, `late` last. Starting twice leaves the same state as
   * starting once. The error is empty only when both succeed, and a
   * failure's message is never cleared by the other fetch's success.
   */
  function Overlapped<T>(s: FetchState<T>, early: Outcome<T>, late: Outcome<T>): (r: FetchState<T>)
    ensures !r.loading
    ensures r.error == "" <==> Succeeded(early) && Succeeded(late)
    ensures !Succeeded(late) ==> r.error == FailureMessage(late)
    ensures !Succeeded(early) && Succeeded(late) ==> r.error == FailureMessage(early)
    ensures r.data == if Succeeded(late) then Some(late.payload)
                      else if Succeeded(early) then Some(early.payload) else s.data
  {
    Settled(Settled(Started(s), early), late)
  }

  /**
   * With one failing and one succeeding fetch in flight together, the
   * failure's message stays in either settle order, while one fetch after
   * the other would end with no error.
   */
  lemma OverlapKeepsFailure<T>(s: FetchState<T>, bad: Outcome<T>, good: Outcome<T>)
    requires !Succeeded(bad) && Succeeded(good)
    ensures Overlapped(s, bad, good).error == FailureMessage(bad)
    ensures Overlapped(s, good, bad).error == FailureMessage(bad)
    ensures Overlapped(s, bad, good).data == Overlapped(s, good, bad).data == Some(good.payload)
    ensures Fetched(Fetched(s, bad), good).error == ""
  {
  }

  /** Only the last of several fetches decides the error; data survives failed fetches. */
  lemma FetchedTwice<T>(s: FetchState<T>, first: Outcome<T>, second: Outcome<T>)
    ensures Fetched(Fetched(s, first), second).error == Fetched(s, second).error
    ensures !Succeeded(second) ==> Fetched(Fetched(s, first), second).data == Fetched(s, first).data
  {
  }

  class Hook<T> {
    /** The address the hook is bound to; "" means no fetch. */
    var url: string
    var data: Option<T>
    var loading: bool
    var error: string

    function State(): FetchState<T>
      reads this
    {
      FetchState(data, loading, error)
    }

    /** Mounting: the initial state, then a fetch when the address is not empty. */
    constructor (url: string, outcome: Outcome<T>)
      ensures this.url == url
      ensures State() == if url == "" then Initial() else Fetched(Initial(), outcome)
    {
      this.url := url;
      data, loading, error := None, false, "";
      new;
      if url != "" {
        Refetch(outcome);
      }
    }

    /** A hook bound to "": it stays in the initial state and makes no request. */
    constructor Idle()
      ensures url == "" && State() == Initial()
    {
      url := "";
      data, loading, error := None, false, "";
    }

    /** The first step of a fetch: data is kept. */
    method Start()
      modifies this
      ensures url == old(url) && State() == Started(old(State()))
    {
      loading := true;
      error := "";
    }

    /** The last step of a fetch: store the payload or the error, then clear loading. */
    method Settle(o: Outcome<T>)
      modifies this
      ensures url == old(url) && State() == Settled(old(State()), o)
    {
      if Succeeded(o) {
        data := Some(o.payload);
      } else {
        error := FailureMessage(o);
      }
      loading := false;
    }

    /** `fetchData`, also handed to the caller as `refetch`. */
    method Refetch(o: Outcome<T>)
      modifies this
      ensures url == old(url)
      ensures State() == Fetched(old(State()), o)
    {
      Start();
      Settle(o);
    }

    /** The effect on `[url]`: a fetch when the address changed to a non-empty one, nothing otherwise. */
    method SetUrl(u: string, o: Outcome<T>)
      modifies this
      ensures url == u
      ensures State() == if u == old(url) || u == "" then old(State()) else Fetched(old(State()), o)
    {
      var fetches := Rebind(u);
      if fetches {
        Refetch(o);
      }
    }

    /**
     * The address change alone: the hook is bound to `u` and reports whether
     * the `[url]` effect starts a fetch, which it does when the address
     * changed to a non-empty one.
     */
    method Rebind(u: string) returns (fetches: bool)
      modifies this
      ensures url == u && State() == old(State())
      ensures fetches <==> u != old(url) && u != ""
    {
      fetches := u != url && u != "";
      url := u;
    }
  }
}
