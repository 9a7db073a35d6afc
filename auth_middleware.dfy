/** The `auth` route middleware: let a navigation through or send it to the
    login page with the original path attached.

    On the client it first waits, polling every 50 ms, until the auth store
    reports that it is initialized. The polls are modelled by the sequence of
    snapshots they read; the decision is taken at the first snapshot that is
    initialized, and a sequence with none leaves the guard still waiting.
    `encode` stands for encodeURIComponent. */
module AuthMiddleware {
  import opened Wrappers
  import opened Auth

  /** Whether the middleware runs during server rendering or in the browser. */
  datatype Side = Server | Client

  datatype Route = Route(path: string)

  datatype Decision = Proceed | Redirect(url: string) | Waiting

  const LoginPrefix := "/login?redirect="

  /** `/login?redirect=<encoded path>`. */
  function LoginUrl(path: string, encode: string -> string): (url: string)
    ensures |url| >= |LoginPrefix|
    ensures url[..|LoginPrefix|] == LoginPrefix && url[|LoginPrefix|..] == encode(path)
  {
    LoginPrefix + encode(path)
  }

  /** The index of the first poll that sees an initialized store. */
  function FirstReady(polls: seq<AuthSnapshot>): (k: Option<nat>)
    ensures k.Some? ==> k.value < |polls| && polls[k.value].isInitialized
    ensures k.Some? ==> forall j :: 0 <= j < k.value ==> !polls[j].isInitialized
    ensures k.None? <==> forall j :: 0 <= j < |polls| ==> !polls[j].isInitialized
  {
    if polls == [] then None
    else if polls[0].isInitialized then Some(0)
    else
      match FirstReady(polls[1..])
      case None => None
      case Some(k) => Some(k + 1)
  }

  /** The guard's decision, from where it runs, the snapshots its polls read
      and the destination. The route navigated from takes no part in it. */
  function Decide(side: Side, polls: seq<AuthSnapshot>, to: Route, encode: string -> string): (d: Decision)
    ensures side.Server? ==> d == Redirect(LoginUrl(to.path, encode))
    ensures d.Redirect? ==> d.url == LoginUrl(to.path, encode)
    ensures d == Waiting <==> side.Client? && forall j :: 0 <= j < |polls| ==> !polls[j].isInitialized
    ensures d == Proceed <==>
      side.Client? && exists k :: 0 <= k < |polls| && polls[k].isInitialized && polls[k].isAuthenticated
                                  && forall j :: 0 <= j < k ==> !polls[j].isInitialized
  {
    match side
    case Server => Redirect(LoginUrl(to.path, encode))
    case Client =>
      match FirstReady(polls)
      case None => Waiting
      case Some(k) =>
        if polls[k].isAuthenticated then Proceed
        else
          assert forall k' :: (0 <= k' < |polls| && polls[k'].isInitialized
                  && forall j :: 0 <= j < k' ==> !polls[j].isInitialized) ==> k' == k;
          Redirect(LoginUrl(to.path, encode))
  }

  /** The middleware itself: the server branch redirects at once; the client
      branch polls until initialized, then checks authentication. */
  method Guard(side: Side, to: Route, from: Route, polls: seq<AuthSnapshot>, encode: string -> string)
    returns (d: Decision)
    ensures d == Decide(side, polls, to, encode)
  {
    if side.Server? {
      return Redirect(LoginUrl(to.path, encode));
    }
    var i := 0;
    while i < |polls| && !polls[i].isInitialized
      invariant 0 <= i <= |polls|
      invariant forall j :: 0 <= j < i ==> !polls[j].isInitialized
    {
      i := i + 1;
    }
    if i == |polls| {
      return Waiting;
    }
    if !polls[i].isAuthenticated {
      return Redirect(LoginUrl(to.path, encode));
    }
    d := Proceed;
  }

  /** As written, the auth store has no `isInitialized`, so the client-side
      guard never decides, however many polls it makes and whatever auth
      events change the store between them. */
  lemma AsWrittenGuardNeverDecides(stores: seq<AuthStore>, to: Route, encode: string -> string)
    ensures Decide(Client, seq(|stores|, i requires 0 <= i < |stores| reads stores => stores[i].PollAsWritten()),
                   to, encode) == Waiting
  {
  }

  /** With the flag that Initialize sets, the first poll after initialization
      decides: proceed when signed in, else redirect to the login page. */
  lemma GuardDecidesOnceInitialized(store: AuthStore, later: seq<AuthSnapshot>, to: Route, encode: string -> string)
    requires store.isInitialized
    ensures Decide(Client, [store.Poll()] + later, to, encode)
            == if store.IsAuthenticated() then Proceed else Redirect(LoginUrl(to.path, encode))
  {
  }
}
