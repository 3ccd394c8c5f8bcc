/** The reconnecting WebSocket client (packages/core/api/ws-client.ts): connection
    attempts, backoff, rejected credentials and reconnect callbacks. */
module Reconnect {
  import opened IssueTypes

  datatype ConnectionState = Connecting | Connected | Degraded | Unauthorized

  const RECONNECT_BASE_DELAY_MS := 1000.0
  const RECONNECT_MAX_DELAY_MS := 30000.0
  const DEGRADED_AFTER_ATTEMPTS: nat := 8
  const DEGRADED_RECONNECT_DELAY_MS := 120000.0

  // Delays ------------------------------------------------------------------------

  function Pow2(n: nat): real {
    if n == 0 then 1.0 else 2.0 * Pow2(n - 1)
  }

  function Min(a: real, b: real): real {
    if a <= b then a else b
  }

  /** Math.round */
  function Round(x: real): int {
    (x + 0.5).Floor
  }

  /** A fifth more or less. */
  function Jittered(delay: real, random: real): real {
    delay + delay * 0.2 * (random * 2.0 - 1.0)
  }

  /** The delay before the next attempt; random is Math.random(). */
  function Delay(attempt: nat, random: real): int
    requires attempt >= 1
  {
    if attempt >= DEGRADED_AFTER_ATTEMPTS then
      Round(Jittered(DEGRADED_RECONNECT_DELAY_MS, random))
    else
      Round(Min(Jittered(Backoff(attempt), random), RECONNECT_MAX_DELAY_MS))
  }

  lemma NonNegative(a: real, b: real)
    requires a >= 0.0 && b >= 0.0
    ensures a * b >= 0.0
  {
  }

  lemma Jitter(delay: real, random: real)
    requires 0.0 <= random < 1.0 && delay >= 0.0
    ensures delay * 0.8 <= Jittered(delay, random) <= delay * 1.2
  {
    var share := delay * 0.2;
    var turn := random * 2.0 - 1.0;
    NonNegative(share, turn + 1.0);
    NonNegative(share, 1.0 - turn);
    assert share * turn + share >= 0.0 && share - share * turn >= 0.0;
    assert Jittered(delay, random) == delay + share * turn;
  }

  lemma {:induction false} Pow2IsAtLeastOne(n: nat)
    ensures Pow2(n) >= 1.0
  {
    if n == 0 {
    } else {
      Pow2IsAtLeastOne(n - 1);
    }
  }

  lemma GrowsAboveBase(base: real, factor: real)
    requires base >= 0.0 && factor >= 1.0
    ensures base * factor >= base
  {
    assert base * (factor - 1.0) >= 0.0;
  }

  /** The backoff before jitter. */
  function Backoff(attempt: nat): (delay: real)
    requires attempt >= 1
    ensures RECONNECT_BASE_DELAY_MS <= delay <= RECONNECT_MAX_DELAY_MS
  {
    Pow2IsAtLeastOne(attempt - 1);
    GrowsAboveBase(RECONNECT_BASE_DELAY_MS, Pow2(attempt - 1));
    Min(RECONNECT_BASE_DELAY_MS * Pow2(attempt - 1), RECONNECT_MAX_DELAY_MS)
  }

  lemma DelayBounds(attempt: nat, random: real)
    requires attempt >= 1 && 0.0 <= random < 1.0
    ensures attempt < DEGRADED_AFTER_ATTEMPTS ==> 800 <= Delay(attempt, random) <= 30000
    ensures attempt >= DEGRADED_AFTER_ATTEMPTS ==> 96000 <= Delay(attempt, random) <= 144000
  {
    if attempt >= DEGRADED_AFTER_ATTEMPTS {
      Jitter(DEGRADED_RECONNECT_DELAY_MS, random);
    } else {
      Jitter(Backoff(attempt), random);
    }
  }

  /** The backoff starts at a second and doubles with every attempt up to its maximum. */
  lemma BackoffDoubles(attempt: nat)
    requires attempt >= 1
    ensures Backoff(1) == 1000.0
    ensures Backoff(attempt + 1) == Min(2.0 * Backoff(attempt), 30000.0)
  {
    assert Pow2(attempt) == 2.0 * Pow2(attempt - 1);
    assert Pow2(0) == 1.0;
  }

  lemma RoundIsNear(x: real, y: real)
    requires x <= y
    ensures x - 0.5 <= Round(x) as real <= x + 0.5 && Round(x) <= Round(y)
  {
  }

  /** What a delay is meant to be. */
  function Meant(attempt: nat): real
    requires attempt >= 1
  {
    if attempt >= DEGRADED_AFTER_ATTEMPTS then DEGRADED_RECONNECT_DELAY_MS else Backoff(attempt)
  }

  /** The delay before it is rounded. */
  function Unrounded(attempt: nat, random: real): real
    requires attempt >= 1
  {
    if attempt >= DEGRADED_AFTER_ATTEMPTS then Jittered(Meant(attempt), random)
    else Min(Jittered(Meant(attempt), random), RECONNECT_MAX_DELAY_MS)
  }

  lemma CappedBetween(m: real, spread: real)
    requires 0.0 <= m <= RECONNECT_MAX_DELAY_MS && m * 0.8 <= spread <= m * 1.2
    ensures m * 0.8 <= Min(spread, RECONNECT_MAX_DELAY_MS) <= m * 1.2
  {
  }

  lemma UnroundedSpreads(attempt: nat, a: real, b: real)
    requires attempt >= 1 && 0.0 <= a <= b < 1.0
    ensures Delay(attempt, a) == Round(Unrounded(attempt, a))
    ensures Unrounded(attempt, a) <= Unrounded(attempt, b)
    ensures Meant(attempt) * 0.8 <= Unrounded(attempt, a) <= Meant(attempt) * 1.2
  {
    Jitter(Meant(attempt), a);
    Jitter(Meant(attempt), b);
    Spread(Meant(attempt), a, b);
    if attempt < DEGRADED_AFTER_ATTEMPTS {
      CappedBetween(Meant(attempt), Jittered(Meant(attempt), a));
    }
  }

  /** A delay lies within a fifth of what it is meant to be, is just that in the middle,
      and no shorter for a greater random number. */
  lemma DelaySpreads(attempt: nat, a: real, b: real)
    requires attempt >= 1 && 0.0 <= a <= b < 1.0
    ensures Delay(attempt, a) <= Delay(attempt, b)
    ensures Meant(attempt) * 0.8 - 0.5 <= Delay(attempt, a) as real <= Meant(attempt) * 1.2 + 0.5
    ensures Delay(attempt, 0.5) == Round(Meant(attempt))
  {
    UnroundedSpreads(attempt, a, b);
    UnroundedSpreads(attempt, b, b);
    UnroundedSpreads(attempt, 0.5, 0.5);
    RoundIsNear(Unrounded(attempt, a), Unrounded(attempt, b));
    Spread(Meant(attempt), 0.5, 0.5);
  }

  /** Below the maximum it runs evenly from four to six fifths. */
  lemma DelayRunsEvenly(attempt: nat, random: real)
    requires attempt >= 1 && 0.0 <= random < 1.0
    requires attempt >= DEGRADED_AFTER_ATTEMPTS || 1.2 * Meant(attempt) <= RECONNECT_MAX_DELAY_MS
    ensures Delay(attempt, random) == Round(Meant(attempt) * (0.8 + 0.4 * random))
  {
    Jitter(Meant(attempt), random);
    Spread(Meant(attempt), random, random);
  }

  lemma Spread(meant: real, a: real, b: real)
    requires meant >= 0.0 && a <= b
    ensures Jittered(meant, a) <= Jittered(meant, b)
    ensures Jittered(meant, 0.5) == meant
    ensures Jittered(meant, a) == meant * (0.8 + 0.4 * a)
  {
    var share := meant * 0.4;
    assert share * (b - a) >= 0.0;
  }

  // The client as a state machine --------------------------------------------------

  /** The fields of the client, and what the platform holds for it: the sockets that
      still call back and the timers that are armed. */
  datatype Client = Client(
    ws: Option<nat>,
    reconnectTimer: Option<nat>,
    reconnectAttempt: nat,
    hasConnectedBefore: bool,
    state: ConnectionState,
    awaitingAuthAck: bool,
    suppressReconnectOnNextClose: bool,
    hasToken: bool,
    cookieAuth: bool,
    live: set<nat>,
    armed: map<nat, int>,
    nextHandle: nat,
    reconnectCalls: nat)

  function Dialed(c: Client): Client {
    c.(awaitingAuthAck := false, suppressReconnectOnNextClose := false,
       ws := Some(c.nextHandle), live := c.live + {c.nextHandle}, nextHandle := c.nextHandle + 1)
  }

  function Authenticated(c: Client): Client {
    c.(reconnectAttempt := 0, awaitingAuthAck := false, state := Connected, hasConnectedBefore := true,
       reconnectCalls := if c.hasConnectedBefore then c.reconnectCalls + 1 else c.reconnectCalls)
  }

  function AuthRejected(c: Client): Client {
    c.(awaitingAuthAck := false, state := Unauthorized, suppressReconnectOnNextClose := true)
  }

  function Opened(c: Client): Client {
    if !c.cookieAuth && c.hasToken then c.(awaitingAuthAck := true) else Authenticated(c)
  }

  /** A parsed frame: its type, if that is a string, and whether it carries an error text. */
  function Received(c: Client, kind: Option<string>, hasError: bool): Client {
    if kind == Some("auth_error") || (c.awaitingAuthAck && hasError) then AuthRejected(c)
    else if kind == Some("auth_ack") then Authenticated(c)
    else c
  }

  function ReconnectScheduled(c: Client, random: real): Client {
    var attempt := c.reconnectAttempt + 1;
    c.(reconnectAttempt := attempt,
       state := if attempt >= DEGRADED_AFTER_ATTEMPTS then Degraded else Connecting,
       reconnectTimer := Some(c.nextHandle),
       armed := c.armed[c.nextHandle := Delay(attempt, random)],
       nextHandle := c.nextHandle + 1)
  }

  function Closed(c: Client, socket: nat, random: real): Client {
    var closed := c.(live := c.live - {socket});
    if c.suppressReconnectOnNextClose then closed.(suppressReconnectOnNextClose := false)
    else ReconnectScheduled(closed, random)
  }

  function TimerFired(c: Client, timer: nat): Client {
    Dialed(c.(armed := c.armed - {timer}))
  }

  function Disconnected(c: Client): Client {
    c.(armed := if c.reconnectTimer.Some? then c.armed - {c.reconnectTimer.value} else c.armed,
       reconnectTimer := None,
       live := if c.ws.Some? then c.live - {c.ws.value} else c.live,
       ws := None,
       hasConnectedBefore := false, reconnectAttempt := 0, awaitingAuthAck := false,
       suppressReconnectOnNextClose := false)
  }

  // Runs --------------------------------------------------------------------------------

  datatype Event =
    | OwnerConnects
    | OwnerDisconnects
    | OwnerSetsToken(present: bool)
    | SocketOpens(socket: nat)
    | SocketReceives(socket: nat, kind: Option<string>, hasError: bool)
    | SocketCloses(socket: nat, random: real)
    | TimerFires(timer: nat)

  /** What an observer of the events knows, without looking at the counters: which
      sockets were rejected, how many other closes there were since the last
      authentication or disconnect, how many authentications since the last
      disconnect, and after how many of them callbacks were due. */
  datatype History = History(rejected: set<nat>, closes: nat, auths: nat, due: nat)

  function Initial(cookieAuth: bool): Client {
    Client(None, None, 0, false, Connecting, false, false, false, cookieAuth, {}, map[], 0, 0)
  }

  /** The owner connects only when idle; the platform calls back only for live
      sockets and armed timers. */
  predicate Possible(c: Client, ev: Event) {
    match ev
    case OwnerConnects => c.live == {} && c.armed == map[]
    case OwnerDisconnects => true
    case OwnerSetsToken(_) => true
    case SocketOpens(s) => s in c.live
    case SocketReceives(s, _, _) => s in c.live
    case SocketCloses(s, random) => s in c.live && 0.0 <= random < 1.0
    case TimerFires(t) => t in c.armed
  }

  function Next(c: Client, ev: Event): Client {
    match ev
    case OwnerConnects => Dialed(c)
    case OwnerDisconnects => Disconnected(c)
    case OwnerSetsToken(present) => c.(hasToken := present)
    case SocketOpens(_) => Opened(c)
    case SocketReceives(_, kind, hasError) => Received(c, kind, hasError)
    case SocketCloses(s, random) => Closed(c, s, random)
    case TimerFires(t) => TimerFired(c, t)
  }

  /** Is the event an authentication, a rejection? */
  predicate IsAuthentication(c: Client, ev: Event) {
    match ev
    case SocketOpens(_) => c.cookieAuth || !c.hasToken
    case SocketReceives(_, kind, hasError) => kind == Some("auth_ack") && !(c.awaitingAuthAck && hasError)
    case _ => false
  }

  predicate IsRejection(c: Client, ev: Event) {
    ev.SocketReceives? && (ev.kind == Some("auth_error") || (c.awaitingAuthAck && ev.hasError))
  }

  function Observe(h: History, c: Client, ev: Event): History {
    if IsAuthentication(c, ev) then
      h.(closes := 0, auths := h.auths + 1, due := if h.auths > 0 then h.due + 1 else h.due)
    else if IsRejection(c, ev) then h.(rejected := h.rejected + {ev.socket})
    else if ev.SocketCloses? && ev.socket !in h.rejected then h.(closes := h.closes + 1)
    else if ev.OwnerDisconnects? then h.(closes := 0, auths := 0)
    else h
  }

  /** The invariant of every run. */
  ghost predicate Good(c: Client, h: History) {
    && (c.live == {} || c.armed == map[])
    && (c.live != {} ==> c.ws.Some? && c.live == {c.ws.value})
    && (c.armed != map[] ==> c.reconnectTimer.Some? && c.armed.Keys == {c.reconnectTimer.value})
    && (forall t <- c.armed :: 800 <= c.armed[t] <= 30000 || 96000 <= c.armed[t] <= 144000)
    && (forall s <- c.live :: s < c.nextHandle && (c.suppressReconnectOnNextClose <==> s in h.rejected))
    && (c.live == {} ==> !c.suppressReconnectOnNextClose)
    && (forall s <- h.rejected :: s < c.nextHandle)
    && (forall t <- c.armed :: t < c.nextHandle)
    && c.reconnectAttempt == h.closes
    && (c.hasConnectedBefore <==> h.auths > 0)
    && c.reconnectCalls == h.due
  }

  lemma StepStaysGood(c: Client, h: History, ev: Event)
    requires Good(c, h) && Possible(c, ev)
    ensures Good(Next(c, ev), Observe(h, c, ev))
  {
    match ev
    case SocketCloses(s, random) => DelayBounds(c.reconnectAttempt + 1, random);
    case _ =>
  }

  /** The states and the histories of a run. */
  function After(cookieAuth: bool, run: seq<Event>): (Client, History) {
    if run == [] then (Initial(cookieAuth), History({}, 0, 0, 0))
    else
      var (c, h) := After(cookieAuth, run[..|run| - 1]);
      (Next(c, run[|run| - 1]), Observe(h, c, run[|run| - 1]))
  }

  predicate PossibleRun(cookieAuth: bool, run: seq<Event>) {
    run != [] ==>
      && PossibleRun(cookieAuth, run[..|run| - 1])
      && Possible(After(cookieAuth, run[..|run| - 1]).0, run[|run| - 1])
  }

  /** At most one of a live socket and an armed timer exists, and there is never a
      second socket or a second timer. */
  lemma {:induction false} RunsStayGood(cookieAuth: bool, run: seq<Event>)
    requires PossibleRun(cookieAuth, run)
    ensures
      var (c, h) := After(cookieAuth, run);
      Good(c, h) && |c.live| + |c.armed| <= 1
  {
    if run == [] {
    } else {
      RunsStayGood(cookieAuth, run[..|run| - 1]);
      var (c, h) := After(cookieAuth, run[..|run| - 1]);
      StepStaysGood(c, h, run[|run| - 1]);
    }
  }

  /** What a close makes of a good client: a rejected socket arms nothing; any other
      close arms one timer. */
  ghost predicate ClosesWell(c: Client, h: History, socket: nat, c': Client, h': History) {
    && c'.live == {}
    && (socket in h.rejected ==> c'.armed == map[] && c'.state == c.state)
    && (socket !in h.rejected ==>
          && h'.closes == h.closes + 1
          && (c'.state == if h'.closes >= 8 then Degraded else Connecting)
          && ArmsOne(c', h'.closes >= 8))
  }

  lemma CloseStep(c: Client, h: History, socket: nat, random: real)
    requires Good(c, h) && socket in c.live && 0.0 <= random < 1.0
    ensures
      var ev := SocketCloses(socket, random);
      ClosesWell(c, h, socket, Next(c, ev), Observe(h, c, ev))
  {
    if socket !in h.rejected {
      ArmedOne(Closed(c, socket, random), c.nextHandle, h.closes + 1, random);
    }
  }

  lemma AfterOneMore(cookieAuth: bool, run: seq<Event>, ev: Event)
    ensures
      var (c, h) := After(cookieAuth, run);
      After(cookieAuth, run + [ev]) == (Next(c, ev), Observe(h, c, ev))
    ensures PossibleRun(cookieAuth, run + [ev]) ==>
      PossibleRun(cookieAuth, run) && Possible(After(cookieAuth, run).0, ev)
  {
    assert (run + [ev])[..|run|] == run && (run + [ev])[|run|] == ev;
  }

  /** What a close does, in any run: a rejected socket arms nothing; any other close
      arms one timer, and the client is degraded exactly from the eighth such close
      since the last authentication or disconnect on. */
  lemma CloseOutcome(cookieAuth: bool, run: seq<Event>, socket: nat, random: real)
    requires PossibleRun(cookieAuth, run + [SocketCloses(socket, random)])
    ensures
      var (c, h) := After(cookieAuth, run);
      var (c', h') := After(cookieAuth, run + [SocketCloses(socket, random)]);
      ClosesWell(c, h, socket, c', h')
  {
    AfterOneMore(cookieAuth, run, SocketCloses(socket, random));
    RunsStayGood(cookieAuth, run);
    var (c, h) := After(cookieAuth, run);
    CloseStep(c, h, socket, random);
  }

  /** Exactly one timer is armed, with a delay of the degraded or the other range. */
  ghost predicate ArmsOne(c: Client, degraded: bool) {
    exists t, delay :: c.armed == map[t := delay]
      && if degraded then 96000 <= delay <= 144000 else 800 <= delay <= 30000
  }

  lemma ArmedOne(c: Client, timer: nat, attempt: nat, random: real)
    requires attempt >= 1 && 0.0 <= random < 1.0 && c.armed == map[timer := Delay(attempt, random)]
    ensures ArmsOne(c, attempt >= 8)
  {
    DelayBounds(attempt, random);
  }

  /** Reconnect callbacks run on an authentication unless it is the first since the
      last disconnect. */
  /** The state a client shows after any run and one more event: connected after an
      authentication, unauthorized after a rejection, as the number of closes says after
      a close, and as before after anything else. */
  lemma StateFollows(cookieAuth: bool, run: seq<Event>, ev: Event)
    requires PossibleRun(cookieAuth, run + [ev])
    ensures
      var (c, h) := After(cookieAuth, run);
      After(cookieAuth, run + [ev]).0.state ==
      if IsAuthentication(c, ev) then Connected
      else if IsRejection(c, ev) then Unauthorized
      else if ev.SocketCloses? && ev.socket !in h.rejected then (if h.closes + 1 >= 8 then Degraded else Connecting)
      else c.state
  {
    AfterOneMore(cookieAuth, run, ev);
    RunsStayGood(cookieAuth, run);
  }

  /** A disconnect leaves nothing of the connection, after any run. */
  lemma DisconnectForgets(cookieAuth: bool, run: seq<Event>)
    requires PossibleRun(cookieAuth, run)
    ensures
      var c := After(cookieAuth, run + [OwnerDisconnects]).0;
      && c.live == {} && c.armed == map[] && c.ws.None? && c.reconnectTimer.None?
      && c.reconnectAttempt == 0 && !c.hasConnectedBefore && !c.awaitingAuthAck && !c.suppressReconnectOnNextClose
  {
    AfterOneMore(cookieAuth, run, OwnerDisconnects);
    RunsStayGood(cookieAuth, run);
    NothingLeft(After(cookieAuth, run).0, After(cookieAuth, run).1);
  }

  lemma NothingLeft(c: Client, h: History)
    requires Good(c, h)
    ensures Disconnected(c).live == {} && Disconnected(c).armed == map[]
  {
    if c.armed != map[] {
      assert (c.armed - {c.reconnectTimer.value}).Keys == {};
    }
  }

  /** At the start there is no token and nothing to wait for. */
  lemma StartsIdle(cookieAuth: bool)
    ensures
      var c := After(cookieAuth, []).0;
      && !c.hasToken && !c.awaitingAuthAck && !c.suppressReconnectOnNextClose && !c.hasConnectedBefore
      && c.state == Connecting && c.ws.None? && c.reconnectTimer.None? && c.live == {} && c.armed == map[]
      && c.reconnectAttempt == 0 && c.reconnectCalls == 0
  {
  }

  /** It waits for an acknowledgement exactly from the opening of a socket with a token to
      send, until it is authenticated, rejected, dialed again or disconnected. */
  lemma WaitingFollows(cookieAuth: bool, run: seq<Event>, ev: Event)
    requires PossibleRun(cookieAuth, run + [ev])
    ensures
      var (c, h) := After(cookieAuth, run);
      After(cookieAuth, run + [ev]).0.awaitingAuthAck <==>
      if ev.SocketOpens? then !cookieAuth && c.hasToken
      else
        && c.awaitingAuthAck && !IsAuthentication(c, ev) && !IsRejection(c, ev)
        && !ev.OwnerConnects? && !ev.OwnerDisconnects? && !ev.TimerFires?
    ensures
      After(cookieAuth, run + [ev]).0.hasToken ==
      if ev.OwnerSetsToken? then ev.present else After(cookieAuth, run).0.hasToken
  {
    AfterOneMore(cookieAuth, run, ev);
    KeepsCookieAuth(cookieAuth, run);
    WaitingStep(After(cookieAuth, run).0, ev);
  }

  lemma WaitingStep(c: Client, ev: Event)
    ensures
      Next(c, ev).awaitingAuthAck <==>
      if ev.SocketOpens? then !c.cookieAuth && c.hasToken
      else
        && c.awaitingAuthAck && !IsAuthentication(c, ev) && !IsRejection(c, ev)
        && !ev.OwnerConnects? && !ev.OwnerDisconnects? && !ev.TimerFires?
    ensures Next(c, ev).hasToken == (if ev.OwnerSetsToken? then ev.present else c.hasToken)
    ensures Next(c, ev).cookieAuth == c.cookieAuth
  {
  }

  lemma {:induction false} KeepsCookieAuth(cookieAuth: bool, run: seq<Event>)
    ensures After(cookieAuth, run).0.cookieAuth == cookieAuth
  {
    if run == [] {
    } else {
      KeepsCookieAuth(cookieAuth, run[..|run| - 1]);
      WaitingStep(After(cookieAuth, run[..|run| - 1]).0, run[|run| - 1]);
    }
  }

  lemma CallbacksFire(cookieAuth: bool, run: seq<Event>, ev: Event)
    requires PossibleRun(cookieAuth, run + [ev])
    ensures
      var (c, h) := After(cookieAuth, run);
      var c' := After(cookieAuth, run + [ev]).0;
      c'.reconnectCalls == c.reconnectCalls + if IsAuthentication(c, ev) && h.auths > 0 then 1 else 0
  {
    AfterOneMore(cookieAuth, run, ev);
    RunsStayGood(cookieAuth, run);
  }

  lemma Sizes(c: Client, h: History)
    requires Good(c, h)
    ensures |c.live| == if c.live == {} then 0 else 1
    ensures |c.armed| == if c.armed == map[] then 0 else 1
  {
    if c.armed != map[] {
      assert |c.armed| == |c.armed.Keys|;
    }
  }

  lemma TwoSockets(c: Client, h: History, t: nat)
    requires Good(c, h) && t in c.armed
    ensures TimerFired(Dialed(c), t).live == {c.nextHandle, c.nextHandle + 1}
  {
    assert c.live == {};
  }

  lemma OneMoreSocket(c: Client, h: History)
    requires Good(c, h)
    ensures |Dialed(c).live| == |c.live| + 1
  {
    assert c.nextHandle !in c.live;
  }

  /** What connecting makes of the client: at most one socket or timer exactly when there
      was neither, and two live sockets once a timer that was armed fires; whatever
      closes next schedules a reconnect. */
  ghost predicate ConnectingShows(c: Client) {
    && (|Dialed(c).live| + |Dialed(c).armed| <= 1 <==> c.live == {} && c.armed == map[])
    && !Dialed(c).suppressReconnectOnNextClose && !Dialed(c).awaitingAuthAck
    && forall t <- c.armed :: TimerFired(Dialed(c), t).live == {c.nextHandle, c.nextHandle + 1}
  }

  lemma GoodConnects(c: Client, h: History)
    requires Good(c, h)
    ensures ConnectingShows(c)
  {
    Sizes(c, h);
    OneMoreSocket(c, h);
    forall t | t in c.armed
      ensures TimerFired(Dialed(c), t).live == {c.nextHandle, c.nextHandle + 1}
    {
      TwoSockets(c, h, t);
    }
  }

  /** So it is after any run: an owner that connects while a timer is armed gets two. */
  lemma ImpatientOwnerGetsTwoSockets(cookieAuth: bool, run: seq<Event>)
    requires PossibleRun(cookieAuth, run)
    ensures ConnectingShows(After(cookieAuth, run).0)
  {
    RunsStayGood(cookieAuth, run);
    GoodConnects(After(cookieAuth, run).0, After(cookieAuth, run).1);
  }

  // The class ------------------------------------------------------------------------------

  /** The client with its fields; `live`, `armed` and `nextHandle` stand for the
      platform's sockets and timers. */
  class WSClient {
    var ws: Option<nat>
    var reconnectTimer: Option<nat>
    var reconnectAttempt: nat
    var hasConnectedBefore: bool
    var state: ConnectionState
    var awaitingAuthAck: bool
    var suppressReconnectOnNextClose: bool
    var hasToken: bool
    const cookieAuth: bool
    var live: set<nat>
    var armed: map<nat, int>
    var nextHandle: nat
    var reconnectCalls: nat

    function Model(): Client
      reads this
    {
      Client(ws, reconnectTimer, reconnectAttempt, hasConnectedBefore, state, awaitingAuthAck,
             suppressReconnectOnNextClose, hasToken, cookieAuth, live, armed, nextHandle, reconnectCalls)
    }

    constructor (cookieAuth: bool)
      ensures Model() == Initial(cookieAuth)
    {
      this.cookieAuth := cookieAuth;
      ws, reconnectTimer, reconnectAttempt, hasConnectedBefore := None, None, 0, false;
      state, awaitingAuthAck, suppressReconnectOnNextClose, hasToken := Connecting, false, false, false;
      live, armed, nextHandle, reconnectCalls := {}, map[], 0, 0;
    }

    method SetAuth(present: bool)
      modifies this
      ensures Model() == old(Model()).(hasToken := present)
    {
      hasToken := present;
    }

    method Connect()
      modifies this
      ensures Model() == Dialed(old(Model()))
    {
      awaitingAuthAck := false;
      suppressReconnectOnNextClose := false;
      ws := Some(nextHandle);
      live := live + {nextHandle};
      nextHandle := nextHandle + 1;
    }

    method SetState(next: ConnectionState)
      modifies this`state
      ensures state == next
    {
      if state == next {
        return;
      }
      state := next;
    }

    method OnAuthenticated()
      modifies this
      ensures Model() == Authenticated(old(Model()))
    {
      reconnectAttempt := 0;
      awaitingAuthAck := false;
      SetState(Connected);
      if hasConnectedBefore {
        reconnectCalls := reconnectCalls + 1;
      }
      hasConnectedBefore := true;
    }

    method HandleAuthError()
      modifies this
      ensures Model() == old(Model()).(state := Unauthorized, suppressReconnectOnNextClose := true)
    {
      SetState(Unauthorized);
      suppressReconnectOnNextClose := true;
    }

    method OnOpen()
      modifies this
      ensures Model() == Opened(old(Model()))
    {
      if !cookieAuth && hasToken {
        awaitingAuthAck := true;
        return;
      }
      OnAuthenticated();
    }

    method OnMessage(kind: Option<string>, hasError: bool)
      modifies this
      ensures Model() == Received(old(Model()), kind, hasError)
    {
      if kind == Some("auth_error") || (awaitingAuthAck && hasError) {
        awaitingAuthAck := false;
        HandleAuthError();
        return;
      }
      if kind.None? {
        return;
      }
      if kind == Some("auth_ack") {
        awaitingAuthAck := false;
        OnAuthenticated();
      }
    }

    method ScheduleReconnect(random: real)
      modifies this
      ensures Model() == ReconnectScheduled(old(Model()), random)
    {
      reconnectAttempt := reconnectAttempt + 1;
      if reconnectAttempt >= DEGRADED_AFTER_ATTEMPTS {
        SetState(Degraded);
      } else {
        SetState(Connecting);
      }
      reconnectTimer := Some(nextHandle);
      armed := armed[nextHandle := Delay(reconnectAttempt, random)];
      nextHandle := nextHandle + 1;
    }

    method OnClose(socket: nat, random: real)
      modifies this
      ensures Model() == Closed(old(Model()), socket, random)
    {
      live := live - {socket};
      if suppressReconnectOnNextClose {
        suppressReconnectOnNextClose := false;
        return;
      }
      ScheduleReconnect(random);
    }

    method OnTimer(timer: nat)
      modifies this
      ensures Model() == TimerFired(old(Model()), timer)
    {
      armed := armed - {timer};
      Connect();
    }

    method Disconnect()
      modifies this
      ensures Model() == Disconnected(old(Model()))
    {
      if reconnectTimer.Some? {
        armed := armed - {reconnectTimer.value};
        reconnectTimer := None;
      }
      if ws.Some? {
        live := live - {ws.value};
        ws := None;
      }
      hasConnectedBefore := false;
      reconnectAttempt := 0;
      awaitingAuthAck := false;
      suppressReconnectOnNextClose := false;
    }
  }
}
