/** The client's connection state machine: reconnects, heartbeat timeouts and the failover from the
    game server back to the auth server. */
module Failover {
  const HEARTBEAT_TIMEOUT := 6
  const MAX_RETRIES := 5

  datatype ClientState = DISCONNECTED | CONNECTING_AUTH | AUTH | CONNECTING_GAME | GAME

  /** The heartbeat of one socket: its timer and the second of the last answer. */
  datatype Beat = Beat(timer: bool, last: int)

  /** The last endpoint used for a server; `parses` says whether the host is an address. */
  datatype Endpoint = Endpoint(host: string, port: int, parses: bool)

  datatype Conn = Conn(state: ClientState, retries: int, authSocket: bool, gameSocket: bool,
                       auth: Endpoint, game: Endpoint, authBeat: Beat, gameBeat: Beat)

  /** What the client asks its surroundings: the time, whether there is a world, and what the
      connection state of each socket is. */
  datatype Env = Env(now: int, world: bool, authUp: bool, gameUp: bool)

  predicate Known(e: Endpoint) {
    e.host != "" && e.port > 0
  }

  // ----- what the operations do -----

  function StopTimer(b: Beat, env: Env): Beat {
    if env.world then b.(timer := false) else b
  }

  function StartTimer(b: Beat, env: Env): Beat {
    if env.world then Beat(true, env.now) else b
  }

  function WithoutAuth(c: Conn, env: Env): Conn {
    if c.authSocket then c.(authSocket := false, authBeat := StopTimer(c.authBeat, env)) else c
  }

  function WithoutGame(c: Conn, env: Env): Conn {
    if c.gameSocket then c.(gameSocket := false, gameBeat := StopTimer(c.gameBeat, env)) else c
  }

  function ToAuth(c: Conn, e: Endpoint, env: Env): Conn {
    var next := c.(auth := e, authSocket := true);
    if e.parses then WithoutGame(next.(state := CONNECTING_AUTH), env) else next
  }

  /** Without a world the client stays connecting; otherwise it takes the connection as made. */
  function ToGame(c: Conn, e: Endpoint, env: Env): Conn {
    var next := c.(game := e, gameSocket := true);
    if !e.parses then next
    else WithoutAuth(next, env).(state := if env.world then GAME else CONNECTING_GAME)
  }

  predicate Stale(b: Beat, env: Env) {
    env.now - b.last > HEARTBEAT_TIMEOUT
  }

  function CheckedAuth(c: Conn, env: Env): Conn {
    if Stale(c.authBeat, env)
    then c.(authSocket := false, authBeat := StopTimer(c.authBeat, env), state := CONNECTING_AUTH) else c
  }

  function CheckedGame(c: Conn, env: Env): Conn {
    if Stale(c.gameBeat, env)
    then c.(gameSocket := false, gameBeat := StopTimer(c.gameBeat, env), state := CONNECTING_GAME) else c
  }

  function Ticked(c: Conn, env: Env): Conn {
    match c.state
    case DISCONNECTED => c
    case CONNECTING_AUTH =>
      if (!c.authSocket || !env.authUp) && Known(c.auth) then ToAuth(WithoutGame(c, env), c.auth, env) else c
    case AUTH => CheckedAuth(c, env)
    case CONNECTING_GAME =>
      if c.retries < MAX_RETRIES then
        var c1 := c.(retries := c.retries + 1);
        if (!c1.gameSocket || !env.gameUp) && Known(c1.game) then ToGame(c1, c1.game, env) else c1
      else c.(retries := 0, state := CONNECTING_AUTH)
    case GAME => CheckedGame(c, env)
  }

  // ----- the client object -----

  class MMOClient {
    var CurrentState: ClientState
    var gameRetryCount: int
    var AuthSocket: bool
    var GameSocket: bool
    var LastAuth: Endpoint
    var LastGame: Endpoint
    var AuthHeartbeat: Beat
    var GameHeartbeat: Beat

    ghost function Value(): Conn
      reads this
    {
      Conn(CurrentState, gameRetryCount, AuthSocket, GameSocket, LastAuth, LastGame, AuthHeartbeat, GameHeartbeat)
    }

    constructor ()
      ensures Value() == Fresh()
    {
      CurrentState, gameRetryCount := DISCONNECTED, 0;
      AuthSocket, GameSocket := false, false;
      LastAuth, LastGame := Endpoint("", 0, false), Endpoint("", 0, false);
      AuthHeartbeat, GameHeartbeat := Beat(false, 0), Beat(false, 0);
    }

    method DisconnectAuth(env: Env)
      modifies this
      ensures Value() == WithoutAuth(old(Value()), env)
    {
      if AuthSocket {
        AuthSocket := false;
        if env.world { AuthHeartbeat := AuthHeartbeat.(timer := false); }
      }
    }

    method DisconnectGame(env: Env)
      modifies this
      ensures Value() == WithoutGame(old(Value()), env)
    {
      if GameSocket {
        GameSocket := false;
        if env.world { GameHeartbeat := GameHeartbeat.(timer := false); }
      }
    }

    method ConnectAuth(e: Endpoint, env: Env)
      modifies this
      ensures Value() == ToAuth(old(Value()), e, env)
    {
      LastAuth := e;
      AuthSocket := true;
      if !e.parses {
        return;
      }
      CurrentState := CONNECTING_AUTH;
      DisconnectGame(env);
    }

    method ConnectGame(e: Endpoint, env: Env)
      modifies this
      ensures Value() == ToGame(old(Value()), e, env)
    {
      LastGame := e;
      GameSocket := true;
      if !e.parses {
        return;
      }
      CurrentState := CONNECTING_GAME;
      DisconnectAuth(env);
      if env.world {
        CurrentState := GAME;
      }
    }

    method CheckAuthTimeout(env: Env)
      modifies this
      ensures Value() == CheckedAuth(old(Value()), env)
    {
      if env.now - AuthHeartbeat.last > HEARTBEAT_TIMEOUT {
        AuthSocket := false;
        if env.world { AuthHeartbeat := AuthHeartbeat.(timer := false); }
        CurrentState := CONNECTING_AUTH;
      }
    }

    method CheckGameTimeout(env: Env)
      modifies this
      ensures Value() == CheckedGame(old(Value()), env)
    {
      if env.now - GameHeartbeat.last > HEARTBEAT_TIMEOUT {
        GameSocket := false;
        if env.world { GameHeartbeat := GameHeartbeat.(timer := false); }
        CurrentState := CONNECTING_GAME;
      }
    }

    method TickSockets(env: Env)
      modifies this
      ensures Value() == Ticked(old(Value()), env)
    {
      match CurrentState
      case CONNECTING_AUTH =>
        if (!AuthSocket || !env.authUp) && LastAuth.host != "" && LastAuth.port > 0 {
          DisconnectGame(env);
          ConnectAuth(LastAuth, env);
        }
      case AUTH =>
        CheckAuthTimeout(env);
      case CONNECTING_GAME =>
        if gameRetryCount < MAX_RETRIES {
          gameRetryCount := gameRetryCount + 1;
          if (!GameSocket || !env.gameUp) && LastGame.host != "" && LastGame.port > 0 {
            ConnectGame(LastGame, env);
          }
        } else {
          gameRetryCount := 0;
          CurrentState := CONNECTING_AUTH;
        }
      case GAME =>
        CheckGameTimeout(env);
      case DISCONNECTED =>
    }

    /** The heartbeat timers send and then check; a socket that is gone or not connected does neither. */
    method SendHeartbeatAuth(env: Env)
      modifies this
      ensures Value() == Apply(old(Value()), AuthTimer(env))
    {
      if AuthHeartbeat.timer && AuthSocket && env.authUp {
        CheckAuthTimeout(env);
      }
    }

    method SendHeartbeatGame(env: Env)
      modifies this
      ensures Value() == Apply(old(Value()), GameTimer(env))
    {
      if GameHeartbeat.timer && GameSocket && env.gameUp {
        CheckGameTimeout(env);
      }
    }

    /** An S_Heartbeat of the auth server. */
    method OnAuthHeartbeat(env: Env)
      modifies this
      ensures Value() == Apply(old(Value()), AuthAnswer(env))
    {
      AuthHeartbeat := AuthHeartbeat.(last := env.now);
      if CurrentState == CONNECTING_AUTH {
        CurrentState := AUTH;
        if env.world { AuthHeartbeat := Beat(true, env.now); }
      }
    }

    /** An S_Heartbeat of the game server. */
    method OnGameHeartbeat(env: Env)
      modifies this
      ensures Value() == Apply(old(Value()), GameAnswer(env))
    {
      GameHeartbeat := GameHeartbeat.(last := env.now);
      if CurrentState == CONNECTING_GAME {
        CurrentState := GAME;
        if env.world { GameHeartbeat := Beat(true, env.now); }
      }
    }

    /** An S_ConnectResult of the game server. */
    method OnConnectResult(success: bool, env: Env)
      modifies this
      ensures Value() == Apply(old(Value()), ConnectResult(success, env))
    {
      if success {
        if CurrentState == GAME && env.world {
          GameHeartbeat := Beat(true, env.now);
        }
      } else {
        CurrentState := CONNECTING_AUTH;
      }
    }

    method DisconnectAll(env: Env)
      modifies this
      ensures Value() == Apply(old(Value()), Leave(env))
    {
      if env.world {
        AuthHeartbeat, GameHeartbeat := AuthHeartbeat.(timer := false), GameHeartbeat.(timer := false);
      }
      AuthSocket, GameSocket := false, false;
    }
  }

  // ----- runs -----

  datatype Event =
    | Tick(env: Env)
    | AuthTimer(env: Env)
    | GameTimer(env: Env)
    | AuthAnswer(env: Env)
    | GameAnswer(env: Env)
    | ConnectResult(success: bool, env: Env)
    | StartAuth(endpoint: Endpoint, env: Env)
    | StartGame(endpoint: Endpoint, env: Env)
    | Leave(env: Env)

  function Apply(c: Conn, ev: Event): Conn {
    match ev
    case Tick(env) => Ticked(c, env)
    case AuthTimer(env) => if c.authBeat.timer && c.authSocket && env.authUp then CheckedAuth(c, env) else c
    case GameTimer(env) => if c.gameBeat.timer && c.gameSocket && env.gameUp then CheckedGame(c, env) else c
    case AuthAnswer(env) =>
      var c1 := c.(authBeat := c.authBeat.(last := env.now));
      if c.state == CONNECTING_AUTH then c1.(state := AUTH, authBeat := StartTimer(c1.authBeat, env)) else c1
    case GameAnswer(env) =>
      var c1 := c.(gameBeat := c.gameBeat.(last := env.now));
      if c.state == CONNECTING_GAME then c1.(state := GAME, gameBeat := StartTimer(c1.gameBeat, env)) else c1
    case ConnectResult(success, env) =>
      if !success then c.(state := CONNECTING_AUTH)
      else if c.state == GAME then c.(gameBeat := StartTimer(c.gameBeat, env)) else c
    case StartAuth(e, env) => ToAuth(c, e, env)
    case StartGame(e, env) => ToGame(c, e, env)
    case Leave(env) =>
      c.(authSocket := false, gameSocket := false, authBeat := StopTimer(c.authBeat, env),
         gameBeat := StopTimer(c.gameBeat, env))
  }

  function Fresh(): Conn {
    Conn(DISCONNECTED, 0, false, false, Endpoint("", 0, false), Endpoint("", 0, false), Beat(false, 0), Beat(false, 0))
  }

  function Run(c: Conn, evs: seq<Event>): Conn
    decreases |evs|
  {
    if evs == [] then c else Run(Apply(c, evs[0]), evs[1..])
  }

  /** Over every run the retry counter stays between 0 and 5. */
  lemma {:induction false} RetriesBounded(c: Conn, evs: seq<Event>)
    requires 0 <= c.retries <= MAX_RETRIES
    ensures 0 <= Run(c, evs).retries <= MAX_RETRIES
    decreases |evs|
  {
    if evs != [] {
      RetriesBounded(Apply(c, evs[0]), evs[1..]);
    }
  }

  /** Nothing but giving up resets the counter: not a connection, nor an answer, nor a new login. */
  lemma RetriesDropOnlyByGivingUp(c: Conn, ev: Event)
    requires 0 <= c.retries <= MAX_RETRIES
    ensures Apply(c, ev).retries < c.retries <==> ev.Tick? && c.state == CONNECTING_GAME && c.retries == MAX_RETRIES
    ensures Apply(c, ev).retries < c.retries ==> Apply(c, ev) == c.(retries := 0, state := CONNECTING_AUTH)
  {
  }

  // ----- bounded failover -----

  /** Ticks and heartbeat timers while no packet arrives and the user does nothing. */
  predicate Quiet(ev: Event) {
    ev.Tick? || ev.AuthTimer? || ev.GameTimer?
  }

  /** Quiet events at which the last answer of the game server is too old. */
  ghost predicate Silent(evs: seq<Event>, last: int) {
    forall ev :: ev in evs ==> Quiet(ev) && ev.env.now - last > HEARTBEAT_TIMEOUT
  }

  function Ticks(evs: seq<Event>): nat {
    if evs == [] then 0 else (if evs[0].Tick? then 1 else 0) + Ticks(evs[1..])
  }

  /** Some state of the run is `CONNECTING_AUTH`. */
  predicate Reaches(c: Conn, evs: seq<Event>)
    decreases |evs|
  {
    c.state == CONNECTING_AUTH || (evs != [] && Reaches(Apply(c, evs[0]), evs[1..]))
  }

  /** How many ticks the failover still takes at most. */
  function Budget(c: Conn): int {
    2 * (MAX_RETRIES - c.retries) + if c.state == GAME then 2 else 1
  }

  ghost predicate Failing(c: Conn) {
    (c.state == CONNECTING_GAME || c.state == GAME) && 0 <= c.retries <= MAX_RETRIES
  }

  lemma QuietStep(c: Conn, ev: Event)
    requires Failing(c) && Quiet(ev) && Stale(c.gameBeat, ev.env)
    ensures var c1 := Apply(c, ev);
      && c1.gameBeat.last == c.gameBeat.last
      && (c1.state != CONNECTING_AUTH ==> Failing(c1) && Budget(c1) <= Budget(c) - if ev.Tick? then 1 else 0)
  {
  }

  /** From a failing game connection with c retries used, in every run without game packets the
      client is back at the auth server after at most 2 * (5 - c) + 1 ticks, whatever the sockets
      report, whether the host parses, and however the heartbeat timers interleave. */
  lemma {:induction false} FailoverIsBounded(c: Conn, evs: seq<Event>)
    requires Failing(c) && Silent(evs, c.gameBeat.last) && Ticks(evs) >= Budget(c)
    ensures Reaches(c, evs)
    decreases |evs|
  {
    if evs != [] {
      assert evs[0] in evs;
      var c1 := Apply(c, evs[0]);
      QuietStep(c, evs[0]);
      if c1.state != CONNECTING_AUTH {
        assert forall ev :: ev in evs[1..] ==> ev in evs;
        FailoverIsBounded(c1, evs[1..]);
      }
    }
  }

  /** The bound is exact: with a game host that parses and sockets that never connect, the client is
      not back a tick earlier. */
  lemma {:induction false} FailoverTakesAll(c: Conn, evs: seq<Event>)
    requires Failing(c) && Silent(evs, c.gameBeat.last) && Known(c.game) && c.game.parses
    requires forall ev :: ev in evs ==> ev.Tick? && ev.env.world && !ev.env.gameUp
    requires |evs| < Budget(c)
    ensures !Reaches(c, evs)
    decreases |evs|
  {
    if evs != [] {
      assert evs[0] in evs;
      assert forall ev :: ev in evs[1..] ==> ev in evs;
      FailoverTakesAll(Apply(c, evs[0]), evs[1..]);
    }
  }

  /** Back at the auth server the client stays there until the auth server answers or the user acts. */
  lemma {:induction false} WaitsForAuth(c: Conn, evs: seq<Event>)
    requires c.state == CONNECTING_AUTH && !c.gameSocket && forall ev :: ev in evs ==> Quiet(ev)
    ensures Run(c, evs).state == CONNECTING_AUTH
    decreases |evs|
  {
    if evs != [] {
      assert evs[0] in evs;
      WaitsForAuth(Apply(c, evs[0]), evs[1..]);
    }
  }

  /** A game connection whose server answered within 6 seconds is never given up by a quiet event. */
  lemma {:induction false} LiveGameStays(c: Conn, evs: seq<Event>)
    requires c.state == GAME && !c.authSocket
    requires forall ev :: ev in evs ==> Quiet(ev) && ev.env.now - c.gameBeat.last <= HEARTBEAT_TIMEOUT
    ensures Run(c, evs) == c
    decreases |evs|
  {
    if evs != [] {
      assert evs[0] in evs;
      LiveGameStays(Apply(c, evs[0]), evs[1..]);
    }
  }

  /** Both lemmas need the other server's socket closed: its heartbeat timer moves the state of a
      client that is no longer, or not yet, its own. */
  lemma OtherSocketInterferes(c: Conn, ev: Event)
    requires ev.GameTimer? && Stale(c.gameBeat, ev.env) && ev.env.gameUp && c.gameBeat.timer && c.gameSocket
    ensures Apply(c, ev).state == CONNECTING_GAME
    ensures var d := c.(state := GAME, authSocket := true, authBeat := Beat(true, c.gameBeat.last));
      Apply(d, AuthTimer(ev.env.(authUp := true))).state == CONNECTING_AUTH
  {
  }

  lemma RunOne(c: Conn, ev: Event)
    ensures Run(c, [ev]) == Apply(c, ev)
  {
    assert [ev][1..] == [];
  }

  lemma RunTwo(c: Conn, first: Event, second: Event)
    ensures Run(c, [first, second]) == Apply(Apply(c, first), second)
  {
    assert [first, second][1..] == [second];
    RunOne(Apply(c, first), second);
  }

  // ----- back at the auth server -----

  /** Waiting for the auth server on an open socket. */
  predicate AtAuth(c: Conn) {
    c.state == CONNECTING_AUTH && c.authSocket
  }

  /** The last auth endpoint can be connected to. */
  predicate AuthReachable(c: Conn) {
    c.auth.host != "" && c.auth.port > 0 && c.auth.parses
  }

  /** A client that has to connect to the auth server does so with its next tick: the socket to the last
      endpoint is open, and the game server's is closed. */
  lemma AuthReconnects(c: Conn, env: Env)
    requires c.state == CONNECTING_AUTH && AuthReachable(c) && (!c.authSocket || !env.authUp)
    ensures var c1 := Run(c, [Tick(env)]);
      c1.state == CONNECTING_AUTH && c1.authSocket && !c1.gameSocket && c1.auth == c.auth && c1.retries == c.retries
  {
    RunOne(c, Tick(env));
  }

  /** And the next answer of the auth server completes the way back: heartbeats run from then on. */
  lemma AuthComesBack(c: Conn, env: Env, answer: Env)
    requires c.state == CONNECTING_AUTH && AuthReachable(c) && (!c.authSocket || !env.authUp)
    ensures var c1 := Run(c, [Tick(env), AuthAnswer(answer)]);
      && c1.state == AUTH && c1.authSocket && !c1.gameSocket && c1.auth == c.auth
      && c1.authBeat.last == answer.now && (answer.world ==> c1.authBeat.timer)
  {
    RunTwo(c, Tick(env), AuthAnswer(answer));
  }

  /** How many ticks it takes at most until an auth socket is open, `timer` being the game server's
      heartbeat timer: while it runs it may throw a client that has just given up back once more. */
  function Left(c: Conn): int {
    var tries := 2 * (MAX_RETRIES - c.retries);
    match c.state
    case GAME => tries + 3
    case CONNECTING_GAME => if c.gameBeat.timer then tries + 13 else tries + 2
    case _ => if c.gameBeat.timer then tries + 2 else 1
  }

  ghost predicate Returning(c: Conn) {
    && (c.state == GAME || c.state == CONNECTING_GAME || c.state == CONNECTING_AUTH)
    && 0 <= c.retries <= MAX_RETRIES && AuthReachable(c)
  }

  lemma LeftFalls(c: Conn, ev: Event)
    requires Returning(c) && !AtAuth(c) && Quiet(ev) && ev.env.world && Stale(c.gameBeat, ev.env)
    ensures var c1 := Apply(c, ev);
      && c1.gameBeat.last == c.gameBeat.last
      && (AtAuth(c1) || (Returning(c1) && Left(c1) <= Left(c) - if ev.Tick? then 1 else 0))
  {
  }

  /** Some state of the run waits for the auth server on an open socket. */
  predicate ComesToAuth(c: Conn, evs: seq<Event>)
    decreases |evs|
  {
    AtAuth(c) || (evs != [] && ComesToAuth(Apply(c, evs[0]), evs[1..]))
  }

  /** The whole way back: in every run without packets, however timers interleave and whatever the
      sockets report, an auth socket is open after at most `Left(c)` ticks, which for a client in the game
      is one more than the ticks of the failover. */
  lemma {:induction false} FailoverReconnects(c: Conn, evs: seq<Event>)
    requires Returning(c) && Silent(evs, c.gameBeat.last) && (forall ev :: ev in evs ==> ev.env.world)
    requires Ticks(evs) >= Left(c)
    ensures ComesToAuth(c, evs)
    ensures c.state == GAME || (c.state == CONNECTING_GAME && !c.gameBeat.timer) ==> Left(c) == Budget(c) + 1
    decreases |evs|
  {
    if !AtAuth(c) && evs != [] {
      assert evs[0] in evs;
      LeftFalls(c, evs[0]);
      var c1 := Apply(c, evs[0]);
      if !AtAuth(c1) {
        assert forall ev :: ev in evs[1..] ==> ev in evs;
        FailoverReconnects(c1, evs[1..]);
      } else {
        assert ComesToAuth(c1, evs[1..]);
      }
    }
  }

  // ----- logging in and entering the game -----

  /** Starting with an auth endpoint that parses and hearing from it: logged in over its socket alone. */
  lemma EntersAuth(c: Conn, e: Endpoint, env: Env, answer: Env)
    requires e.parses && env.world && answer.world
    ensures var c1 := Run(c, [StartAuth(e, env), AuthAnswer(answer)]);
      && c1.state == AUTH && c1.auth == e && c1.authSocket && !c1.gameSocket
      && c1.authBeat == Beat(true, answer.now) && (c.gameSocket ==> !c1.gameBeat.timer)
  {
    RunTwo(c, StartAuth(e, env), AuthAnswer(answer));
  }

  /** Going on to a game server that accepts: in the game over its socket alone, its heartbeats running
      and the auth server's stopped. */
  lemma EntersGame(c: Conn, e: Endpoint, env: Env, result: Env)
    requires e.parses && env.world && result.world
    ensures var c1 := Run(c, [StartGame(e, env), ConnectResult(true, result)]);
      && c1.state == GAME && c1.game == e && c1.gameSocket && !c1.authSocket
      && c1.gameBeat == Beat(true, result.now) && (c.authSocket ==> !c1.authBeat.timer)
  {
    RunTwo(c, StartGame(e, env), ConnectResult(true, result));
  }

  /** Without a world the client waits for an answer of the game server before it is in the game. */
  lemma WaitsForGame(c: Conn, e: Endpoint, env: Env, answer: Env)
    requires e.parses && !env.world
    ensures Run(c, [StartGame(e, env)]).state == CONNECTING_GAME
    ensures var c1 := Run(c, [StartGame(e, env), GameAnswer(answer)]);
      c1.state == GAME && c1.gameSocket && c1.gameBeat.last == answer.now && (answer.world ==> c1.gameBeat.timer)
  {
    RunOne(c, StartGame(e, env));
    RunTwo(c, StartGame(e, env), GameAnswer(answer));
  }

  /** A host that is no address is remembered and changes nothing else but the socket object. */
  lemma BadHostStays(c: Conn, e: Endpoint, env: Env)
    requires !e.parses
    ensures Apply(c, StartAuth(e, env)) == c.(auth := e, authSocket := true)
    ensures Apply(c, StartGame(e, env)) == c.(game := e, gameSocket := true)
  {
  }

  /** A refused connect leads back to the auth server, with the socket that waits there. */
  lemma RefusalLeadsBack(c: Conn, refused: Env, env: Env)
    requires AuthReachable(c) && !c.authSocket
    ensures var c1 := Run(c, [ConnectResult(false, refused), Tick(env)]);
      AtAuth(c1) && !c1.gameSocket && c1.auth == c.auth
  {
    RunTwo(c, ConnectResult(false, refused), Tick(env));
  }

  /** One tick gives up a connection exactly when the last answer is more than 6 seconds old. */
  lemma TimesOutIff(c: Conn, env: Env)
    requires c.state == AUTH || c.state == GAME
    ensures var c1, last := Run(c, [Tick(env)]), if c.state == AUTH then c.authBeat.last else c.gameBeat.last;
      if env.now - last <= 6 then c1 == c
      else
        && c1.state == (if c.state == AUTH then CONNECTING_AUTH else CONNECTING_GAME)
        && (if c.state == AUTH then !c1.authSocket else !c1.gameSocket)
        && (env.world ==> if c.state == AUTH then !c1.authBeat.timer else !c1.gameBeat.timer)
  {
    RunOne(c, Tick(env));
  }

  /** An auth connection whose server answered within 6 seconds is never given up by a quiet event. */
  lemma {:induction false} LiveAuthStays(c: Conn, evs: seq<Event>)
    requires c.state == AUTH && !c.gameSocket
    requires forall ev :: ev in evs ==> Quiet(ev) && ev.env.now - c.authBeat.last <= 6
    ensures Run(c, evs) == c
    decreases |evs|
  {
    if evs != [] {
      assert evs[0] in evs;
      LiveAuthStays(Apply(c, evs[0]), evs[1..]);
    }
  }

  /** Leaving closes both sockets and stops the heartbeats. */
  lemma LeavingCloses(c: Conn, env: Env)
    requires env.world
    ensures var c1 := Run(c, [Leave(env)]);
      !c1.authSocket && !c1.gameSocket && !c1.authBeat.timer && !c1.gameBeat.timer && c1.state == c.state
  {
    RunOne(c, Leave(env));
  }
}
