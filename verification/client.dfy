/**
 * The session lifecycle of samples/InnerSloth.cs (`Client`): its state, its tick budget,
 * the mapping of the server's disconnect reasons to states, the participant-id and
 * host bookkeeping of the lobby messages it receives, and the notifications it raises.
 *
 * The DTLS connection is abstracted to whether one is present (`hasConnection`, for
 * `DtlsConnection != null`); the C# events are appended, in raising order, to
 * `notifications`; the clock reading of `DateTime.Now` is the parameter `now`.
 */
module InnerSloth {
  import opened Wrappers
  import MessageApi

  /** `FixedUpdate` fails a session whose tick count passes this budget. */
  const TICK_BUDGET := 330
  /** Ticks after becoming host before `FixedUpdate` completes the session. */
  const HOST_GRACE_TICKS := 30
  /** `JoinedGame` winds the tick count back by this much when it is larger. */
  const JOINED_TICK_REWIND := 150

  datatype ClientState = Idle | Connecting | Connected | Failed | Banned | Completed | GameDeleted | JoinFailed

  /** The states whose entry stamps `EndTime`. */
  predicate StampsEndTime(s: ClientState)
  {
    s == Completed || s == Banned || s == Failed
  }

  /** The events of `Client`, each carrying the game code it is about. */
  datatype Notification =
    | StateChanged(state: ClientState)
    | GameJoinFailed(code: int)
    | GameShouldBeRemoved(code: int)
    | BecameHost(code: int)

  datatype NotificationKind = StateChangedKind | GameJoinFailedKind | GameShouldBeRemovedKind | BecameHostKind

  function KindOf(n: Notification): NotificationKind
  {
    match n
    case StateChanged(_) => StateChangedKind
    case GameJoinFailed(_) => GameJoinFailedKind
    case GameShouldBeRemoved(_) => GameShouldBeRemovedKind
    case BecameHost(_) => BecameHostKind
  }

  /** How many notifications of the given kind were raised. */
  function Count(ns: seq<Notification>, kind: NotificationKind): nat
  {
    if ns == [] then 0
    else Count(ns[..|ns| - 1], kind) + (if KindOf(ns[|ns| - 1]) == kind then 1 else 0)
  }

  lemma {:induction false} CountAppend(a: seq<Notification>, b: seq<Notification>, kind: NotificationKind)
    ensures Count(a + b, kind) == Count(a, kind) + Count(b, kind)
    decreases |b|
  {
    if b == [] {
      assert a + b == a;
    } else {
      CountAppend(a, b[..|b| - 1], kind);
      assert (a + b)[..|a + b| - 1] == a + b[..|b| - 1];
      assert (a + b)[|a + b| - 1] == b[|b| - 1];
    }
  }

  /** What a real state change raises: `GameJoinFailed` on the first entry into JoinFailed, then `StateChanged`. */
  function ChangeNotifications(newState: ClientState, joinFailedRaised: bool, gameCode: int): seq<Notification>
  {
    (if newState == JoinFailed && !joinFailedRaised then [GameJoinFailed(gameCode)] else []) + [StateChanged(newState)]
  }

  /** A state change raises at most one `GameJoinFailed`, only when not yet raised, and no `BecameHost`. */
  lemma ChangeNotificationCounts(ns: seq<Notification>, newState: ClientState, joinFailedRaised: bool, gameCode: int)
    ensures Count(ns + ChangeNotifications(newState, joinFailedRaised, gameCode), GameJoinFailedKind)
      == Count(ns, GameJoinFailedKind) + (if newState == JoinFailed && !joinFailedRaised then 1 else 0)
    ensures Count(ns + ChangeNotifications(newState, joinFailedRaised, gameCode), BecameHostKind)
      == Count(ns, BecameHostKind)
  {
    var first := if newState == JoinFailed && !joinFailedRaised then [GameJoinFailed(gameCode)] else [];
    var added := ChangeNotifications(newState, joinFailedRaised, gameCode);
    CountAppend(ns, added, GameJoinFailedKind);
    CountAppend(ns, added, BecameHostKind);
    CountAppend(first, [StateChanged(newState)], GameJoinFailedKind);
    CountAppend(first, [StateChanged(newState)], BecameHostKind);
    CountSingle(StateChanged(newState), GameJoinFailedKind);
    CountSingle(StateChanged(newState), BecameHostKind);
    CountSingle(GameJoinFailed(gameCode), GameJoinFailedKind);
    CountSingle(GameJoinFailed(gameCode), BecameHostKind);
  }

  lemma CountSingle(n: Notification, kind: NotificationKind)
    ensures Count([n], kind) == if KindOf(n) == kind then 1 else 0
  {
    assert [n][..0] == [];
  }

  /** How a disconnect arrives: no payload, a payload not flagged as a reason, or a reason. */
  datatype DisconnectEvent = SelfError | ServerEvent | ServerReason(reason: DisconnectReason)

  /** The reason codes the session reacts to; every other code is only logged. */
  datatype DisconnectReason = BannedReason | GameNotFound | GameStarted | ErrorReason | GameFull | OtherReason(code: int)

  /** One entry of the player list of a `JoinedGame` message. */
  datatype PlayerEntry = PlayerEntry(id: int, friendCode: string)

  /** The player ids a `JoinedGame` message adds: neither the session's own id nor a fleet member. */
  function Newcomers(players: seq<PlayerEntry>, self: int): (ids: seq<int>)
    ensures |ids| <= |players|
    ensures forall x :: x in ids ==> x != self
    ensures forall x :: x in ids ==>
      exists i :: 0 <= i < |players| && players[i].id == x && !MessageApi.IsFriendcodeADuck(players[i].friendCode)
    ensures forall i :: 0 <= i < |players| ==>
      (players[i].id != self && !MessageApi.IsFriendcodeADuck(players[i].friendCode) ==> players[i].id in ids)
  {
    if players == [] then []
    else
      var init := players[..|players| - 1];
      var p := players[|players| - 1];
      var ids := Newcomers(init, self);
      assert forall i :: 0 <= i < |init| ==> init[i] == players[i];
      if p.id == self || MessageApi.IsFriendcodeADuck(p.friendCode) then ids else ids + [p.id]
  }

  class Client {
    const id: int
    const gameCode: int
    var state: ClientState
    var startTime: Option<int>
    var endTime: Option<int>
    var hasConnection: bool
    var clientId: int
    var hostId: int
    var allClients: seq<int>
    var ticks: int
    var votebantick: int
    var hasTriggeredJoinFailed: bool
    var hasTriggeredBecomeHost: bool
    var notifications: seq<Notification>

    /**
     * Each latch has fired its notification exactly as often as its flag says (so at most
     * once), the host-grace timer is unarmed until the session has become host, a
     * JoinFailed session has raised `GameJoinFailed`, and the tick count is never negative.
     */
    ghost predicate Valid()
      reads this
    {
      ticks >= 0 &&
      Count(notifications, GameJoinFailedKind) == (if hasTriggeredJoinFailed then 1 else 0) &&
      Count(notifications, BecameHostKind) == (if hasTriggeredBecomeHost then 1 else 0) &&
      (!hasTriggeredBecomeHost ==> votebantick == -1) &&
      (state == JoinFailed ==> hasTriggeredJoinFailed)
    }

    /** The session holds the host role: the host id is its own assigned id. */
    predicate IsHost()
      reads this
    {
      hostId == clientId && clientId > 0
    }

    constructor (id: int, gameCode: int)
      ensures Valid()
      ensures this.id == id && this.gameCode == gameCode
      ensures state == Idle && startTime == None && endTime == None && !hasConnection
      ensures clientId == -1 && hostId == -1 && allClients == []
      ensures ticks == 0 && votebantick == -1
      ensures !hasTriggeredJoinFailed && !hasTriggeredBecomeHost && notifications == []
    {
      this.id, this.gameCode := id, gameCode;
      state, startTime, endTime, hasConnection := Idle, None, None, false;
      clientId, hostId, allClients := -1, -1, [];
      ticks, votebantick := 0, -1;
      hasTriggeredJoinFailed, hasTriggeredBecomeHost := false, false;
      notifications := [];
    }

    /**
     * `UpdateState`: nothing happens when the state is unchanged; otherwise the state is
     * replaced, `EndTime` is stamped on entering Completed, Banned or Failed, the first
     * entry into JoinFailed raises `GameJoinFailed`, and `StateChanged` is raised once.
     * (Setting the already-set flag again is the same as the source's guarded set.)
     */
    method UpdateState(newState: ClientState, now: int)
      requires Valid()
      modifies this`state, this`endTime, this`hasTriggeredJoinFailed, this`notifications
      ensures Valid()
      ensures old(state) == newState ==>
        state == old(state) && endTime == old(endTime) &&
        hasTriggeredJoinFailed == old(hasTriggeredJoinFailed) && notifications == old(notifications)
      ensures old(state) != newState ==>
        state == newState &&
        endTime == (if StampsEndTime(newState) then Some(now) else old(endTime)) &&
        hasTriggeredJoinFailed == (old(hasTriggeredJoinFailed) || newState == JoinFailed) &&
        notifications == old(notifications) + ChangeNotifications(newState, old(hasTriggeredJoinFailed), gameCode)
    {
      if state != newState {
        ChangeNotificationCounts(notifications, newState, hasTriggeredJoinFailed, gameCode);
        notifications := notifications + ChangeNotifications(newState, hasTriggeredJoinFailed, gameCode);
        state := newState;
        if StampsEndTime(newState) {
          endTime := Some(now);
        }
        if newState == JoinFailed {
          hasTriggeredJoinFailed := true;
        }
      }
    }

    /** The synchronous opening of `StartAsync`: start time, Connecting, a connection object. */
    method BeginConnect(now: int)
      requires Valid()
      modifies this`startTime, this`state, this`endTime, this`hasTriggeredJoinFailed, this`notifications, this`hasConnection
      ensures Valid()
      ensures startTime == Some(now) && state == Connecting && hasConnection
      ensures endTime == old(endTime) && hasTriggeredJoinFailed == old(hasTriggeredJoinFailed)
      ensures notifications == old(notifications) + (if old(state) != Connecting then [StateChanged(Connecting)] else [])
    {
      startTime := Some(now);
      UpdateState(Connecting, now);
      hasConnection := true;
    }

    /** `ExitGame`: the connection is disposed and dropped. */
    method ExitGame()
      modifies this`hasConnection
      ensures !hasConnection
    {
      hasConnection := false;
    }

    /**
     * `FixedUpdate`: one tick more; past the budget the session fails, otherwise once the
     * host-grace window has run out it completes; either way the connection is dropped.
     */
    method FixedUpdate(now: int)
      requires Valid()
      modifies this`ticks, this`state, this`endTime, this`hasTriggeredJoinFailed, this`notifications, this`hasConnection
      ensures Valid()
      ensures ticks == old(ticks) + 1
      ensures ticks > TICK_BUDGET ==> state == Failed && !hasConnection
      ensures ticks <= TICK_BUDGET && votebantick > 0 && ticks - votebantick > HOST_GRACE_TICKS ==>
        state == Completed && !hasConnection
      ensures ticks <= TICK_BUDGET && !(votebantick > 0 && ticks - votebantick > HOST_GRACE_TICKS) ==>
        state == old(state) && hasConnection == old(hasConnection)
      ensures notifications == old(notifications) + (if state != old(state) then [StateChanged(state)] else [])
      ensures endTime == (if state != old(state) then Some(now) else old(endTime))
      ensures hasTriggeredJoinFailed == old(hasTriggeredJoinFailed)
      ensures state == Completed && old(state) != Completed ==> hasTriggeredBecomeHost
    {
      ticks := ticks + 1;
      if ticks > TICK_BUDGET {
        UpdateState(Failed, now);
        ExitGame();
      } else if ticks - votebantick > HOST_GRACE_TICKS && votebantick > 0 {
        UpdateState(Completed, now);
        ExitGame();
      }
    }

    /** `OnBanReceived`: the connection is dropped and the session is Banned. */
    method OnBanReceived(now: int)
      requires Valid()
      modifies this`state, this`endTime, this`hasTriggeredJoinFailed, this`notifications, this`hasConnection
      ensures Valid()
      ensures state == Banned && !hasConnection
      ensures endTime == (if old(state) != Banned then Some(now) else old(endTime))
      ensures hasTriggeredJoinFailed == old(hasTriggeredJoinFailed)
      ensures notifications == old(notifications) + (if old(state) != Banned then [StateChanged(Banned)] else [])
    {
      hasConnection := false;
      UpdateState(Banned, now);
    }

    /** `OnGameDeleted`: `GameShouldBeRemoved` is raised, the connection dropped, the session GameDeleted. */
    method OnGameDeleted(now: int)
      requires Valid()
      modifies this`state, this`endTime, this`hasTriggeredJoinFailed, this`notifications, this`hasConnection
      ensures Valid()
      ensures state == GameDeleted && !hasConnection
      ensures endTime == old(endTime) && hasTriggeredJoinFailed == old(hasTriggeredJoinFailed)
      ensures notifications == old(notifications) + [GameShouldBeRemoved(gameCode)]
        + (if old(state) != GameDeleted then [StateChanged(GameDeleted)] else [])
    {
      CountAppend(notifications, [GameShouldBeRemoved(gameCode)], GameJoinFailedKind);
      CountAppend(notifications, [GameShouldBeRemoved(gameCode)], BecameHostKind);
      notifications := notifications + [GameShouldBeRemoved(gameCode)];
      hasConnection := false;
      UpdateState(GameDeleted, now);
    }

    /**
     * `OnDisconnected`: Banned leads to Banned; GameNotFound and GameStarted raise
     * `GameShouldBeRemoved` and lead to GameDeleted; Error and GameFull lead to JoinFailed;
     * anything else changes no state. The connection is dropped in every case.
     */
    method OnDisconnected(event: DisconnectEvent, now: int)
      requires Valid()
      modifies this`state, this`endTime, this`hasTriggeredJoinFailed, this`notifications, this`hasConnection
      ensures Valid()
      ensures !hasConnection
      ensures event == ServerReason(BannedReason) ==>
        state == Banned &&
        endTime == (if old(state) != Banned then Some(now) else old(endTime)) &&
        hasTriggeredJoinFailed == old(hasTriggeredJoinFailed) &&
        notifications == old(notifications) + (if old(state) != Banned then [StateChanged(Banned)] else [])
      ensures event == ServerReason(GameNotFound) || event == ServerReason(GameStarted) ==>
        state == GameDeleted && endTime == old(endTime) && hasTriggeredJoinFailed == old(hasTriggeredJoinFailed) &&
        notifications == old(notifications) + [GameShouldBeRemoved(gameCode)]
          + (if old(state) != GameDeleted then [StateChanged(GameDeleted)] else [])
      ensures event == ServerReason(ErrorReason) || event == ServerReason(GameFull) ==>
        state == JoinFailed && hasTriggeredJoinFailed && endTime == old(endTime) &&
        notifications == old(notifications)
          + (if old(state) != JoinFailed then ChangeNotifications(JoinFailed, old(hasTriggeredJoinFailed), gameCode) else [])
      ensures !event.ServerReason? || event.reason.OtherReason? ==>
        state == old(state) && notifications == old(notifications) && endTime == old(endTime) &&
        hasTriggeredJoinFailed == old(hasTriggeredJoinFailed)
    {
      match event {
        case ServerReason(BannedReason) =>
          OnBanReceived(now);
        case ServerReason(GameNotFound) =>
          OnGameDeleted(now);
        case ServerReason(GameStarted) =>
          OnGameDeleted(now);
        case ServerReason(ErrorReason) =>
          UpdateState(JoinFailed, now);
        case ServerReason(GameFull) =>
          UpdateState(JoinFailed, now);
        case _ =>
      }
      hasConnection := false;
    }

    /** The one-shot "became host" latch shared by JoinGame, JoinedGame and RemovePlayer. */
    method TryBecomeHost()
      requires Valid()
      modifies this`hasTriggeredBecomeHost, this`notifications, this`votebantick
      ensures Valid()
      ensures hasTriggeredBecomeHost == (old(hasTriggeredBecomeHost) || IsHost())
      ensures IsHost() && !old(hasTriggeredBecomeHost) ==>
        notifications == old(notifications) + [BecameHost(gameCode)] && votebantick == ticks
      ensures !(IsHost() && !old(hasTriggeredBecomeHost)) ==>
        notifications == old(notifications) && votebantick == old(votebantick)
    {
      if IsHost() {
        if !hasTriggeredBecomeHost {
          hasTriggeredBecomeHost := true;
          CountAppend(notifications, [BecameHost(gameCode)], GameJoinFailedKind);
          CountAppend(notifications, [BecameHost(gameCode)], BecameHostKind);
          assert [BecameHost(gameCode)][..0] == [];
          notifications := notifications + [BecameHost(gameCode)];
          votebantick := ticks;
        }
      }
    }

    /**
     * The `JoinGame` bookkeeping: the host id is recorded, the joining player is remembered
     * once unless it is a fleet member, and the host latch is tried.
     */
    method HandleJoinGame(joined: int, newHostId: int, friendCode: string)
      requires Valid()
      modifies this`hostId, this`allClients, this`hasTriggeredBecomeHost, this`notifications, this`votebantick
      ensures Valid()
      ensures hostId == newHostId
      ensures allClients == old(allClients) +
        (if joined !in old(allClients) && !MessageApi.IsFriendcodeADuck(friendCode) then [joined] else [])
      ensures hasTriggeredBecomeHost == (old(hasTriggeredBecomeHost) || IsHost())
      ensures IsHost() && !old(hasTriggeredBecomeHost) ==>
        notifications == old(notifications) + [BecameHost(gameCode)] && votebantick == ticks
      ensures !(IsHost() && !old(hasTriggeredBecomeHost)) ==>
        notifications == old(notifications) && votebantick == old(votebantick)
    {
      hostId := newHostId;
      if joined !in allClients && !MessageApi.IsFriendcodeADuck(friendCode) {
        allClients := allClients + [joined];
      }
      TryBecomeHost();
    }

    /**
     * The `JoinedGame` bookkeeping: the session's own id and the host id are recorded, the
     * host latch is tried, every listed player but itself and fleet members is remembered,
     * and the tick count is wound back by 150 when larger.
     */
    method HandleJoinedGame(newClientId: int, newHostId: int, players: seq<PlayerEntry>)
      requires Valid()
      modifies this`clientId, this`hostId, this`allClients, this`hasTriggeredBecomeHost, this`notifications,
               this`votebantick, this`ticks
      ensures Valid()
      ensures clientId == newClientId && hostId == newHostId
      ensures allClients == old(allClients) + Newcomers(players, newClientId)
      ensures hasTriggeredBecomeHost == (old(hasTriggeredBecomeHost) || IsHost())
      ensures IsHost() && !old(hasTriggeredBecomeHost) ==>
        notifications == old(notifications) + [BecameHost(gameCode)] && votebantick == old(ticks)
      ensures !(IsHost() && !old(hasTriggeredBecomeHost)) ==>
        notifications == old(notifications) && votebantick == old(votebantick)
      ensures ticks == if old(ticks) > JOINED_TICK_REWIND then old(ticks) - JOINED_TICK_REWIND else old(ticks)
    {
      clientId := newClientId;
      hostId := newHostId;
      TryBecomeHost();
      RememberPlayers(players);
      if ticks > JOINED_TICK_REWIND {
        ticks := ticks - JOINED_TICK_REWIND;
      }
    }

    /** The player loop of `JoinedGame`: each listed player but itself and fleet members is appended. */
    method RememberPlayers(players: seq<PlayerEntry>)
      modifies this`allClients
      ensures allClients == old(allClients) + Newcomers(players, clientId)
    {
      var i := 0;
      while i < |players|
        invariant 0 <= i <= |players|
        invariant allClients == old(allClients) + Newcomers(players[..i], clientId)
      {
        assert players[..i + 1][..i] == players[..i];
        var entry := players[i];
        if !(entry.id == clientId || MessageApi.IsFriendcodeADuck(entry.friendCode)) {
          allClients := allClients + [entry.id];
        }
        i := i + 1;
      }
      assert players[..|players|] == players;
    }

    /** The `RemovePlayer` bookkeeping: a new host id, then the host latch. */
    method HandleRemovePlayer(newHostId: int)
      requires Valid()
      modifies this`hostId, this`hasTriggeredBecomeHost, this`notifications, this`votebantick
      ensures Valid()
      ensures hostId == newHostId
      ensures hasTriggeredBecomeHost == (old(hasTriggeredBecomeHost) || IsHost())
      ensures IsHost() && !old(hasTriggeredBecomeHost) ==>
        notifications == old(notifications) + [BecameHost(gameCode)] && votebantick == ticks
      ensures !(IsHost() && !old(hasTriggeredBecomeHost)) ==>
        notifications == old(notifications) && votebantick == old(votebantick)
    {
      hostId := newHostId;
      TryBecomeHost();
    }

    /** The `KickPlayer` handling: a ban aimed at this session's own id bans it. */
    method HandleKickPlayer(targetId: int, ban: bool, now: int)
      requires Valid()
      modifies this`state, this`endTime, this`hasTriggeredJoinFailed, this`notifications, this`hasConnection
      ensures Valid()
      ensures targetId == clientId && ban ==>
        state == Banned && !hasConnection &&
        endTime == (if old(state) != Banned then Some(now) else old(endTime)) &&
        hasTriggeredJoinFailed == old(hasTriggeredJoinFailed) &&
        notifications == old(notifications) + (if old(state) != Banned then [StateChanged(Banned)] else [])
      ensures !(targetId == clientId && ban) ==>
        state == old(state) && hasConnection == old(hasConnection) && notifications == old(notifications) &&
        endTime == old(endTime) && hasTriggeredJoinFailed == old(hasTriggeredJoinFailed)
    {
      if targetId == clientId && ban {
        OnBanReceived(now);
      }
    }
  }
}
