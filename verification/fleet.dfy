/**
 * The supervision of running clients in samples/project-hostducks/Program.cs: which
 * clients count as finished (`IsClientCompleted`), and the sweep that forgets them,
 * frees their accounts and marks the servers they failed on (`CleanupCompletedClients`).
 */
module Fleet {
  import opened Wrappers
  import opened InnerSloth
  import opened Accounts
  import opened Servers

  /** `IsClientCompleted`: only `Completed`, `Banned` and `Failed`; `JoinFailed` and `GameDeleted` keep running. */
  predicate IsClientCompleted(state: ClientState)
  {
    state == Completed || state == Banned || state == Failed
  }

  /** The clients the sweep removes are exactly those whose state change stamped an end time. */
  lemma CompletedIffEndTimeStamped(state: ClientState)
    ensures IsClientCompleted(state) <==> StampsEndTime(state)
    ensures !IsClientCompleted(JoinFailed) && !IsClientCompleted(GameDeleted)
  {
  }

  /** `ClientInfo`, with the client's state as read by the sweep. */
  datatype ClientInfo = ClientInfo(state: ClientState, mmToken: string, gameId: int, startTime: int, server: Option<HostServer>)

  function ServerSet(server: Option<HostServer>): set<HostServer>
  {
    if server.Some? then {server.value} else {}
  }

  ghost function ServersOf(clients: map<int, ClientInfo>): set<HostServer>
  {
    set id | id in clients && clients[id].server.Some? :: clients[id].server.value
  }

  /** The ids the sweep removes. */
  ghost function CompletedIds(clients: map<int, ClientInfo>): set<int>
  {
    set id | id in clients && IsClientCompleted(clients[id].state)
  }

  /** The matchmaker tokens of some of the clients. */
  ghost function TokensOf(clients: map<int, ClientInfo>, ids: set<int>): set<string>
  {
    set id | id in ids && id in clients :: clients[id].mmToken
  }

  /** The servers that the given clients mark bad: those of clients in `Failed` or `JoinFailed`. */
  ghost function MarkedServers(clients: map<int, ClientInfo>, ids: set<int>): set<HostServer>
  {
    set id | id in ids && id in clients && clients[id].server.Some? &&
      (clients[id].state == Failed || clients[id].state == JoinFailed) :: clients[id].server.value
  }

  /** The servers on which a client ended `Failed`. */
  ghost function FailedOn(clients: map<int, ClientInfo>): set<HostServer>
  {
    set id | id in clients && clients[id].server.Some? && clients[id].state == Failed :: clients[id].server.value
  }

  /**
   * The sweep tests for `JoinFailed` too, but only completed clients reach that test, so
   * exactly the servers of `Failed` clients are marked.
   */
  lemma MarkedServersAreFailed(clients: map<int, ClientInfo>)
    ensures MarkedServers(clients, CompletedIds(clients)) == FailedOn(clients)
  {
    forall s | s in FailedOn(clients) ensures s in MarkedServers(clients, CompletedIds(clients)) {
      var id :| id in clients && clients[id].server.Some? && clients[id].state == Failed && clients[id].server.value == s;
      assert id in CompletedIds(clients);
    }
  }

  /** Whether position `j` is the account that releasing one of `tokens` frees. */
  ghost predicate FreedBy(accs: seq<Account>, j: nat, tokens: set<string>)
    requires j < |accs|
  {
    accs[j].mmToken.Some? && accs[j].mmToken.value in tokens &&
    FirstWithMmToken(accs, accs[j].mmToken.value) == Some(j)
  }

  /** The accounts after releasing every token of `tokens`, in any order. */
  ghost function ReleasedByTokens(accs: seq<Account>, tokens: set<string>): (r: seq<Account>)
    ensures |r| == |accs|
    ensures forall j :: 0 <= j < |accs| ==> r[j] == if FreedBy(accs, j, tokens) then accs[j].(inUse := false) else accs[j]
  {
    seq(|accs|, j requires 0 <= j < |accs| => if FreedBy(accs, j, tokens) then accs[j].(inUse := false) else accs[j])
  }

  /** The search by token only looks at the tokens. */
  lemma {:induction false} FirstWithMmTokenSameTokens(a: seq<Account>, b: seq<Account>, token: string)
    requires |a| == |b| && forall j :: 0 <= j < |a| ==> a[j].mmToken == b[j].mmToken
    ensures FirstWithMmToken(a, token) == FirstWithMmToken(b, token)
  {
    if a != [] {
      FirstWithMmTokenSameTokens(a[1..], b[1..], token);
    }
  }

  /** Releasing one more token after a set of them is releasing the larger set. */
  lemma {:induction false} ReleaseOneMore(accs: seq<Account>, tokens: set<string>, token: string)
    ensures var cur := ReleasedByTokens(accs, tokens);
      match FirstWithMmToken(cur, token)
      case None => ReleasedByTokens(accs, tokens + {token}) == cur
      case Some(i) => ReleasedByTokens(accs, tokens + {token}) == ReleaseAt(cur, i)
  {
    var cur := ReleasedByTokens(accs, tokens);
    FirstWithMmTokenSameTokens(cur, accs, token);
    var next := ReleasedByTokens(accs, tokens + {token});
    match FirstWithMmToken(accs, token)
    case None =>
      forall j | 0 <= j < |accs| ensures next[j] == cur[j] {
        assert FreedBy(accs, j, tokens + {token}) == FreedBy(accs, j, tokens);
      }
    case Some(i) =>
      forall j | 0 <= j < |accs| ensures next[j] == ReleaseAt(cur, i)[j] {
        if j != i {
          assert FreedBy(accs, j, tokens + {token}) == FreedBy(accs, j, tokens);
        } else {
          assert FreedBy(accs, j, tokens + {token});
        }
      }
  }

  lemma ReleasedByNoTokens(accs: seq<Account>)
    ensures ReleasedByTokens(accs, {}) == accs
  {
  }

  /** An element of a non-empty set. */
  lemma Element<T>(s: set<T>) returns (x: T)
    requires s != {}
    ensures x in s
  {
    assert (forall y :: y !in s) ==> s == {};
    x :| x in s;
  }

  /** The elements of a list, as a set. */
  ghost function Elements(xs: seq<int>): set<int>
  {
    set x | x in xs
  }

  /** What removing one more client adds to the released tokens and the marked servers. */
  lemma SweepStep(clients: map<int, ClientInfo>, done: set<int>, id: int)
    requires id in clients
    ensures TokensOf(clients, done + {id}) == TokensOf(clients, done) + {clients[id].mmToken}
    ensures var info := clients[id];
      MarkedServers(clients, done + {id}) == MarkedServers(clients, done) +
        if info.server.Some? && (info.state == Failed || info.state == JoinFailed) then {info.server.value} else {}
  {
  }

  /** `ToList()` on a set: each element once, in some order. */
  method ListOf(s: set<int>) returns (xs: seq<int>)
    ensures forall x :: x in xs <==> x in s
    ensures forall p, q :: 0 <= p < q < |xs| ==> xs[p] != xs[q]
  {
    xs := [];
    var rest := s;
    while rest != {}
      invariant forall x :: x in s <==> x in xs || x in rest
      invariant forall x :: x in xs ==> x !in rest
      invariant forall p, q :: 0 <= p < q < |xs| ==> xs[p] != xs[q]
      decreases |rest|
    {
      ghost var w := Element(rest);
      var x :| x in rest;
      xs := xs + [x];
      rest := rest - {x};
    }
  }

  /** The table of running clients (`_activeClients`) and the account pool they draw on. */
  class Supervisor {
    var activeClients: map<int, ClientInfo>
    const pool: AccountPool

    constructor (pool: AccountPool)
      ensures this.pool == pool && activeClients == map[]
    {
      this.pool := pool;
      activeClients := map[];
    }

    /**
     * `CleanupCompletedClients`: every completed client is removed, the account holding its
     * matchmaker token is freed, and a server on which it ended `Failed` is marked bad;
     * nothing else changes.
     */
    method CleanupCompletedClients()
      modifies this`activeClients, pool`accounts, ServersOf(activeClients)`bad
      ensures activeClients == old(activeClients) - CompletedIds(old(activeClients))
      ensures pool.accounts == ReleasedByTokens(old(pool.accounts), TokensOf(old(activeClients), CompletedIds(old(activeClients))))
      ensures forall s :: s in ServersOf(old(activeClients)) ==> s.bad == (old(s.bad) || s in FailedOn(old(activeClients)))
    {
      var completedSet := set id | id in activeClients && IsClientCompleted(activeClients[id].state);
      assert completedSet == CompletedIds(activeClients);
      var completed := ListOf(completedSet);
      forall x ensures x in Elements(completed) <==> x in completedSet {
      }
      assert Elements(completed) == completedSet;
      MarkedServersAreFailed(activeClients);
      RetireAll(completed);
    }

    /** The `foreach` of the sweep over the listed client ids. */
    method RetireAll(ids: seq<int>)
      requires forall x :: x in ids ==> x in activeClients
      requires forall p, q :: 0 <= p < q < |ids| ==> ids[p] != ids[q]
      modifies this`activeClients, pool`accounts, ServersOf(activeClients)`bad
      ensures activeClients == old(activeClients) - Elements(ids)
      ensures pool.accounts == ReleasedByTokens(old(pool.accounts), TokensOf(old(activeClients), Elements(ids)))
      ensures forall s :: s in ServersOf(old(activeClients)) ==>
        s.bad == (old(s.bad) || s in MarkedServers(old(activeClients), Elements(ids)))
    {
      ghost var clients := activeClients;
      ghost var servers := ServersOf(activeClients);
      ghost var accounts := pool.accounts;
      ReleasedByNoTokens(accounts);
      for i := 0 to |ids|
        invariant activeClients == clients - Elements(ids[..i])
        invariant pool.accounts == ReleasedByTokens(accounts, TokensOf(clients, Elements(ids[..i])))
        invariant forall s :: s in servers ==> s.bad == (old(s.bad) || s in MarkedServers(clients, Elements(ids[..i])))
      {
        var id := ids[i];
        ghost var done := Elements(ids[..i]);
        assert id !in done;
        assert clients[id] == activeClients[id];
        assert ServerSet(clients[id].server) <= servers;
        ReleaseOneMore(accounts, TokensOf(clients, done), clients[id].mmToken);
        SweepStep(clients, done, id);
        assert Elements(ids[..i + 1]) == done + {id};
        RetireClient(id);
      }
      assert ids[..|ids|] == ids;
    }

    /** One step of the sweep: the client is forgotten, its account freed, its server marked if it failed. */
    method RetireClient(id: int)
      requires id in activeClients
      modifies this`activeClients, pool`accounts, ServerSet(activeClients[id].server)`bad
      ensures activeClients == old(activeClients) - {id}
      ensures match FirstWithMmToken(old(pool.accounts), old(activeClients)[id].mmToken)
        case None => pool.accounts == old(pool.accounts)
        case Some(j) => pool.accounts == ReleaseAt(old(pool.accounts), j)
      ensures var info := old(activeClients)[id];
        info.server.Some? ==> info.server.value.bad == (old(info.server.value.bad) || info.state == Failed || info.state == JoinFailed)
    {
      var info := activeClients[id];
      activeClients := activeClients - {id};
      pool.ReleaseByToken(info.mmToken);
      if info.server.Some? && (info.state == Failed || info.state == JoinFailed) {
        info.server.value.bad := true;
      }
    }
  }
}
