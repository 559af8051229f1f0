/**
 * The host servers of samples/project-hostducks/Program.cs: each carries an atomic
 * connection counter and a "bad" mark, and `SelectRandomServers` samples the ones below
 * the per-server cap.
 */
module Servers {
  import opened Ordering
  import opened MessageApi

  const MAX_CONNECTIONS_PER_SERVER := 10

  type int32 = x: int | -0x8000_0000 <= x <= 0x7FFF_FFFF

  /** `Interlocked.Increment` on an `int`: the largest value wraps to the smallest. */
  function Increment32(x: int32): (r: int32)
    ensures x < 0x7FFF_FFFF ==> r == x + 1
    ensures x == 0x7FFF_FFFF ==> r == -0x8000_0000
  {
    if x == 0x7FFF_FFFF then -0x8000_0000 else x + 1
  }

  /** `Interlocked.Decrement` on an `int`: the smallest value wraps to the largest. */
  function Decrement32(x: int32): (r: int32)
    ensures x > -0x8000_0000 ==> r == x - 1
    ensures x == -0x8000_0000 ==> r == 0x7FFF_FFFF
  {
    if x == -0x8000_0000 then 0x7FFF_FFFF else x - 1
  }

  /** Incrementing and decrementing undo each other, wrap-around included. */
  lemma IncrementDecrement(x: int32)
    ensures Decrement32(Increment32(x)) == x && Increment32(Decrement32(x)) == x
  {
  }

  /** `HostServer`: an endpoint with its connection counter and whether it has failed a client. */
  class HostServer {
    const address: uint32
    const port: nat
    const discoveredTime: int
    var activeConnections: int32
    var bad: bool

    constructor (address: uint32, port: nat, discoveredTime: int)
      ensures this.address == address && this.port == port && this.discoveredTime == discoveredTime
      ensures activeConnections == 0 && !bad
    {
      this.address := address;
      this.port := port;
      this.discoveredTime := discoveredTime;
      activeConnections := 0;
      bad := false;
    }

    method IncrementConnections() returns (n: int32)
      modifies this`activeConnections
      ensures activeConnections == Increment32(old(activeConnections)) && n == activeConnections
    {
      activeConnections := Increment32(activeConnections);
      n := activeConnections;
    }

    method DecrementConnections() returns (n: int32)
      modifies this`activeConnections
      ensures activeConnections == Decrement32(old(activeConnections)) && n == activeConnections
    {
      activeConnections := Decrement32(activeConnections);
      n := activeConnections;
    }
  }

  function Connections(servers: seq<HostServer>): (cs: seq<int>)
    reads set s | s in servers
    ensures |cs| == |servers| && forall i :: 0 <= i < |servers| ==> cs[i] == servers[i].activeConnections
  {
    seq(|servers|, i reads set s | s in servers requires 0 <= i < |servers| => servers[i].activeConnections)
  }

  predicate UnderCap(connections: int)
  {
    connections < MAX_CONNECTIONS_PER_SERVER
  }

  /** The positions of the servers with fewer than 10 active connections, in list order. */
  function EligiblePositions(servers: seq<HostServer>): seq<nat>
    reads set s | s in servers
  {
    Where(Connections(servers), UnderCap)
  }

  function DrawKeys(n: nat, draw: nat -> int): (keys: seq<seq<int>>)
    ensures |keys| == n && forall i :: 0 <= i < n ==> keys[i] == [draw(i)]
  {
    seq(n, i requires 0 <= i < n => [draw(i)])
  }

  /**
   * The sampling step on positions: every eligible position when there are at most
   * `count`, otherwise the `count` with the smallest draws.
   */
  function Sample(eligible: seq<nat>, n: nat, count: int, draw: nat -> int): (chosen: seq<nat>)
    requires InRange(eligible, n) && Distinct(eligible)
    ensures InRange(chosen, n) && Distinct(chosen)
    ensures forall x :: x in chosen ==> x in eligible
    ensures |chosen| == if |eligible| <= count then |eligible| else if count < 0 then 0 else count
    ensures |eligible| <= count ==> chosen == eligible
  {
    if |eligible| <= count then eligible
    else
      var keys := DrawKeys(n, draw);
      SortedSelection(eligible, keys, count);
      TakeBest(eligible, keys, count);
      Take(SortBy(eligible, keys), count)
  }

  /** No eligible position left out has a smaller draw than a chosen one. */
  lemma {:induction false} SampleSmallestDraws(eligible: seq<nat>, n: nat, count: int, draw: nat -> int)
    requires InRange(eligible, n) && Distinct(eligible)
    ensures var chosen := Sample(eligible, n, count, draw);
      forall i, k :: i in eligible && i !in chosen && 0 <= k < |chosen| ==> draw(chosen[k]) <= draw(i)
  {
    var chosen := Sample(eligible, n, count, draw);
    if |eligible| > count {
      var keys := DrawKeys(n, draw);
      TakeBest(eligible, keys, count);
      forall i, k | i in eligible && i !in chosen && 0 <= k < |chosen|
        ensures draw(chosen[k]) <= draw(i)
      {
        assert chosen[k] in chosen;
        assert !Less(keys[i], keys[chosen[k]]);
        LessSingle(draw(i), draw(chosen[k]));
      }
    }
  }

  /**
   * `SelectRandomServers`: all servers below the cap when there are at most `count` of
   * them, otherwise the `count` eligible servers with the smallest random draws.
   * `draw(i)` is the value `random.Next()` gives the server at position `i`;
   * `positions` tells which input position each picked server comes from.
   */
  method SelectRandomServers(servers: seq<HostServer>, count: int, draw: nat -> int)
    returns (picked: seq<HostServer>, ghost positions: seq<nat>)
    ensures |picked| == |positions|
    ensures forall k :: 0 <= k < |positions| ==> positions[k] < |servers| && picked[k] == servers[positions[k]]
    ensures Distinct(positions)
    ensures forall s :: s in picked ==> s in servers && s.activeConnections < MAX_CONNECTIONS_PER_SERVER
    ensures var eligible := |EligiblePositions(servers)|;
      |picked| == if eligible <= count then eligible else if count < 0 then 0 else count
    ensures |EligiblePositions(servers)| <= count ==> positions == EligiblePositions(servers)
    ensures forall i, k :: i in EligiblePositions(servers) && i !in positions && 0 <= k < |positions| ==>
      draw(positions[k]) <= draw(i)
    ensures (forall p, q :: 0 <= p < q < |servers| ==> servers[p] != servers[q]) ==>
      forall p, q :: 0 <= p < q < |picked| ==> picked[p] != picked[q]
  {
    var eligible := EligiblePositions(servers);
    WhereDistinct(Connections(servers), UnderCap);
    var chosen := Sample(eligible, |servers|, count, draw);
    SampleSmallestDraws(eligible, |servers|, count, draw);
    positions := chosen;
    picked := seq(|chosen|, k requires 0 <= k < |chosen| => servers[chosen[k]]);
    forall s | s in picked ensures s in servers && s.activeConnections < MAX_CONNECTIONS_PER_SERVER {
      var k :| 0 <= k < |picked| && picked[k] == s;
      assert chosen[k] in eligible;
    }
  }
}
