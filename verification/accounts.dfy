/**
 * The account pool of samples/project-hostducks/Program.cs: which accounts a refresh
 * cycle picks (`RefreshTokens`), the two token gates, reserving an account for a client
 * or a game search, and releasing it again by its matchmaker token.
 *
 * `DateTime.Now` is the parameter `now` (milliseconds); a whole cycle sees one `now`.
 */
module Accounts {
  import opened Wrappers
  import opened Text
  import opened Ordering

  const MINUTE := 60_000
  const MIN_TOKENS_REQUIRED := 5
  const MIN_ID_TOKENS_REQUIRED := 30
  /** Above this many valid matchmaker tokens a refresh cycle does nothing. */
  const REFRESH_PAUSE_ABOVE := 45
  /** At or above this many valid matchmaker tokens the id/matchmaker ratio is ignored. */
  const MM_RATIO_CEILING := 60
  const URGENT_BATCH := 10
  const ROUTINE_BATCH := 5

  /** `AccountStatus` together with the token fields of its `Account`. */
  datatype Account = Account(
    puid: string,
    idToken: Option<string>, idTokenExpireAt: int,
    mmToken: Option<string>, mmTokenExpireAt: int,
    inUse: bool, idTokenUsed: bool)

  predicate HasValidIdToken(a: Account, now: int)
  {
    !IsNullOrEmpty(a.idToken) && a.idTokenExpireAt > now
  }

  predicate HasValidMmToken(a: Account, now: int)
  {
    !IsNullOrEmpty(a.mmToken) && a.mmTokenExpireAt > now
  }

  predicate IsFree(a: Account)
  {
    !a.inUse
  }

  function ValidMmAccounts(accs: seq<Account>, now: int): seq<nat>
  {
    Where(accs, a => HasValidMmToken(a, now))
  }

  function ValidIdAccounts(accs: seq<Account>, now: int): seq<nat>
  {
    Where(accs, a => HasValidIdToken(a, now))
  }

  /** `_accounts.Count(a => a.HasValidMmToken)` */
  function ValidMmCount(accs: seq<Account>, now: int): nat
  {
    |ValidMmAccounts(accs, now)|
  }

  /** `_accounts.Count(a => a.HasValidIdToken)` */
  function ValidIdCount(accs: seq<Account>, now: int): nat
  {
    |ValidIdAccounts(accs, now)|
  }

  /** Matchmaker tokens are short compared with id tokens: refresh them before searching more games. */
  predicate NeedPriorityMmRefresh(validMm: nat, validId: nat)
  {
    validMm < MM_RATIO_CEILING && validMm < validId / 2 && validId > 0
  }

  // ---------------------------------------------------------------------------------
  // Refresh selection

  datatype Branch = IdTokenShortage | PriorityMm | MmShortage | Routine

  datatype RefreshPlan = Paused | Refresh(branch: Branch, batch: seq<nat>)

  /**
   * The order of the id-token-shortage and matchmaker-shortage branches: `AsWritten`, the
   * code's `OrderBy(IsNullOrEmpty(id token))`, which puts holders of an id token first; or
   * `MissingFirst`, the order the comments beside it describe.
   */
  datatype KeyOrder = AsWritten | MissingFirst

  /** The order of the id-token-shortage branch as written: `OrderBy(IsNullOrEmpty(id token)).ThenBy(id expiry)`. */
  function IdKeyAsWritten(a: Account): seq<int>
  {
    [Bit(IsNullOrEmpty(a.idToken)), a.idTokenExpireAt]
  }

  /** The order of the matchmaker-shortage branch as written. */
  function BlendedKeyAsWritten(a: Account): seq<int>
  {
    [Bit(IsNullOrEmpty(a.idToken)), a.idTokenExpireAt, Bit(a.idTokenUsed), a.mmTokenExpireAt]
  }

  /** Accounts without an id token first, then the soonest id-token expiry. */
  function IdKey(a: Account): seq<int>
  {
    [Bit(!IsNullOrEmpty(a.idToken)), a.idTokenExpireAt]
  }

  /** Unused id tokens first (`OrderBy(a => a.IdTokenUsed)`). */
  function UsedKey(a: Account): seq<int>
  {
    [Bit(a.idTokenUsed)]
  }

  /** Missing id token, soonest id expiry, unused id token, soonest matchmaker expiry. */
  function BlendedKey(a: Account): seq<int>
  {
    [Bit(!IsNullOrEmpty(a.idToken)), a.idTokenExpireAt, Bit(a.idTokenUsed), a.mmTokenExpireAt]
  }

  function IdKeys(accs: seq<Account>): (ks: seq<seq<int>>)
    ensures |ks| == |accs| && forall i :: 0 <= i < |accs| ==> ks[i] == IdKey(accs[i])
  {
    seq(|accs|, i requires 0 <= i < |accs| => IdKey(accs[i]))
  }

  function UsedKeys(accs: seq<Account>): (ks: seq<seq<int>>)
    ensures |ks| == |accs| && forall i :: 0 <= i < |accs| ==> ks[i] == UsedKey(accs[i])
  {
    seq(|accs|, i requires 0 <= i < |accs| => UsedKey(accs[i]))
  }

  function BlendedKeys(accs: seq<Account>): (ks: seq<seq<int>>)
    ensures |ks| == |accs| && forall i :: 0 <= i < |accs| ==> ks[i] == BlendedKey(accs[i])
  {
    seq(|accs|, i requires 0 <= i < |accs| => BlendedKey(accs[i]))
  }

  function IdKeysAsWritten(accs: seq<Account>): (ks: seq<seq<int>>)
    ensures |ks| == |accs| && forall i :: 0 <= i < |accs| ==> ks[i] == IdKeyAsWritten(accs[i])
  {
    seq(|accs|, i requires 0 <= i < |accs| => IdKeyAsWritten(accs[i]))
  }

  function BlendedKeysAsWritten(accs: seq<Account>): (ks: seq<seq<int>>)
    ensures |ks| == |accs| && forall i :: 0 <= i < |accs| ==> ks[i] == BlendedKeyAsWritten(accs[i])
  {
    seq(|accs|, i requires 0 <= i < |accs| => BlendedKeyAsWritten(accs[i]))
  }

  function IdKeysIn(order: KeyOrder, accs: seq<Account>): seq<seq<int>>
  {
    if order == AsWritten then IdKeysAsWritten(accs) else IdKeys(accs)
  }

  function BlendedKeysIn(order: KeyOrder, accs: seq<Account>): seq<seq<int>>
  {
    if order == AsWritten then BlendedKeysAsWritten(accs) else BlendedKeys(accs)
  }

  /** Holds a valid id token but no valid matchmaker token, and is free. */
  predicate PriorityCandidate(a: Account, now: int)
  {
    !a.inUse && HasValidIdToken(a, now) && !HasValidMmToken(a, now)
  }

  /** Free, and its id token expires within 10 minutes or its matchmaker token within 1. */
  predicate ExpiringSoon(a: Account, now: int)
  {
    !a.inUse && (a.idTokenExpireAt <= now + 10 * MINUTE || a.mmTokenExpireAt <= now + MINUTE)
  }

  function FreeAccounts(accs: seq<Account>): seq<nat>
  {
    Where(accs, IsFree)
  }

  function PriorityCandidates(accs: seq<Account>, now: int): seq<nat>
  {
    Where(accs, a => PriorityCandidate(a, now))
  }

  function ExpiringAccounts(accs: seq<Account>, now: int): seq<nat>
  {
    Where(accs, a => ExpiringSoon(a, now))
  }

  function BranchFor(validMm: nat, validId: nat): Branch
  {
    if validId < MIN_ID_TOKENS_REQUIRED then IdTokenShortage
    else if NeedPriorityMmRefresh(validMm, validId) then PriorityMm
    else if validMm < MIN_TOKENS_REQUIRED then MmShortage
    else Routine
  }

  /**
   * The accounts one refresh cycle works on, by the first branch whose condition holds;
   * `order` says how the two shortage branches sort (the program runs `AsWritten`).
   */
  function SelectForRefresh(accs: seq<Account>, now: int, order: KeyOrder): (plan: RefreshPlan)
    ensures plan.Paused? <==> ValidMmCount(accs, now) > REFRESH_PAUSE_ABOVE
    ensures plan.Refresh? ==> plan.branch == BranchFor(ValidMmCount(accs, now), ValidIdCount(accs, now))
  {
    var validMm := ValidMmCount(accs, now);
    var validId := ValidIdCount(accs, now);
    if validMm > REFRESH_PAUSE_ABOVE then Paused
    else
      match BranchFor(validMm, validId)
      case IdTokenShortage =>
        Refresh(IdTokenShortage, Take(SortBy(FreeAccounts(accs), IdKeysIn(order, accs)), URGENT_BATCH))
      case PriorityMm =>
        Refresh(PriorityMm, Take(SortBy(PriorityCandidates(accs, now), UsedKeys(accs)), URGENT_BATCH))
      case MmShortage =>
        Refresh(MmShortage, Take(SortBy(FreeAccounts(accs), BlendedKeysIn(order, accs)), URGENT_BATCH))
      case Routine =>
        Refresh(Routine, Take(ExpiringAccounts(accs, now), ROUTINE_BATCH))
  }

  /**
   * Every batch lists distinct accounts that are not in use; the routine branch takes at
   * most 5 of them and the other branches at most 10, in either order.
   */
  lemma {:induction false} RefreshBatchWellFormed(accs: seq<Account>, now: int, order: KeyOrder)
    ensures var plan := SelectForRefresh(accs, now, order);
      plan.Refresh? ==>
        && Distinct(plan.batch)
        && (forall b :: b in plan.batch ==> 0 <= b < |accs| && !accs[b].inUse)
        && |plan.batch| <= (if plan.branch == Routine then ROUTINE_BATCH else URGENT_BATCH)
  {
    var plan := SelectForRefresh(accs, now, order);
    if plan.Refresh? {
      match plan.branch
      case IdTokenShortage =>
        WhereDistinct(accs, IsFree);
        SortedSelection(FreeAccounts(accs), IdKeysIn(order, accs), URGENT_BATCH);
      case PriorityMm =>
        WhereDistinct(accs, a => PriorityCandidate(a, now));
        SortedSelection(PriorityCandidates(accs, now), UsedKeys(accs), URGENT_BATCH);
      case MmShortage =>
        WhereDistinct(accs, IsFree);
        SortedSelection(FreeAccounts(accs), BlendedKeysIn(order, accs), URGENT_BATCH);
      case Routine =>
        WhereDistinct(accs, a => ExpiringSoon(a, now));
        var t := plan.batch;
        forall b | b in t ensures b in ExpiringAccounts(accs, now) {
          var k :| 0 <= k < |t| && t[k] == b;
          assert ExpiringAccounts(accs, now)[k] == b;
        }
    }
  }

  /**
   * The matchmaker-shortage branch is never chosen: with at least 30 valid id tokens and
   * fewer than 5 valid matchmaker tokens the priority branch before it already applies.
   */
  lemma MmShortageUnreachable(validMm: nat, validId: nat)
    ensures BranchFor(validMm, validId) != MmShortage
  {
    if validId >= MIN_ID_TOKENS_REQUIRED && validMm < MIN_TOKENS_REQUIRED {
      assert validId / 2 >= 15;
      assert NeedPriorityMmRefresh(validMm, validId);
    }
  }

  /**
   * The priority branch picks free accounts holding a valid id token and no valid
   * matchmaker token; unused id tokens come before used ones, and an eligible account with
   * an unused id token is left out only when every picked account has an unused one too.
   */
  lemma {:induction false} PriorityMmSelection(accs: seq<Account>, now: int, order: KeyOrder)
    ensures var plan := SelectForRefresh(accs, now, order);
      plan.Refresh? && plan.branch == PriorityMm ==>
        && (forall b :: b in plan.batch ==> 0 <= b < |accs| && PriorityCandidate(accs[b], now))
        && (forall p, q :: 0 <= p < q < |plan.batch| ==>
              accs[plan.batch[p]].idTokenUsed ==> accs[plan.batch[q]].idTokenUsed)
        && (forall j, b ::
              (0 <= j < |accs| && PriorityCandidate(accs[j], now) && !accs[j].idTokenUsed &&
               j !in plan.batch && b in plan.batch) ==> !accs[b].idTokenUsed)
  {
    var plan := SelectForRefresh(accs, now, order);
    if plan.Refresh? && plan.branch == PriorityMm {
      var xs := PriorityCandidates(accs, now);
      var keys := UsedKeys(accs);
      WhereDistinct(accs, a => PriorityCandidate(a, now));
      SortedSelection(xs, keys, URGENT_BATCH);
      TakeBest(xs, keys, URGENT_BATCH);
      var t := plan.batch;
      forall p, q | 0 <= p < q < |t| ensures accs[t[p]].idTokenUsed ==> accs[t[q]].idTokenUsed {
        LessSingle(Bit(accs[t[q]].idTokenUsed), Bit(accs[t[p]].idTokenUsed));
      }
      forall j, b | 0 <= j < |accs| && PriorityCandidate(accs[j], now) && !accs[j].idTokenUsed &&
          j !in t && b in t
        ensures !accs[b].idTokenUsed
      {
        assert j in xs;
        LessSingle(Bit(accs[j].idTokenUsed), Bit(accs[b].idTokenUsed));
      }
    }
  }

  /** The facts about a batch sorted by the corrected order; `IdTokenShortageSelection` states them for the plan. */
  lemma MissingFirstBatch(accs: seq<Account>, t: seq<nat>)
    requires t == Take(SortBy(FreeAccounts(accs), IdKeys(accs)), URGENT_BATCH)
    ensures forall b :: b in t ==> 0 <= b < |accs| && !accs[b].inUse
    ensures forall p, q :: 0 <= p < q < |t| ==> !Less(IdKey(accs[t[q]]), IdKey(accs[t[p]]))
    ensures forall j, b :: 0 <= j < |accs| && !accs[j].inUse && j !in t && b in t ==>
      !Less(IdKey(accs[j]), IdKey(accs[b]))
    ensures forall j, b ::
      (0 <= j < |accs| && !accs[j].inUse && IsNullOrEmpty(accs[j].idToken) && j !in t && b in t) ==>
        IsNullOrEmpty(accs[b].idToken)
  {
    var xs := FreeAccounts(accs);
    var keys := IdKeys(accs);
    WhereDistinct(accs, IsFree);
    SortedSelection(xs, keys, URGENT_BATCH);
    TakeBest(xs, keys, URGENT_BATCH);
    forall j, b | 0 <= j < |accs| && !accs[j].inUse && j !in t && b in t
      ensures !Less(IdKey(accs[j]), IdKey(accs[b]))
    {
      assert j in xs;
    }
    forall j, b | 0 <= j < |accs| && !accs[j].inUse && IsNullOrEmpty(accs[j].idToken) && j !in t && b in t
      ensures IsNullOrEmpty(accs[b].idToken)
    {
      assert j in xs;
      var a, c := accs[j], accs[b];
      LessPair(Bit(!IsNullOrEmpty(a.idToken)), a.idTokenExpireAt, Bit(!IsNullOrEmpty(c.idToken)), c.idTokenExpireAt);
    }
  }

  /**
   * The id-token-shortage branch in the corrected order picks free accounts, those without
   * an id token first and then by soonest id expiry: a free account left out never sorts
   * before a picked one, and if one without an id token is left out then no picked account
   * has an id token.
   */
  lemma {:induction false} IdTokenShortageSelection(accs: seq<Account>, now: int)
    ensures var plan := SelectForRefresh(accs, now, MissingFirst);
      plan.Refresh? && plan.branch == IdTokenShortage ==>
        && (forall b :: b in plan.batch ==> 0 <= b < |accs| && !accs[b].inUse)
        && (forall p, q :: 0 <= p < q < |plan.batch| ==> !Less(IdKey(accs[plan.batch[q]]), IdKey(accs[plan.batch[p]])))
        && (forall j, b :: 0 <= j < |accs| && !accs[j].inUse && j !in plan.batch && b in plan.batch ==>
              !Less(IdKey(accs[j]), IdKey(accs[b])))
        && (forall j, b ::
              (0 <= j < |accs| && !accs[j].inUse && IsNullOrEmpty(accs[j].idToken) &&
               j !in plan.batch && b in plan.batch) ==> IsNullOrEmpty(accs[b].idToken))
  {
    var plan := SelectForRefresh(accs, now, MissingFirst);
    if plan.Refresh? && plan.branch == IdTokenShortage {
      MissingFirstBatch(accs, plan.batch);
    }
  }

  /**
   * The id-token-shortage branch as the program runs it: free accounts holding an id token
   * come first, then by soonest id expiry, so a free account left out never sorts before a
   * picked one, and if a holder of an id token is left out then every picked account holds one.
   */
  lemma {:induction false} IdTokenShortageSelectionAsWritten(accs: seq<Account>, now: int)
    ensures var plan := SelectForRefresh(accs, now, AsWritten);
      plan.Refresh? && plan.branch == IdTokenShortage ==>
        && (forall b :: b in plan.batch ==> 0 <= b < |accs| && !accs[b].inUse)
        && (forall j, b :: 0 <= j < |accs| && !accs[j].inUse && j !in plan.batch && b in plan.batch ==>
              !Less(IdKeyAsWritten(accs[j]), IdKeyAsWritten(accs[b])))
        && (forall j, b ::
              (0 <= j < |accs| && !accs[j].inUse && !IsNullOrEmpty(accs[j].idToken) &&
               j !in plan.batch && b in plan.batch) ==> !IsNullOrEmpty(accs[b].idToken))
  {
    var plan := SelectForRefresh(accs, now, AsWritten);
    if plan.Refresh? && plan.branch == IdTokenShortage {
      var xs := FreeAccounts(accs);
      var keys := IdKeysAsWritten(accs);
      assert plan.batch == Take(SortBy(xs, keys), URGENT_BATCH);
      WhereDistinct(accs, IsFree);
      SortedSelection(xs, keys, URGENT_BATCH);
      TakeBest(xs, keys, URGENT_BATCH);
      var t := plan.batch;
      forall j, b | 0 <= j < |accs| && !accs[j].inUse && j !in t && b in t
        ensures !Less(IdKeyAsWritten(accs[j]), IdKeyAsWritten(accs[b]))
      {
        assert j in xs;
      }
      forall j, b | 0 <= j < |accs| && !accs[j].inUse && !IsNullOrEmpty(accs[j].idToken) && j !in t && b in t
        ensures !IsNullOrEmpty(accs[b].idToken)
      {
        assert j in xs;
        var a, c := accs[j], accs[b];
        LessPair(Bit(IsNullOrEmpty(a.idToken)), a.idTokenExpireAt, Bit(IsNullOrEmpty(c.idToken)), c.idTokenExpireAt);
      }
    }
  }

  /**
   * Ties in the priority branch are broken by list order (`OrderBy` is stable): a
   * candidate left out with the same id-token use as a picked account comes after it.
   */
  lemma {:induction false} PriorityMmTies(accs: seq<Account>, now: int, order: KeyOrder)
    ensures var plan := SelectForRefresh(accs, now, order);
      plan.Refresh? && plan.branch == PriorityMm ==>
        forall j, b ::
          (0 <= j < |accs| && PriorityCandidate(accs[j], now) && j !in plan.batch && b in plan.batch &&
           accs[j].idTokenUsed == accs[b].idTokenUsed) ==> b < j
  {
    var plan := SelectForRefresh(accs, now, order);
    if plan.Refresh? && plan.branch == PriorityMm {
      var xs := PriorityCandidates(accs, now);
      var keys := UsedKeys(accs);
      TakeBestTies(xs, keys, URGENT_BATCH);
      forall j, b | 0 <= j < |accs| && PriorityCandidate(accs[j], now) && j !in plan.batch && b in plan.batch &&
          accs[j].idTokenUsed == accs[b].idTokenUsed
        ensures b < j
      {
        assert j in xs;
        assert keys[j] == keys[b];
      }
    }
  }

  /**
   * Ties in the id-token-shortage branch are broken by list order: a free account left
   * out with the same sort key as a picked account comes after it.
   */
  lemma {:induction false} IdTokenShortageTies(accs: seq<Account>, now: int, order: KeyOrder)
    ensures var plan := SelectForRefresh(accs, now, order);
      plan.Refresh? && plan.branch == IdTokenShortage ==>
        forall j, b ::
          (0 <= j < |accs| && !accs[j].inUse && j !in plan.batch && b in plan.batch &&
           IdKey(accs[j]) == IdKey(accs[b])) ==> b < j
  {
    var plan := SelectForRefresh(accs, now, order);
    if plan.Refresh? && plan.branch == IdTokenShortage {
      var xs := FreeAccounts(accs);
      var keys := IdKeysIn(order, accs);
      TakeBestTies(xs, keys, URGENT_BATCH);
      forall j, b | 0 <= j < |accs| && !accs[j].inUse && j !in plan.batch && b in plan.batch &&
          IdKey(accs[j]) == IdKey(accs[b])
        ensures b < j
      {
        assert j in xs;
      }
    }
  }

  /**
   * The routine branch takes, in list order, the first five free accounts whose id token
   * expires within 10 minutes or whose matchmaker token expires within 1 minute; when it
   * takes fewer than five it takes all of them.
   */
  lemma {:induction false} RoutineSelection(accs: seq<Account>, now: int, order: KeyOrder)
    ensures var plan := SelectForRefresh(accs, now, order);
      plan.Refresh? && plan.branch == Routine ==>
        && (forall b :: b in plan.batch ==> 0 <= b < |accs| && ExpiringSoon(accs[b], now))
        && (forall p, q :: 0 <= p < q < |plan.batch| ==> plan.batch[p] < plan.batch[q])
        && (|plan.batch| < ROUTINE_BATCH ==>
              forall j :: 0 <= j < |accs| && ExpiringSoon(accs[j], now) ==> j in plan.batch)
  {
    var plan := SelectForRefresh(accs, now, order);
    if plan.Refresh? && plan.branch == Routine {
      var xs := ExpiringAccounts(accs, now);
      var t := plan.batch;
      forall b | b in t ensures 0 <= b < |accs| && ExpiringSoon(accs[b], now) {
        var k :| 0 <= k < |t| && t[k] == b;
        assert xs[k] == b;
      }
      if |t| < ROUTINE_BATCH {
        assert t == xs;
      }
    }
  }

  /** As written, an account that already holds an id token sorts before one that has none. */
  lemma IdOrderAsWrittenPrefersHeldToken()
    ensures var held := Account("a", Some("t"), 0, None, 0, false, false);
      var missing := Account("b", None, 0, None, 0, false, false);
      Less(IdKeyAsWritten(held), IdKeyAsWritten(missing)) && Less(BlendedKeyAsWritten(held), BlendedKeyAsWritten(missing))
  {
    LessPair(0, 0, 1, 0);
    var held := Account("a", Some("t"), 0, None, 0, false, false);
    assert BlendedKeyAsWritten(held) == [0, 0, 0, 0];
  }

  /** Ten free accounts holding the same expired id token, then one free account without any. */
  function HeldThenMissing(): (accs: seq<Account>)
    ensures |accs| == 11
  {
    seq(11, i => if i < 10 then Account("p", Some("t"), 0, None, 0, false, false)
                 else Account("p", None, 0, None, 0, false, false))
  }

  /** On `HeldThenMissing` at time 1 no token is valid. */
  lemma HeldThenMissingNoValidToken()
    ensures ValidMmCount(HeldThenMissing(), 1) == 0 && ValidIdCount(HeldThenMissing(), 1) == 0
  {
    WhereAllNone(HeldThenMissing(), a => HasValidMmToken(a, 1));
    WhereAllNone(HeldThenMissing(), a => HasValidIdToken(a, 1));
  }

  /** Every account of `HeldThenMissing` is free. */
  lemma HeldThenMissingAllFree()
    ensures |FreeAccounts(HeldThenMissing())| == 11
    ensures forall i :: i in FreeAccounts(HeldThenMissing()) <==> 0 <= i < 11
  {
    WhereAllNone(HeldThenMissing(), IsFree);
  }

  /** Sorted as written, the account without an id token comes last among all eleven. */
  lemma HeldThenMissingSortsLast(xs: seq<nat>, r: seq<nat>)
    requires xs == FreeAccounts(HeldThenMissing())
    requires r == SortBy(xs, IdKeysAsWritten(HeldThenMissing()))
    ensures |r| == 11 && r[10] == 10 && Distinct(r)
    ensures forall x :: x in r <==> 0 <= x < 11
  {
    var accs := HeldThenMissing();
    HeldThenMissingAllFree();
    var keys := IdKeysAsWritten(accs);
    SortByMembers(xs, keys);
    LessPair(0, 0, 1, 0);
    forall x | x in r && x != 10 ensures Less(keys[x], keys[10]) {
      assert x in xs;
    }
    SortedLargestLast(r, keys, 10);
    WhereDistinct(accs, IsFree);
  }

  /** As written, the batch is the ten holders of an id token. */
  lemma HeldThenMissingAsWritten(xs: seq<nat>)
    requires xs == FreeAccounts(HeldThenMissing())
    ensures forall j :: j in Take(SortBy(xs, IdKeysAsWritten(HeldThenMissing())), URGENT_BATCH) <==> 0 <= j < 10
  {
    var r := SortBy(xs, IdKeysAsWritten(HeldThenMissing()));
    HeldThenMissingSortsLast(xs, r);
    AllButLast(r);
    var written := Take(r, URGENT_BATCH);
    assert written == r[..10];
    forall j ensures j in written <==> 0 <= j < 10 {
      assert j in written <==> j in r && j != r[10];
    }
  }

  /** In the corrected order the batch is not empty, so it holds the account without a token. */
  lemma HeldThenMissingCorrected(xs: seq<nat>)
    requires xs == FreeAccounts(HeldThenMissing())
    ensures 10 in Take(SortBy(xs, IdKeys(HeldThenMissing())), URGENT_BATCH)
  {
    HeldThenMissingAllFree();
    var corrected := Take(SortBy(xs, IdKeys(HeldThenMissing())), URGENT_BATCH);
    MissingFirstBatch(HeldThenMissing(), corrected);
    var b := corrected[0];
    assert b in corrected;
  }

  /** On `HeldThenMissing` at time 1 both orders run the id-token-shortage branch. */
  lemma HeldThenMissingBranch(order: KeyOrder)
    ensures SelectForRefresh(HeldThenMissing(), 1, order) ==
      Refresh(IdTokenShortage, Take(SortBy(FreeAccounts(HeldThenMissing()), IdKeysIn(order, HeldThenMissing())), URGENT_BATCH))
  {
    HeldThenMissingNoValidToken();
  }

  /**
   * On `HeldThenMissing` at time 1 no token is valid, so the id-token-shortage branch
   * runs. The program refreshes exactly the ten accounts that already hold an id token and
   * leaves out the one without, which the corrected order does refresh.
   */
  lemma AsWrittenSkipsMissingIdToken()
    ensures var accs := HeldThenMissing();
      var written := SelectForRefresh(accs, 1, AsWritten);
      var corrected := SelectForRefresh(accs, 1, MissingFirst);
      && written.Refresh? && written.branch == IdTokenShortage
      && (forall j :: j in written.batch <==> 0 <= j < 10)
      && corrected.Refresh? && corrected.branch == IdTokenShortage
      && 10 in corrected.batch
  {
    var xs := FreeAccounts(HeldThenMissing());
    HeldThenMissingBranch(AsWritten);
    HeldThenMissingBranch(MissingFirst);
    HeldThenMissingAsWritten(xs);
    HeldThenMissingCorrected(xs);
  }

  /** The corrected orders put an account with no id token before every account that has one. */
  lemma MissingIdTokenFirst(a: Account, b: Account)
    requires IsNullOrEmpty(a.idToken) && !IsNullOrEmpty(b.idToken)
    ensures Less(IdKey(a), IdKey(b)) && Less(BlendedKey(a), BlendedKey(b))
  {
  }

  // ---------------------------------------------------------------------------------
  // Reservation and release

  /** Has a valid matchmaker token and is not in use. */
  predicate Reservable(a: Account, now: int)
  {
    HasValidMmToken(a, now) && !a.inUse
  }

  /** `FirstOrDefault(a => a.HasValidMmToken && !a.InUse)`: the lowest reservable position. */
  function FirstReservable(accs: seq<Account>, now: int): (r: Option<nat>)
    ensures r.Some? ==> r.value < |accs| && Reservable(accs[r.value], now)
    ensures r.Some? ==> forall j :: 0 <= j < r.value ==> !Reservable(accs[j], now)
    ensures r.None? ==> forall j :: 0 <= j < |accs| ==> !Reservable(accs[j], now)
  {
    if accs == [] then None
    else if Reservable(accs[0], now) then Some(0)
    else match FirstReservable(accs[1..], now)
      case None => None
      case Some(i) => Some(i + 1)
  }

  /**
   * `Where(reservable).OrderBy(mm expiry).FirstOrDefault()`: a reservable account whose
   * matchmaker token expires soonest, the first in list order among equals.
   */
  function EarliestReservable(accs: seq<Account>, now: int): (r: Option<nat>)
    ensures r.None? <==> forall j :: 0 <= j < |accs| ==> !Reservable(accs[j], now)
    ensures r.Some? ==> r.value < |accs| && Reservable(accs[r.value], now)
    ensures r.Some? ==> forall j :: 0 <= j < |accs| && Reservable(accs[j], now) ==>
      accs[r.value].mmTokenExpireAt <= accs[j].mmTokenExpireAt
    ensures r.Some? ==> forall j :: 0 <= j < r.value && Reservable(accs[j], now) ==>
      accs[j].mmTokenExpireAt > accs[r.value].mmTokenExpireAt
  {
    if accs == [] then None
    else
      var n := |accs| - 1;
      var init := accs[..n];
      var e := EarliestReservable(init, now);
      assert forall j :: 0 <= j < n ==> accs[j] == init[j];
      if Reservable(accs[n], now) && (e.None? || accs[n].mmTokenExpireAt < accs[e.value].mmTokenExpireAt)
      then Some(n)
      else e
  }

  /** Marks one account as in use. */
  function ReserveAt(accs: seq<Account>, i: nat): seq<Account>
    requires i < |accs|
  {
    accs[i := accs[i].(inUse := true)]
  }

  /** Marks one account as free. */
  function ReleaseAt(accs: seq<Account>, i: nat): seq<Account>
    requires i < |accs|
  {
    accs[i := accs[i].(inUse := false)]
  }

  /** `FirstOrDefault(a => a.Account.MMToken == token)` */
  function FirstWithMmToken(accs: seq<Account>, token: string): (r: Option<nat>)
    ensures r.Some? ==> r.value < |accs| && accs[r.value].mmToken == Some(token)
    ensures r.Some? ==> forall j :: 0 <= j < r.value ==> accs[j].mmToken != Some(token)
    ensures r.None? ==> forall j :: 0 <= j < |accs| ==> accs[j].mmToken != Some(token)
  {
    if accs == [] then None
    else if accs[0].mmToken == Some(token) then Some(0)
    else match FirstWithMmToken(accs[1..], token)
      case None => None
      case Some(i) => Some(i + 1)
  }

  /** The search by token reads only the tokens, so reserving or releasing does not move it. */
  lemma {:induction false} FirstWithMmTokenIgnoresUse(accs: seq<Account>, i: nat, inUse: bool, token: string)
    requires i < |accs|
    ensures FirstWithMmToken(accs[i := accs[i].(inUse := inUse)], token) == FirstWithMmToken(accs, token)
  {
    var accs' := accs[i := accs[i].(inUse := inUse)];
    if i > 0 {
      assert accs'[1..] == accs[1..][i - 1 := accs[1..][i - 1].(inUse := inUse)];
      FirstWithMmTokenIgnoresUse(accs[1..], i - 1, inUse, token);
    } else {
      assert accs'[1..] == accs[1..];
    }
  }

  /**
   * Two reservations in a row never hand out the same account: the second one lands on a
   * later position.
   */
  lemma ReserveTwiceDistinct(accs: seq<Account>, now: int)
    requires FirstReservable(accs, now).Some?
    ensures var i := FirstReservable(accs, now).value;
      var second := FirstReservable(ReserveAt(accs, i), now);
      second.Some? ==> second.value > i
  {
  }

  /**
   * Releasing by the token just handed out undoes the reservation, as long as no other
   * account holds the same matchmaker token.
   */
  lemma {:induction false} ReleaseUndoesReserve(accs: seq<Account>, now: int)
    requires FirstReservable(accs, now).Some?
    requires var i := FirstReservable(accs, now).value;
      forall j :: 0 <= j < |accs| && j != i ==> accs[j].mmToken != accs[i].mmToken
    ensures var i := FirstReservable(accs, now).value;
      var reserved := ReserveAt(accs, i);
      FirstWithMmToken(reserved, accs[i].mmToken.value) == Some(i) &&
      ReleaseAt(reserved, i) == accs
  {
    var i := FirstReservable(accs, now).value;
    FirstWithMmTokenIgnoresUse(accs, i, true, accs[i].mmToken.value);
    var r := FirstWithMmToken(accs, accs[i].mmToken.value);
    assert r == Some(i);
    assert ReleaseAt(ReserveAt(accs, i), i) == accs;
  }

  /** The mutable account list and the two gates of the pool. */
  class AccountPool {
    var accounts: seq<Account>
    /** `_hasEnoughTokens`: at least 5 valid matchmaker tokens (starts unset). */
    var hasEnoughTokens: bool
    /** `_hasEnoughMmTokens`: no priority matchmaker refresh is needed (starts set). */
    var hasEnoughMmTokens: bool

    constructor (accounts: seq<Account>)
      ensures this.accounts == accounts && !hasEnoughTokens && hasEnoughMmTokens
    {
      this.accounts := accounts;
      hasEnoughTokens := false;
      hasEnoughMmTokens := true;
    }

    /**
     * The gate check after each refresh cycle: the gate follows the count of valid
     * matchmaker tokens and `changed` reports (for the log) whether it flipped.
     */
    method UpdateTokenGate(now: int) returns (changed: bool)
      modifies this`hasEnoughTokens
      ensures hasEnoughTokens <==> ValidMmCount(accounts, now) >= MIN_TOKENS_REQUIRED
      ensures changed <==> hasEnoughTokens != old(hasEnoughTokens)
    {
      var enough := ValidMmCount(accounts, now) >= MIN_TOKENS_REQUIRED;
      changed := false;
      if enough && !hasEnoughTokens {
        hasEnoughTokens := true;
        changed := true;
      } else if !enough && hasEnoughTokens {
        hasEnoughTokens := false;
        changed := true;
      }
    }

    /**
     * The selection half of `RefreshTokens`: unless refreshing is paused, the second gate
     * is brought in line with the ratio rule (flipping only when it differs) and the plan
     * of the first matching branch, sorted in `order`, is returned.
     */
    method RefreshTokens(now: int, order: KeyOrder) returns (plan: RefreshPlan, changed: bool)
      modifies this`hasEnoughMmTokens
      ensures plan == SelectForRefresh(accounts, now, order)
      ensures plan.Paused? ==> hasEnoughMmTokens == old(hasEnoughMmTokens) && !changed
      ensures plan.Refresh? ==>
        (hasEnoughMmTokens <==> !NeedPriorityMmRefresh(ValidMmCount(accounts, now), ValidIdCount(accounts, now)))
      ensures changed <==> hasEnoughMmTokens != old(hasEnoughMmTokens)
    {
      var validMm := ValidMmCount(accounts, now);
      var validId := ValidIdCount(accounts, now);
      changed := false;
      if validMm > REFRESH_PAUSE_ABOVE {
        plan := Paused;
        return;
      }
      var needPriority := NeedPriorityMmRefresh(validMm, validId);
      if needPriority && hasEnoughMmTokens {
        hasEnoughMmTokens := false;
        changed := true;
      } else if !needPriority && !hasEnoughMmTokens {
        hasEnoughMmTokens := true;
        changed := true;
      }
      plan := SelectForRefresh(accounts, now, order);
    }

    /**
     * The reservation blocks of the game search and the client spawner: the first account
     * with a valid matchmaker token that is not in use is marked in use, alone, and its
     * token returned; with none, nothing changes and no token is returned.
     */
    method ReserveFirst(now: int) returns (token: Option<string>)
      modifies this`accounts
      ensures match FirstReservable(old(accounts), now)
        case None => token.None? && accounts == old(accounts)
        case Some(i) => token == old(accounts)[i].mmToken && accounts == ReserveAt(old(accounts), i)
      ensures token.Some? ==> |token.value| > 0
    {
      var found := FirstReservable(accounts, now);
      if found.Some? {
        var i := found.value;
        token := accounts[i].mmToken;
        accounts := ReserveAt(accounts, i);
      } else {
        token := None;
      }
    }

    /**
     * `GetAvailableMMToken`: like `ReserveFirst`, but the reserved account is one whose
     * matchmaker token expires soonest.
     */
    method GetAvailableMmToken(now: int) returns (token: Option<string>)
      modifies this`accounts
      ensures match EarliestReservable(old(accounts), now)
        case None => token.None? && accounts == old(accounts)
        case Some(i) => token == old(accounts)[i].mmToken && accounts == ReserveAt(old(accounts), i)
      ensures token.Some? ==> |token.value| > 0
    {
      var found := EarliestReservable(accounts, now);
      if found.Some? {
        var i := found.value;
        token := accounts[i].mmToken;
        accounts := ReserveAt(accounts, i);
      } else {
        token := None;
      }
    }

    /** Frees the first account holding `token`; with none, nothing changes. */
    method ReleaseByToken(token: string)
      modifies this`accounts
      ensures match FirstWithMmToken(old(accounts), token)
        case None => accounts == old(accounts)
        case Some(i) => accounts == ReleaseAt(old(accounts), i)
    {
      var found := FirstWithMmToken(accounts, token);
      if found.Some? {
        accounts := ReleaseAt(accounts, found.value);
      }
    }
  }
}
