// Choosing shielded coins to cover an amount, spending them, and reporting balances.
module CoinSelection {
  import opened Common
  import opened Sorting

  type Nullifier(==, !new)
  type TokenType(==, !new)

  datatype Coin = Coin(tokenType: TokenType, value: U128, mtIndex: nat)

  // One entry of the state's coin map.
  datatype Held = Held(nul: Nullifier, coin: Coin)

  // coins: the map's entries in iteration order; pending: the keys of `pending_spends`.
  datatype CoinState = CoinState(coins: seq<Held>, pending: set<Nullifier>)

  function KeySet(hs: seq<Held>): set<Nullifier> {
    if hs == [] then {} else {hs[0].nul} + KeySet(hs[1..])
  }

  // A map's entries: no two under one nullifier.
  predicate DistinctKeys(hs: seq<Held>) {
    hs == [] || (hs[0].nul !in KeySet(hs[1..]) && DistinctKeys(hs[1..]))
  }

  // Exact sums.
  function Sum(hs: seq<Held>): nat {
    if hs == [] then 0 else hs[0].coin.value + Sum(hs[1..])
  }

  function OfType(hs: seq<Held>, tt: TokenType): seq<Held> {
    if hs == [] then []
    else if hs[0].coin.tokenType == tt then [hs[0]] + OfType(hs[1..], tt)
    else OfType(hs[1..], tt)
  }

  function Matching(hs: seq<Held>, tt: TokenType, pending: set<Nullifier>): (r: seq<Held>)
    ensures forall h :: h in r ==> h in hs && h.nul !in pending && h.coin.tokenType == tt
  {
    if hs == [] then []
    else if hs[0].coin.tokenType == tt && hs[0].nul !in pending then [hs[0]] + Matching(hs[1..], tt, pending)
    else Matching(hs[1..], tt, pending)
  }

  // Each of the three lists is made of exactly the coins it should hold, in the map's order.
  lemma {:induction false} MatchingPicks(hs: seq<Held>, tt: TokenType, pending: set<Nullifier>)
    ensures Picks(hs, Matching(hs, tt, pending), (h: Held) => h.coin.tokenType == tt && h.nul !in pending)
  {
    var keep := (h: Held) => h.coin.tokenType == tt && h.nul !in pending;
    if hs == [] {
      PicksNone(keep);
    } else {
      var rest := Matching(hs[1..], tt, pending);
      MatchingPicks(hs[1..], tt, pending);
      PicksMore(hs, rest, keep);
      assert [] + rest == rest;
    }
  }

  function PendingOfType(hs: seq<Held>, tt: TokenType, pending: set<Nullifier>): seq<Held> {
    if hs == [] then []
    else if hs[0].coin.tokenType == tt && hs[0].nul in pending then [hs[0]] + PendingOfType(hs[1..], tt, pending)
    else PendingOfType(hs[1..], tt, pending)
  }

  lemma {:induction false} PendingPicks(hs: seq<Held>, tt: TokenType, pending: set<Nullifier>)
    ensures Picks(hs, PendingOfType(hs, tt, pending), (h: Held) => h.coin.tokenType == tt && h.nul in pending)
  {
    var keep := (h: Held) => h.coin.tokenType == tt && h.nul in pending;
    if hs == [] {
      PicksNone(keep);
    } else {
      var rest := PendingOfType(hs[1..], tt, pending);
      PendingPicks(hs[1..], tt, pending);
      PicksMore(hs, rest, keep);
      assert [] + rest == rest;
    }
  }

  lemma {:induction false} OfTypePicks(hs: seq<Held>, tt: TokenType)
    ensures Picks(hs, OfType(hs, tt), (h: Held) => h.coin.tokenType == tt)
  {
    var keep := (h: Held) => h.coin.tokenType == tt;
    if hs == [] {
      PicksNone(keep);
    } else {
      var rest := OfType(hs[1..], tt);
      OfTypePicks(hs[1..], tt);
      PicksMore(hs, rest, keep);
      assert [] + rest == rest;
    }
  }

  function Values(hs: seq<Held>): seq<nat> {
    seq(|hs|, k requires 0 <= k < |hs| => hs[k].coin.value)
  }

  lemma {:induction false} SumIsTheirSum(hs: seq<Held>)
    ensures SumsTo(Values(hs), Sum(hs))
  {
    if hs == [] {
      SumsToNone();
      assert Values(hs) == [];
    } else {
      SumIsTheirSum(hs[1..]);
      SumsToMore(hs[0].coin.value, Values(hs[1..]), Sum(hs[1..]));
      assert Values(hs) == [hs[0].coin.value] + Values(hs[1..]);
    }
  }

  // The coins a selection may use.
  function Selectable(st: CoinState, tt: TokenType): seq<Held> {
    Matching(st.coins, tt, st.pending)
  }

  // ------------------------------------------------------------------------ stable sort

  predicate ByValue(a: Held, b: Held) {
    a.coin.value <= b.coin.value
  }

  // `sort_by_key(|(_, c)| c.value)`, a stable sort.
  function SortByValue(hs: seq<Held>): seq<Held> {
    Sort(ByValue, hs)
  }

  lemma {:induction false} InsertKeys(h: Held, hs: seq<Held>)
    ensures KeySet(Insert(ByValue, h, hs)) == {h.nul} + KeySet(hs)
    ensures Sum(Insert(ByValue, h, hs)) == h.coin.value + Sum(hs)
    ensures DistinctKeys(hs) && h.nul !in KeySet(hs) ==> DistinctKeys(Insert(ByValue, h, hs))
  {
    if hs == [] {
      assert [h][1..] == [];
    } else if ByValue(h, hs[0]) {
      assert ([h] + hs)[1..] == hs;
    } else {
      InsertKeys(h, hs[1..]);
      assert ([hs[0]] + Insert(ByValue, h, hs[1..]))[1..] == Insert(ByValue, h, hs[1..]);
    }
  }

  lemma {:induction false} SortKeys(hs: seq<Held>)
    ensures KeySet(SortByValue(hs)) == KeySet(hs) && Sum(SortByValue(hs)) == Sum(hs)
    ensures DistinctKeys(hs) ==> DistinctKeys(SortByValue(hs))
  {
    if hs == [] {
    } else {
      SortKeys(hs[1..]);
      InsertKeys(hs[0], SortByValue(hs[1..]));
    }
  }

  // The coins of one value, in the order they stand.
  function OfValue(hs: seq<Held>, v: nat): seq<Held> {
    if hs == [] then []
    else if hs[0].coin.value == v then [hs[0]] + OfValue(hs[1..], v)
    else OfValue(hs[1..], v)
  }

  lemma {:induction false} InsertIsStable(h: Held, hs: seq<Held>, v: nat)
    ensures OfValue(Insert(ByValue, h, hs), v) == (if h.coin.value == v then [h] else []) + OfValue(hs, v)
  {
    if hs == [] {
      assert [h][1..] == [];
    } else if ByValue(h, hs[0]) {
      assert ([h] + hs)[1..] == hs;
    } else {
      InsertIsStable(h, hs[1..], v);
      assert ([hs[0]] + Insert(ByValue, h, hs[1..]))[1..] == Insert(ByValue, h, hs[1..]);
    }
  }

  // Coins of equal value keep the order the map iterates them in.
  lemma {:induction false} SortIsStable(hs: seq<Held>, v: nat)
    ensures OfValue(SortByValue(hs), v) == OfValue(hs, v)
  {
    if hs == [] {
    } else {
      SortIsStable(hs[1..], v);
      InsertIsStable(hs[0], SortByValue(hs[1..]), v);
    }
  }

  // ------------------------------------------------------------------- greedy selection

  // The shortest covering prefix, at least one coin long when there is a coin at all.
  function Cover(hs: seq<Held>, amount: int): Option<seq<Held>> {
    if hs == [] then if amount <= 0 then Some([]) else None
    else if hs[0].coin.value >= amount then Some([hs[0]])
    else
      match Cover(hs[1..], amount - hs[0].coin.value)
      case Some(rest) => Some([hs[0]] + rest)
      case None => None
  }

  function Selection(st: CoinState, tt: TokenType, amount: U128): Option<seq<Held>> {
    Cover(SortByValue(Selectable(st, tt)), amount)
  }

  lemma {:induction false} CoverSpec(hs: seq<Held>, amount: int)
    requires amount > 0
    ensures Cover(hs, amount).Some? <==> Sum(hs) >= amount
    ensures match Cover(hs, amount)
      case None => true
      case Some(r) =>
        && r != [] && |r| <= |hs| && r == hs[..|r|]
        && Sum(r) >= amount && Sum(r[..|r| - 1]) < amount
  {
    if hs == [] {
    } else {
      if hs[0].coin.value >= amount {
        assert [hs[0]][1..] == [];
        assert Sum([hs[0]]) == hs[0].coin.value;
        assert [hs[0]][..0] == [];
      } else {
        CoverSpec(hs[1..], amount - hs[0].coin.value);
        var rest := Cover(hs[1..], amount - hs[0].coin.value);
        if rest.Some? {
          var r := [hs[0]] + rest.value;
          assert r[1..] == rest.value;
          assert r[..|r| - 1][1..] == rest.value[..|rest.value| - 1];
        }
      }
    }
  }

  lemma {:induction false} SumAppend(a: seq<Held>, b: seq<Held>)
    ensures Sum(a + b) == Sum(a) + Sum(b)
  {
    if a == [] {
      assert a + b == b;
    } else {
      assert (a + b)[0] == a[0] && (a + b)[1..] == a[1..] + b;
      SumAppend(a[1..], b);
    }
  }

  // Coins already taken without reaching the amount are part of the cover.
  lemma {:induction false} CoverAfter(hs: seq<Held>, i: nat, amount: int)
    requires i <= |hs| && (i > 0 ==> Sum(hs[..i]) < amount)
    ensures Cover(hs, amount)
         == match Cover(hs[i..], amount - Sum(hs[..i]))
            case Some(rest) => Some(hs[..i] + rest)
            case None => None
  {
    if i == 0 {
      assert hs[0..] == hs;
      if Cover(hs, amount).Some? {
        assert [] + Cover(hs, amount).value == Cover(hs, amount).value;
      }
    } else {
      assert hs[..i][1..] == hs[1..][..i - 1] && hs[1..][i - 1..] == hs[i..];
      assert Sum(hs[..i]) == hs[0].coin.value + Sum(hs[1..][..i - 1]);
      CoverAfter(hs[1..], i - 1, amount - hs[0].coin.value);
      var rest := Cover(hs[i..], amount - Sum(hs[..i]));
      if rest.Some? {
        assert [hs[0]] + (hs[1..][..i - 1] + rest.value) == hs[..i] + rest.value;
      }
    }
  }

  method CollectMatching(st: CoinState, tt: TokenType) returns (matching: seq<Held>)
    ensures matching == Selectable(st, tt)
  {
    matching := [];
    for i := 0 to |st.coins|
      invariant matching + Matching(st.coins[i..], tt, st.pending) == Selectable(st, tt)
    {
      var h := st.coins[i];
      assert st.coins[i..][1..] == st.coins[i + 1..];
      if h.coin.tokenType == tt {
        if h.nul in st.pending {
          continue;
        }
        matching := matching + [h];
      }
    }
    assert st.coins[|st.coins|..] == [];
  }

  lemma TakeOne(sorted: seq<Held>, i: nat)
    requires i < |sorted|
    ensures Sum(sorted[..i + 1]) == Sum(sorted[..i]) + sorted[i].coin.value
  {
    var h := sorted[i];
    assert sorted[..i] + [h] == sorted[..i + 1];
    SumAppend(sorted[..i], [h]);
    assert [h][1..] == [] && Sum([h]) == h.coin.value;
  }

  // The running total saturates at u128::MAX; the cover is decided by exact sums.
  method TakeUntilCovered(sorted: seq<Held>, amount: U128) returns (r: Option<seq<Held>>)
    ensures r == Cover(sorted, amount)
  {
    var selected: seq<Held> := [];
    var total: U128 := 0;
    var i := 0;
    while i < |sorted|
      invariant 0 <= i <= |sorted|
      invariant selected == sorted[..i]
      invariant total == Min(Sum(sorted[..i]), U128_LIMIT - 1)
      invariant i > 0 ==> total < amount
    {
      var h := sorted[i];
      CoverAfter(sorted, i, amount);
      TakeOne(sorted, i);
      selected := selected + [h];
      total := SaturatingAdd(total, h.coin.value);
      if total >= amount {
        return Some(selected);
      }
      i := i + 1;
    }
    CoverAfter(sorted, i, amount);
    if total < amount {
      return None;
    }
    r := Some(selected);
  }

  // `zswap_select_coins`: collect, sort, accumulate.
  method SelectCoins(st: CoinState, tt: TokenType, amount: U128) returns (r: Option<seq<Held>>)
    ensures r == Selection(st, tt, amount)
  {
    var matching := CollectMatching(st, tt);
    r := TakeUntilCovered(SortByValue(matching), amount);
  }

  // ------------------------------------------------------ what a selection is worth

  // The sum of a chosen part of the coins.
  function SumChosen(hs: seq<Held>, chosen: seq<bool>): nat
    requires |chosen| == |hs|
  {
    if hs == [] then 0
    else (if chosen[0] then hs[0].coin.value else 0) + SumChosen(hs[1..], chosen[1..])
  }

  // The sum of all coins below a value.
  function SumBelow(hs: seq<Held>, v: nat): nat {
    if hs == [] then 0
    else (if hs[0].coin.value < v then hs[0].coin.value else 0) + SumBelow(hs[1..], v)
  }

  lemma {:induction false} ChosenBelow(hs: seq<Held>, chosen: seq<bool>, v: nat)
    requires |chosen| == |hs| && forall i :: 0 <= i < |hs| && chosen[i] ==> hs[i].coin.value < v
    ensures SumChosen(hs, chosen) <= SumBelow(hs, v)
  {
    if hs == [] {
    } else {
      assert forall i :: 0 <= i < |hs[1..]| && chosen[1..][i] ==> chosen[i + 1] && hs[1..][i] == hs[i + 1];
      ChosenBelow(hs[1..], chosen[1..], v);
    }
  }

  lemma {:induction false} InsertBelow(h: Held, hs: seq<Held>, v: nat)
    ensures SumBelow(Insert(ByValue, h, hs), v) == SumBelow(hs, v) + (if h.coin.value < v then h.coin.value else 0)
  {
    if hs == [] {
      assert [h][1..] == [];
    } else if ByValue(h, hs[0]) {
      assert ([h] + hs)[1..] == hs;
    } else {
      InsertBelow(h, hs[1..], v);
      assert ([hs[0]] + Insert(ByValue, h, hs[1..]))[1..] == Insert(ByValue, h, hs[1..]);
    }
  }

  lemma {:induction false} SortBelow(hs: seq<Held>, v: nat)
    ensures SumBelow(SortByValue(hs), v) == SumBelow(hs, v)
  {
    if hs == [] {
    } else {
      SortBelow(hs[1..], v);
      InsertBelow(hs[0], SortByValue(hs[1..]), v);
    }
  }

  lemma {:induction false} NothingBelow(hs: seq<Held>, v: nat)
    requires forall h :: h in hs ==> v <= h.coin.value
    ensures SumBelow(hs, v) == 0
  {
    if hs == [] {
    } else {
      NothingBelow(hs[1..], v);
    }
  }

  // In a sorted list everything below the coin at i stands before it.
  lemma {:induction false} BelowIsBefore(hs: seq<Held>, i: nat)
    requires Sorted(ByValue, hs) && i < |hs|
    ensures SumBelow(hs, hs[i].coin.value) <= Sum(hs[..i])
  {
    if i == 0 {
      assert forall h :: h in hs ==> h == hs[0] || h in hs[1..];
      NothingBelow(hs, hs[0].coin.value);
    } else {
      BelowIsBefore(hs[1..], i - 1);
      assert hs[..i][1..] == hs[1..][..i - 1];
    }
  }

  predicate Ascending(hs: seq<Held>) {
    forall i, j :: 0 <= i <= j < |hs| ==> hs[i].coin.value <= hs[j].coin.value
  }

  lemma AscendingPrefix(sorted: seq<Held>, n: nat)
    requires Sorted(ByValue, sorted) && n <= |sorted|
    ensures Ascending(sorted[..n])
  {
    forall i, j | 0 <= i <= j < n
      ensures sorted[i].coin.value <= sorted[j].coin.value
    {
      SortedAt(ByValue, sorted, i, j);
    }
  }

  lemma PartOf(sorted: seq<Held>, n: nat)
    requires n <= |sorted|
    ensures multiset(sorted[..n]) <= multiset(sorted)
  {
    assert sorted == sorted[..n] + sorted[n..];
  }

  // For a positive amount: a selection exists iff the exact sum of the selectable coins
  // covers it, although the code adds with saturation; it consists of selectable coins in
  // ascending order, covers the amount, and needs its last coin.
  lemma SelectionSpec(st: CoinState, tt: TokenType, amount: U128)
    requires amount > 0
    ensures Selection(st, tt, amount).Some? <==> Sum(Selectable(st, tt)) >= amount
    ensures match Selection(st, tt, amount)
      case None => true
      case Some(r) =>
        && r != [] && Sum(r) >= amount && Sum(r[..|r| - 1]) < amount
        && Ascending(r)
        && multiset(r) <= multiset(Selectable(st, tt))
  {
    var hs := Selectable(st, tt);
    var sorted := SortByValue(hs);
    SortKeys(hs);
    SortSorts(ByValue, hs);
    SortSame(ByValue, hs);
    CoverSpec(sorted, amount);
    var sel := Selection(st, tt, amount);
    if sel.Some? {
      PartOf(sorted, |sel.value|);
      AscendingPrefix(sorted, |sel.value|);
    }
  }

  // No part of the selectable coins that covers the amount has a smaller largest coin.
  lemma SelectionMinimisesLargest(st: CoinState, tt: TokenType, amount: U128, chosen: seq<bool>)
    requires amount > 0 && Selection(st, tt, amount).Some?
    requires |chosen| == |Selectable(st, tt)| && SumChosen(Selectable(st, tt), chosen) >= amount
    ensures var r, hs := Selection(st, tt, amount).value, Selectable(st, tt);
      r != [] && exists i :: 0 <= i < |hs| && chosen[i] && r[|r| - 1].coin.value <= hs[i].coin.value
  {
    var hs := Selectable(st, tt);
    var sorted := SortByValue(hs);
    SortSorts(ByValue, hs);
    CoverSpec(sorted, amount);
    var r := Selection(st, tt, amount).value;
    var last := |r| - 1;
    var v := r[last].coin.value;
    assert r[..last] == sorted[..last] && r[last] == sorted[last];
    SortBelow(hs, v);
    BelowIsBefore(sorted, last);
    if forall i :: 0 <= i < |hs| && chosen[i] ==> hs[i].coin.value < v {
      ChosenBelow(hs, chosen, v);
    }
  }

  // A zero amount is always covered: by nothing, or by the smallest coin alone.
  lemma ZeroAmount(st: CoinState, tt: TokenType)
    ensures var s := SortByValue(Selectable(st, tt));
      Selection(st, tt, 0) == Some(if s == [] then [] else [s[0]])
  {
  }

  // --------------------------------------------------------------------------- balances

  lemma {:induction false} NoneOfType(hs: seq<Held>, tt: TokenType)
    requires forall h :: h in hs ==> h.coin.tokenType != tt
    ensures OfType(hs, tt) == []
  {
    if hs == [] {
    } else {
      NoneOfType(hs[1..], tt);
    }
  }

  lemma {:induction false} OfTypeAppend(a: seq<Held>, b: seq<Held>, tt: TokenType)
    ensures OfType(a + b, tt) == OfType(a, tt) + OfType(b, tt)
  {
    if a == [] {
      assert a + b == b;
    } else {
      assert (a + b)[0] == a[0] && (a + b)[1..] == a[1..] + b;
      OfTypeAppend(a[1..], b, tt);
    }
  }

  lemma OfTypeExtends(hs: seq<Held>, i: nat, tt: TokenType)
    requires i < |hs|
    ensures Sum(OfType(hs[..i + 1], tt))
         == Sum(OfType(hs[..i], tt)) + (if hs[i].coin.tokenType == tt then hs[i].coin.value else 0)
  {
    assert hs[..i + 1] == hs[..i] + [hs[i]];
    OfTypeAppend(hs[..i], [hs[i]], tt);
    assert [hs[i]][1..] == [];
    SumAppend(OfType(hs[..i], tt), OfType([hs[i]], tt));
    assert Sum([hs[i]]) == hs[i].coin.value;
  }

  // `zswap_get_balances`.
  method GetBalances(st: CoinState) returns (balances: map<TokenType, U128>)
    ensures forall tt :: tt in balances <==> exists h :: h in st.coins && h.coin.tokenType == tt
    ensures forall tt :: tt in balances ==> balances[tt] == Min(Sum(OfType(st.coins, tt)), U128_LIMIT - 1)
  {
    balances := map[];
    for i := 0 to |st.coins|
      invariant forall tt :: tt in balances <==> exists h :: h in st.coins[..i] && h.coin.tokenType == tt
      invariant forall tt :: tt in balances ==> balances[tt] == Min(Sum(OfType(st.coins[..i], tt)), U128_LIMIT - 1)
    {
      var h := st.coins[i];
      var tt := h.coin.tokenType;
      var current := if tt in balances then balances[tt] else 0;
      forall x
        ensures Sum(OfType(st.coins[..i + 1], x))
             == Sum(OfType(st.coins[..i], x)) + (if tt == x then h.coin.value else 0)
      {
        OfTypeExtends(st.coins, i, x);
      }
      if tt !in balances {
        NoneOfType(st.coins[..i], tt);
      }
      assert forall x :: x in st.coins[..i + 1] <==> x in st.coins[..i] || x == h;
      balances := balances[tt := SaturatingAdd(current, h.coin.value)];
    }
    assert st.coins[..|st.coins|] == st.coins;
  }

  // At every point, in exact sums: what can be selected plus what is pending is the total.
  lemma {:induction false} SelectablePlusPending(hs: seq<Held>, tt: TokenType, pending: set<Nullifier>)
    ensures Sum(Matching(hs, tt, pending)) + Sum(PendingOfType(hs, tt, pending)) == Sum(OfType(hs, tt))
  {
    if hs == [] {
    } else {
      SelectablePlusPending(hs[1..], tt, pending);
    }
  }

  // ------------------------------------------------------------------ spends over a run

  // `zswap_spend_coin`: the coin must be held; it becomes pending and stays held.  Nothing
  // checks that it is not pending already.
  function SpendCoin(st: CoinState, h: Held): Option<CoinState> {
    if exists x :: x in st.coins && x.coin == h.coin then Some(st.(pending := st.pending + {h.nul})) else None
  }

  // A spend marks its own coin and leaves every other coin and mark alone.
  lemma SpendMarksOne(st: CoinState, h: Held)
    ensures SpendCoin(st, h).Some? <==> exists x :: x in st.coins && x.coin == h.coin
    ensures SpendCoin(st, h).Some? ==>
      && SpendCoin(st, h).value.coins == st.coins
      && forall n :: n in SpendCoin(st, h).value.pending <==> n in st.pending || n == h.nul
  {
  }

  // seen: every coin ever received; offered: every coin a selection returned; spent: the
  // spends made, in order.
  datatype Run = Run(st: CoinState, seen: set<Held>, offered: set<Held>, spent: seq<Nullifier>)

  const EMPTY: Run := Run(CoinState([], {}), {}, {}, [])

  datatype Action =
    | Select(tt: TokenType, amount: U128)  // ask for coins; the state does not change
    | Spend(h: Held)                       // spend a coin some selection returned, then or later
    | Receive(h: Held)                     // a replayed event reveals a new coin
    | Confirm(n: Nullifier)                // a replayed event confirms a spend
    | Rebuild                              // replay from genesis: all pending marks are lost

  function WithoutCoin(hs: seq<Held>, n: Nullifier): (r: seq<Held>)
    ensures forall h :: h in r <==> h in hs && h.nul != n
  {
    if hs == [] then []
    else if hs[0].nul == n then WithoutCoin(hs[1..], n)
    else [hs[0]] + WithoutCoin(hs[1..], n)
  }

  // A new coin has a nullifier and a tree index of its own.
  predicate Possible(r: Run, a: Action) {
    match a
    case Spend(h) => h in r.offered
    case Receive(h) => forall x :: x in r.seen ==> x.nul != h.nul && x.coin != h.coin
    case _ => true
  }

  function Act(r: Run, a: Action): Run {
    match a
    case Select(tt, amount) =>
      (match Selection(r.st, tt, amount)
       case None => r
       case Some(sel) => r.(offered := r.offered + (set h | h in sel)))
    case Spend(h) =>
      (match SpendCoin(r.st, h)
       case None => r
       case Some(st) => r.(st := st, spent := r.spent + [h.nul]))
    case Receive(h) => r.(st := r.st.(coins := r.st.coins + [h]), seen := r.seen + {h})
    case Confirm(n) => r.(st := CoinState(WithoutCoin(r.st.coins, n), r.st.pending - {n}))
    case Rebuild => r.(st := r.st.(pending := {}))
  }

  // What the chain's events and a rebuild do to the held coins and the marks, and no more.
  lemma EventsAre(r: Run, h: Held, n: Nullifier)
    ensures Act(r, Receive(h)).st == CoinState(r.st.coins + [h], r.st.pending)
    ensures forall x :: x in Act(r, Confirm(n)).st.coins <==> x in r.st.coins && x.nul != n
    ensures forall m :: m in Act(r, Confirm(n)).st.pending <==> m in r.st.pending && m != n
    ensures Act(r, Rebuild).st == CoinState(r.st.coins, {})
  {
  }

  // Coins are told apart by nullifier and by tree index.
  predicate Distinct(hs: set<Held>) {
    forall x, y :: x in hs && y in hs && (x.nul == y.nul || x.coin == y.coin) ==> x == y
  }

  // The coins held and offered were received; the pending ones are spent, and a spent coin
  // still held is pending.
  predicate Inv(r: Run) {
    && DistinctKeys(r.st.coins)
    && Distinct(r.seen)
    && (forall h :: h in r.st.coins ==> h in r.seen)
    && r.offered <= r.seen
    && (forall n :: n in r.spent ==> exists h :: h in r.offered && h.nul == n)
    && (forall n :: n in r.st.pending ==> n in r.spent)
    && (forall h :: h in r.st.coins && h.nul in r.spent ==> h.nul in r.st.pending)
    && NoDuplicates(r.spent)
  }

  // The coin is held and another spend of it awaits confirmation.
  predicate SpendsAgain(r: Run, h: Held) {
    h in r.st.coins && h.nul in r.st.pending
  }

  // Some spend is not confirmed yet.
  predicate AwaitsConfirmation(r: Run) {
    exists h :: h in r.st.coins && h.nul in r.spent
  }

  // The caller's discipline: no coin that is pending now is spent, and no state is rebuilt
  // before every spend is confirmed.
  predicate Careful(r: Run, a: Action) {
    && (a.Spend? ==> !SpendsAgain(r, a.h))
    && (a.Rebuild? ==> !AwaitsConfirmation(r))
  }

  lemma {:induction false} KeysOf(hs: seq<Held>, n: Nullifier)
    ensures n in KeySet(hs) <==> exists h :: h in hs && h.nul == n
  {
    if hs == [] {
    } else {
      KeysOf(hs[1..], n);
      assert hs[0] in hs && forall h :: h in hs <==> h == hs[0] || h in hs[1..];
    }
  }

  lemma {:induction false} MatchingKeys(hs: seq<Held>, tt: TokenType, pending: set<Nullifier>)
    ensures KeySet(Matching(hs, tt, pending)) <= KeySet(hs) - pending
    ensures DistinctKeys(hs) ==> DistinctKeys(Matching(hs, tt, pending))
  {
    if hs == [] {
    } else {
      MatchingKeys(hs[1..], tt, pending);
    }
  }

  lemma {:induction false} PrefixKeys(hs: seq<Held>, k: nat)
    requires k <= |hs|
    ensures KeySet(hs[..k]) <= KeySet(hs) && (DistinctKeys(hs) ==> DistinctKeys(hs[..k]))
  {
    if k == 0 {
    } else {
      PrefixKeys(hs[1..], k - 1);
      assert hs[..k][1..] == hs[1..][..k - 1];
    }
  }

  lemma {:induction false} WithoutCoinKeys(hs: seq<Held>, n: Nullifier)
    ensures KeySet(WithoutCoin(hs, n)) <= KeySet(hs) - {n}
    ensures DistinctKeys(hs) ==> DistinctKeys(WithoutCoin(hs, n))
  {
    if hs == [] {
    } else {
      WithoutCoinKeys(hs[1..], n);
    }
  }

  lemma {:induction false} ReceivedKeys(hs: seq<Held>, h: Held)
    ensures KeySet(hs + [h]) == KeySet(hs) + {h.nul}
    ensures DistinctKeys(hs) && h.nul !in KeySet(hs) ==> DistinctKeys(hs + [h])
  {
    if hs == [] {
      assert hs + [h] == [h];
    } else {
      assert (hs + [h])[0] == hs[0] && (hs + [h])[1..] == hs[1..] + [h];
      ReceivedKeys(hs[1..], h);
    }
  }

  // The coins of a selection are held, not pending, and pairwise different.
  lemma SelectedAreFresh(st: CoinState, tt: TokenType, amount: U128)
    requires DistinctKeys(st.coins) && Selection(st, tt, amount).Some?
    ensures var sel := Selection(st, tt, amount).value;
      && (forall h :: h in sel ==> h in st.coins && h.nul !in st.pending)
      && DistinctKeys(sel)
  {
    var hs := Selectable(st, tt);
    var sorted := SortByValue(hs);
    var sel := Selection(st, tt, amount).value;
    SortKeys(hs);
    SortPermutes(ByValue, hs);
    MatchingKeys(st.coins, tt, st.pending);
    if amount > 0 {
      CoverSpec(sorted, amount);
    } else {
      ZeroAmount(st, tt);
    }
    assert sel == sorted[..|sel|];
    PrefixKeys(sorted, |sel|);
    assert forall h :: h in sel ==> h in sorted;
  }

  lemma SelectKeeps(r: Run, tt: TokenType, amount: U128)
    requires Inv(r)
    ensures Inv(Act(r, Select(tt, amount)))
  {
    if Selection(r.st, tt, amount).Some? {
      SelectedAreFresh(r.st, tt, amount);
    }
  }

  lemma MemberIff(s: seq<Nullifier>, n: Nullifier)
    requires NoDuplicates(s)
    ensures NoDuplicates(s + [n]) <==> n !in s
  {
    if n in s {
      var i :| 0 <= i < |s| && s[i] == n;
      assert (s + [n])[i] == (s + [n])[|s|];
    }
  }

  // Any coin ever offered, in any order and with events in between: spending it keeps every
  // coin spent once exactly when it is not, at that moment, held and pending.
  lemma SpendIsSafeIff(r: Run, h: Held)
    requires Inv(r) && h in r.offered
    ensures NoDuplicates(Act(r, Spend(h)).spent) <==> !SpendsAgain(r, h)
    ensures !SpendsAgain(r, h) ==> Inv(Act(r, Spend(h)))
  {
    if SpendCoin(r.st, h).Some? {
      var x :| x in r.st.coins && x.coin == h.coin;
      assert x == h;
      MemberIff(r.spent, h.nul);
      assert h.nul in r.spent <==> h.nul in r.st.pending;
    } else {
      assert h !in r.st.coins;
    }
  }

  // Rebuilding forgets the pending marks: some later spend of a coin that the rebuilt state
  // does not show as pending repeats one made before, exactly when a spend was unconfirmed.
  lemma RebuildIsSafeIff(r: Run)
    requires Inv(r)
    ensures var rebuilt := Act(r, Rebuild);
      (exists h :: h in r.offered && !SpendsAgain(rebuilt, h) && !NoDuplicates(Act(rebuilt, Spend(h)).spent))
      <==> AwaitsConfirmation(r)
    ensures Inv(Act(r, Rebuild)) <==> !AwaitsConfirmation(r)
  {
    var rebuilt := Act(r, Rebuild);
    if x :| x in r.st.coins && x.nul in r.spent {
      var h :| h in r.offered && h.nul == x.nul;
      assert h == x && SpendCoin(rebuilt.st, h).Some?;
      MemberIff(r.spent, h.nul);
      assert !SpendsAgain(rebuilt, h) && !NoDuplicates(Act(rebuilt, Spend(h)).spent);
    } else {
      forall h | h in r.offered
        ensures NoDuplicates(Act(rebuilt, Spend(h)).spent)
      {
        assert Inv(rebuilt);
        SpendIsSafeIff(rebuilt, h);
      }
    }
  }

  lemma EventsKeep(r: Run, a: Action)
    requires Inv(r) && Possible(r, a) && (a.Receive? || a.Confirm?)
    ensures Inv(Act(r, a))
  {
    match a
    case Receive(h) =>
      ReceivedKeys(r.st.coins, h);
      KeysOf(r.st.coins, h.nul);
      assert forall n :: n in r.spent ==> n != h.nul;
    case Confirm(n) => WithoutCoinKeys(r.st.coins, n);
  }

  predicate RunFrom(r: Run, run: seq<Action>)
    decreases |run|
  {
    run == [] || (Possible(r, run[0]) && RunFrom(Act(r, run[0]), run[1..]))
  }

  function After(r: Run, run: seq<Action>): Run
    decreases |run|
  {
    if run == [] then r else After(Act(r, run[0]), run[1..])
  }

  predicate CarefulRun(r: Run, run: seq<Action>)
    decreases |run|
  {
    run == [] || (Careful(r, run[0]) && CarefulRun(Act(r, run[0]), run[1..]))
  }

  lemma ActKeeps(r: Run, a: Action)
    requires Inv(r) && Possible(r, a) && Careful(r, a)
    ensures Inv(Act(r, a))
  {
    match a
    case Select(tt, amount) => SelectKeeps(r, tt, amount);
    case Spend(h) => SpendIsSafeIff(r, h);
    case Rebuild => RebuildIsSafeIff(r);
    case _ => EventsKeep(r, a);
  }

  lemma {:induction false} InvHolds(r: Run, run: seq<Action>)
    requires Inv(r) && RunFrom(r, run) && CarefulRun(r, run)
    ensures Inv(After(r, run))
    decreases |run|
  {
    if run == [] {
    } else {
      ActKeeps(r, run[0]);
      InvHolds(Act(r, run[0]), run[1..]);
    }
  }

  // Over every careful run no coin is spent twice; and at its end, whatever the token, the
  // selectable amount plus the pending one is the total.
  lemma NeverSpentTwice(run: seq<Action>, tt: TokenType)
    requires RunFrom(EMPTY, run) && CarefulRun(EMPTY, run)
    ensures var r := After(EMPTY, run);
      && NoDuplicates(r.spent)
      && Sum(Selectable(r.st, tt)) + Sum(PendingOfType(r.st.coins, tt, r.st.pending)) == Sum(OfType(r.st.coins, tt))
  {
    InvHolds(EMPTY, run);
    var r := After(EMPTY, run);
    SelectablePlusPending(r.st.coins, tt, r.st.pending);
  }

  // Every spend of the run takes a coin of the given ones, each at most once, and no state is
  // rebuilt.
  predicate SpendsOnceEach(run: seq<Action>, given: set<Held>)
    decreases |run|
  {
    run == [] || (
      match run[0]
      case Rebuild => false
      case Spend(h) => h in given && SpendsOnceEach(run[1..], given - {h})
      case _ => SpendsOnceEach(run[1..], given))
  }

  // Spending coins the state shows as free, each once, is careful: in any order, all or some,
  // with other selections and events in between.
  lemma {:induction false} SpendingOnceIsCareful(r: Run, run: seq<Action>, given: set<Held>)
    requires Inv(r) && RunFrom(r, run) && SpendsOnceEach(run, given)
    requires given <= r.seen && forall h :: h in given ==> h.nul !in r.st.pending
    ensures CarefulRun(r, run)
    decreases |run|
  {
    if run == [] {
    } else {
      var a := run[0];
      assert Careful(r, a);
      ActKeeps(r, a);
      SpendingOnceIsCareful(Act(r, a), run[1..], if a.Spend? then given - {a.h} else given);
    }
  }

  // A selection may be spent in whole or in part, in any order.
  lemma SelectionIsSafeToSpend(r: Run, tt: TokenType, amount: U128, run: seq<Action>)
    requires Inv(r) && Selection(r.st, tt, amount).Some? && RunFrom(Act(r, Select(tt, amount)), run)
    requires SpendsOnceEach(run, set h | h in Selection(r.st, tt, amount).value)
    ensures NoDuplicates(After(Act(r, Select(tt, amount)), run).spent)
  {
    var r1 := Act(r, Select(tt, amount));
    SelectedAreFresh(r.st, tt, amount);
    SelectKeeps(r, tt, amount);
    SpendingOnceIsCareful(r1, run, set h | h in Selection(r.st, tt, amount).value);
    InvHolds(r1, run);
  }

  // Unfolds one action of a run.
  lemma One(r: Run, a: Action, rest: seq<Action>)
    ensures RunFrom(r, [a] + rest) <==> Possible(r, a) && RunFrom(Act(r, a), rest)
    ensures CarefulRun(r, [a] + rest) <==> Careful(r, a) && CarefulRun(Act(r, a), rest)
    ensures After(r, [a] + rest) == After(Act(r, a), rest)
  {
    assert ([a] + rest)[0] == a && ([a] + rest)[1..] == rest;
  }

  // Spending a held coin twice in a row goes through, and is not careful.
  lemma SpendingTwice(r: Run, h: Held)
    requires h in r.st.coins && h in r.offered
    ensures RunFrom(r, [Spend(h), Spend(h)]) && !CarefulRun(r, [Spend(h), Spend(h)])
    ensures !NoDuplicates(After(r, [Spend(h), Spend(h)]).spent)
  {
    var r1 := Act(r, Spend(h));
    var r2 := Act(r1, Spend(h));
    assert SpendsAgain(r1, h);
    One(r, Spend(h), [Spend(h)]);
    assert [Spend(h)] == [Spend(h)] + [] && [Spend(h), Spend(h)] == [Spend(h)] + [Spend(h)];
    One(r1, Spend(h), []);
    assert r2.spent[|r.spent|] == r2.spent[|r.spent| + 1];
  }

  // Two selections from one state return the same coins; spending both spends twice.
  lemma SameSelectionTwice(r: Run, tt: TokenType, amount: U128)
    requires Inv(r) && Selection(r.st, tt, amount).Some? && Selection(r.st, tt, amount).value != []
    ensures var h := Selection(r.st, tt, amount).value[0];
      var run := [Select(tt, amount)] + ([Select(tt, amount)] + [Spend(h), Spend(h)]);
      RunFrom(r, run) && !CarefulRun(r, run) && !NoDuplicates(After(r, run).spent)
  {
    var select, h := Select(tt, amount), Selection(r.st, tt, amount).value[0];
    SelectedAreFresh(r.st, tt, amount);
    var r1 := Act(r, select);
    assert Act(r1, select) == r1;
    SpendingTwice(r1, h);
    One(r1, select, [Spend(h), Spend(h)]);
    One(r, select, [select] + [Spend(h), Spend(h)]);
  }
}
