// Paying a transaction's fee from the wallet's dust: choosing the UTXO, sizing the fee
// over two passes, and writing the spent state back.
module DustBalance {
  import opened Common

  type Nullifier(==, !new)
  type Time = nat

  datatype Utxo = Utxo(nul: Nullifier, seqNo: nat)

  // The local dust state: the UTXOs it tracks, the nullifiers it holds as pending, and those
  // whose UTXO it keeps under a key of an older nullifier encoding.
  datatype DustState = DustState(utxos: seq<Utxo>, pending: set<Nullifier>, stale: set<Nullifier>)

  datatype DustSpend = DustSpend(oldNullifier: Nullifier, vFee: U128)

  // Whether a UTXO can pay a fee at a time; the ledger's rule, a parameter throughout.
  type Pays = (Utxo, U128, Time) -> bool

  // A UTXO that can pay a fee can pay any smaller one.
  ghost predicate Monotone(pays: Pays) {
    forall u, f, g: U128, t {:trigger pays(u, f, t), pays(u, g, t)} :: pays(u, f, t) && g <= f ==> pays(u, g, t)
  }

  function WithoutPending(us: seq<Utxo>, pending: set<Nullifier>): (r: seq<Utxo>)
    ensures forall u :: u in r <==> u in us && u.nul !in pending
  {
    if us == [] then []
    else if us[0].nul in pending then WithoutPending(us[1..], pending)
    else [us[0]] + WithoutPending(us[1..], pending)
  }

  // `utxos()`: the tracked UTXOs without a pending mark.
  function Listed(st: DustState): seq<Utxo> {
    WithoutPending(st.utxos, st.pending)
  }

  // `utxos()` lists every tracked UTXO without a pending mark, in the state's order.
  lemma {:induction false} ListedInOrder(us: seq<Utxo>, pending: set<Nullifier>)
    ensures Picks(us, WithoutPending(us, pending), (u: Utxo) => u.nul !in pending)
  {
    var keep := (u: Utxo) => u.nul !in pending;
    if us == [] {
      PicksNone(keep);
    } else {
      var rest := WithoutPending(us[1..], pending);
      ListedInOrder(us[1..], pending);
      PicksMore(us, rest, keep);
      assert [] + rest == rest;
    }
  }

  // `current_nullifiers`.
  function CurrentNullifiers(st: DustState): set<Nullifier> {
    set u | u in Listed(st) :: u.nul
  }

  // `rekey_dust_utxos`: every UTXO under its current key.
  function Rekeyed(st: DustState): DustState {
    st.(stale := {})
  }

  // `DustLocalState::spend`: fails on a UTXO it does not find under its current key and on one
  // that cannot pay, otherwise marks the UTXO pending and touches nothing else.
  function Spend(pays: Pays, st: DustState, u: Utxo, fee: U128, t: Time): Option<(DustState, DustSpend)> {
    if u in st.utxos && u.nul !in st.stale && pays(u, fee, t)
    then Some((st.(pending := st.pending + {u.nul}), DustSpend(u.nul, fee)))
    else None
  }

  type Selection = (DustState, seq<DustSpend>, seq<Nullifier>)

  predicate Eligible(pays: Pays, u: Utxo, fee: U128, t: Time, exclude: set<Nullifier>) {
    pays(u, fee, t) && u.nul !in exclude
  }

  // The position of the first eligible UTXO.
  function FirstEligible(pays: Pays, us: seq<Utxo>, fee: U128, t: Time, exclude: set<Nullifier>): (r: Option<nat>)
    ensures match r
      case Some(i) => i < |us| && Eligible(pays, us[i], fee, t, exclude) &&
                      forall j :: 0 <= j < i ==> !Eligible(pays, us[j], fee, t, exclude)
      case None => forall j :: 0 <= j < |us| ==> !Eligible(pays, us[j], fee, t, exclude)
  {
    if us == [] then None
    else if Eligible(pays, us[0], fee, t, exclude) then Some(0)
    else
      match FirstEligible(pays, us[1..], fee, t, exclude)
      case Some(i) => Some(i + 1)
      case None => None
  }

  // What a selection is: nothing for a zero fee; otherwise one spend of the whole fee from
  // the first listed UTXO that can pay it and is neither excluded nor stale, and only that one
  // marked.
  function Selected(pays: Pays, st: DustState, fee: U128, t: Time, exclude: set<Nullifier>): Option<Selection> {
    if fee == 0 then Some((st, [], []))
    else
      match FirstEligible(pays, Listed(st), fee, t, exclude + st.stale)
      case None => None
      case Some(i) =>
        var n := Listed(st)[i].nul;
        Some((st.(pending := st.pending + {n}), [DustSpend(n, fee)], [n]))
  }

  // `select_dust_spends`.
  method SelectDustSpends(pays: Pays, st: DustState, totalFee: U128, t: Time, exclude: set<Nullifier>)
    returns (r: Option<Selection>)
    ensures r == Selected(pays, st, totalFee, t, exclude)
  {
    var utxos := Listed(st);
    var current := st;
    var dustSpends: seq<DustSpend> := [];
    var spent: seq<Nullifier> := [];
    var remaining := totalFee;
    var idx := 0;
    while idx < |utxos|
      invariant 0 <= idx <= |utxos|
      invariant remaining == totalFee || remaining == 0
      invariant remaining == totalFee ==> current == st && dustSpends == [] && spent == []
      invariant remaining == totalFee > 0 ==>
        forall j :: 0 <= j < idx ==> !Eligible(pays, utxos[j], totalFee, t, exclude + st.stale)
      invariant remaining == 0 ==> Some((current, dustSpends, spent)) == Selected(pays, st, totalFee, t, exclude)
    {
      if remaining == 0 {
        break;
      }
      var utxo := utxos[idx];
      idx := idx + 1;
      match Spend(pays, current, utxo, remaining, t) {
        case Some((newState, dustSpend)) =>
          if dustSpend.oldNullifier in exclude {
            continue;
          }
          assert FirstEligible(pays, utxos, totalFee, t, exclude + st.stale) == Some(idx - 1);
          current := newState;
          dustSpends := dustSpends + [dustSpend];
          spent := spent + [dustSpend.oldNullifier];
          assert dustSpends == [dustSpend] && spent == [utxo.nul];
          remaining := 0;
        case None =>
      }
    }
    if remaining > 0 {
      return None;
    }
    r := Some((current, dustSpends, spent));
  }

  // The fee loop of `serialize_unshielded_transaction_with_dust`: no exclusion set, no
  // nullifiers reported.
  method PayFromFirst(pays: Pays, st: DustState, totalFee: U128, t: Time)
    returns (r: Option<(DustState, seq<DustSpend>)>)
    requires totalFee > 0
    ensures var s := Selected(pays, st, totalFee, t, {});
      r == if s.Some? then Some((s.value.0, s.value.1)) else None
  {
    var utxos := Listed(st);
    var current := st;
    var dustSpends: seq<DustSpend> := [];
    var remaining := totalFee;
    for idx := 0 to |utxos|
      invariant remaining == totalFee || remaining == 0
      invariant remaining == totalFee ==> current == st && dustSpends == []
      invariant remaining == totalFee ==>
        forall j :: 0 <= j < idx ==> !Eligible(pays, utxos[j], totalFee, t, {} + st.stale)
      invariant remaining == 0 ==>
        var s := Selected(pays, st, totalFee, t, {});
        s.Some? && s.value.0 == current && s.value.1 == dustSpends
    {
      if remaining == 0 {
        break;
      }
      match Spend(pays, current, utxos[idx], remaining, t) {
        case Some((newState, dustSpend)) =>
          current := newState;
          dustSpends := dustSpends + [dustSpend];
          remaining := 0;
        case None =>
      }
    }
    if remaining > 0 {
      return None;
    }
    r := Some((current, dustSpends));
  }

  // Some listed UTXO, neither excluded nor stale, can pay.
  predicate SomeCanPay(pays: Pays, st: DustState, fee: U128, t: Time, exclude: set<Nullifier>) {
    exists u :: u in Listed(st) && Eligible(pays, u, fee, t, exclude + st.stale)
  }

  predicate Payable(pays: Pays, st: DustState, u: Utxo, fee: U128, t: Time, exclude: set<Nullifier>) {
    pays(u, fee, t) && u.nul !in exclude && u.nul !in st.stale && u.nul !in st.pending
  }

  // The first UTXO of the whole state that is unmarked and eligible.
  predicate FirstPayable(pays: Pays, st: DustState, m: nat, fee: U128, t: Time, exclude: set<Nullifier>) {
    && m < |st.utxos| && Payable(pays, st, st.utxos[m], fee, t, exclude)
    && forall j :: 0 <= j < m ==> !Payable(pays, st, st.utxos[j], fee, t, exclude)
  }

  lemma FirstInTheState(pays: Pays, st: DustState, fee: U128, t: Time, exclude: set<Nullifier>)
    requires fee > 0 && Selected(pays, st, fee, t, exclude).Some?
    ensures exists m: nat ::
      FirstPayable(pays, st, m, fee, t, exclude) && Selected(pays, st, fee, t, exclude).value.2 == [st.utxos[m].nul]
  {
    var keep := (u: Utxo) => u.nul !in st.pending;
    var listed := Listed(st);
    var i := FirstEligible(pays, listed, fee, t, exclude + st.stale).value;
    ListedInOrder(st.utxos, st.pending);
    var at :| PicksAt(st.utxos, listed, keep, at);
    var m := at[i];
    assert listed[i] == st.utxos[m] && listed[i] in listed;
    forall j | 0 <= j < m
      ensures !Payable(pays, st, st.utxos[j], fee, t, exclude)
    {
      if keep(st.utxos[j]) {
        PickedBefore(st.utxos, listed, keep, at, i, j);
      }
    }
    assert FirstPayable(pays, st, m, fee, t, exclude);
  }

  // A zero fee needs no spend.  For a positive fee: success iff some listed UTXO can pay the whole fee and is neither
  // excluded nor stale; then one spend, of exactly the fee, from a UTXO no earlier listed one beats,
  // which leaves the list while every other UTXO stays.
  lemma SelectionSpec(pays: Pays, st: DustState, fee: U128, t: Time, exclude: set<Nullifier>)
    ensures fee == 0 ==> Selected(pays, st, fee, t, exclude) == Some((st, [], []))
    ensures fee > 0 ==> (Selected(pays, st, fee, t, exclude).Some? <==> SomeCanPay(pays, st, fee, t, exclude))
    ensures fee > 0 ==> match Selected(pays, st, fee, t, exclude)
      case None => true
      case Some((st', spends, nuls)) =>
        exists i :: 0 <= i < |Listed(st)| && Eligible(pays, Listed(st)[i], fee, t, exclude + st.stale) &&
          (forall j :: 0 <= j < i ==> !Eligible(pays, Listed(st)[j], fee, t, exclude + st.stale)) &&
          spends == [DustSpend(Listed(st)[i].nul, fee)] && nuls == [Listed(st)[i].nul] &&
          st'.utxos == st.utxos && st'.stale == st.stale &&
          forall u :: u in Listed(st') <==> u in Listed(st) && u.nul != Listed(st)[i].nul
  {
    var r := FirstEligible(pays, Listed(st), fee, t, exclude + st.stale);
    if r.Some? {
      var u := Listed(st)[r.value];
      assert u in Listed(st);
    }
  }

  // ------------------------------------------------------------------------ fee sizing

  const FEE_OVERHEAD_PERCENT: nat := 1

  function WrappingAdd(a: U128, b: U128): U128 {
    (a + b) % U128_LIMIT
  }

  // `merged_total_fee` as the release profile compiles it, with wrapping arithmetic.
  function MergedTotalFee(baseFee: U128, dustIntentFee: U128): U128 {
    var merged := WrappingAdd(baseFee, dustIntentFee);
    WrappingAdd(merged, merged * FEE_OVERHEAD_PERCENT % U128_LIMIT / 100)
  }

  // The sized fee covers both fees exactly when the padded sum fits 128 bits, and then
  // exceeds them by at most one percent.
  lemma FeeCoversIffItFits(baseFee: U128, dustIntentFee: U128)
    ensures var due := baseFee + dustIntentFee;
      var total := MergedTotalFee(baseFee, dustIntentFee);
      && (due <= total <==> due + due / 100 < U128_LIMIT)
      && (due <= total ==> total == due + due / 100 && 100 * (total - due) <= due)
  {
    var due := baseFee + dustIntentFee;
    if due < U128_LIMIT {
      RemainderUnique(due, 0, due, U128_LIMIT);
      var padded := due + due / 100;
      if padded < U128_LIMIT {
        RemainderUnique(padded, 0, padded, U128_LIMIT);
      } else {
        RemainderUnique(padded, 1, padded - U128_LIMIT, U128_LIMIT);
      }
    }
  }

  // A dust intent's own fee, given the spends it carries.
  type IntentFee = seq<DustSpend> -> U128

  ghost predicate CountsSpendsOnly(intentFee: IntentFee) {
    forall a, b :: |a| == |b| ==> intentFee(a) == intentFee(b)
  }

  // A successful balance: the spends of the real pass, the state it leaves, what was spent.
  datatype Balanced = Balanced(state: DustState, spends: seq<DustSpend>, nullifiers: seq<Nullifier>)

  function BalanceOutcome(pays: Pays, intentFee: IntentFee, st: DustState, baseFee: U128, t: Time,
                          exclude: set<Nullifier>, finishes: bool): Option<Balanced> {
    if baseFee == 0 then if finishes then Some(Balanced(st, [], [])) else None
    else
      match Selected(pays, st, baseFee, t, exclude)
      case None => None
      case Some((_, draft, _)) =>
        match Selected(pays, st, MergedTotalFee(baseFee, intentFee(draft)), t, exclude)
        case None => None
        case Some((st', spends, nuls)) => if finishes then Some(Balanced(st', spends, nuls)) else None
  }

  // Steps 2 to 4 of `balance_proven_transaction_impl`; finishes says whether the ledger's fee
  // calculations before and the proving, merging, sealing and serialising after succeed.
  method BalanceImpl(pays: Pays, intentFee: IntentFee, st: DustState, baseFee: U128, t: Time,
                     exclude: set<Nullifier>, finishes: bool)
    returns (r: Option<Balanced>)
    ensures r == BalanceOutcome(pays, intentFee, st, baseFee, t, exclude, finishes)
    ensures baseFee == 0 ==> r == if finishes then Some(Balanced(st, [], [])) else None
    ensures r.Some? ==> r.value.state == st.(pending := st.pending + (set n | n in r.value.nullifiers))
    ensures r.Some? ==> |r.value.nullifiers| <= 1 && forall n :: n in r.value.nullifiers ==> n !in exclude + st.pending
  {
    if baseFee == 0 {
      return if finishes then Some(Balanced(st, [], [])) else None;
    }
    var draft := SelectDustSpends(pays, st, baseFee, t, exclude);
    if draft.None? {
      return None;
    }
    var dustIntentFee := intentFee(draft.value.1);
    var totalFee := MergedTotalFee(baseFee, dustIntentFee);
    var paid := SelectDustSpends(pays, st, totalFee, t, exclude);
    if paid.None? || !finishes {
      return None;
    }
    r := Some(Balanced(paid.value.0, paid.value.1, paid.value.2));
  }

  // The requested fees summed with wrapping; an unreadable one counts as zero.
  function TotalOf(fees: seq<Option<U128>>): U128 {
    if fees == [] then 0
    else WrappingAdd(match fees[0] case Some(f) => f case None => 0, TotalOf(fees[1..]))
  }

  // p are the running sums of the requested fees, an unreadable one adding nothing.
  ghost predicate FeeSums(fees: seq<Option<U128>>, p: seq<nat>) {
    && |p| == |fees| + 1 && p[0] == 0
    && forall i :: 0 <= i < |fees| ==> p[i + 1] == p[i] + if fees[i].Some? then fees[i].value else 0
  }

  // The sum of the readable fees, unbounded.
  function ExactTotal(fees: seq<Option<U128>>): nat {
    if fees == [] then 0 else (if fees[0].Some? then fees[0].value else 0) + ExactTotal(fees[1..])
  }

  lemma {:induction false} TotalIsExactModulo(fees: seq<Option<U128>>)
    ensures TotalOf(fees) == ExactTotal(fees) % U128_LIMIT
  {
    if fees == [] {
    } else {
      TotalIsExactModulo(fees[1..]);
      AddModulo(ExactTotal(fees[1..]), if fees[0].Some? then fees[0].value else 0, U128_LIMIT);
    }
  }

  lemma {:induction false} ExactTotalIsSum(fees: seq<Option<U128>>) returns (p: seq<nat>)
    ensures FeeSums(fees, p) && p[|fees|] == ExactTotal(fees)
  {
    if fees == [] {
      p := [0];
    } else {
      var first := if fees[0].Some? then fees[0].value else 0;
      var rest := ExactTotalIsSum(fees[1..]);
      p := [0] + seq(|rest|, k requires 0 <= k < |rest| => rest[k] + first);
      forall i | 0 <= i < |fees|
        ensures p[i + 1] == p[i] + if fees[i].Some? then fees[i].value else 0
      {
        assert i > 0 ==> fees[i] == fees[1..][i - 1];
      }
    }
  }

  lemma {:induction false} ExactTotalAppend(a: seq<Option<U128>>, b: seq<Option<U128>>)
    ensures ExactTotal(a + b) == ExactTotal(a) + ExactTotal(b)
  {
    if a == [] {
      assert a + b == b;
    } else {
      assert (a + b)[0] == a[0] && (a + b)[1..] == a[1..] + b;
      ExactTotalAppend(a[1..], b);
    }
  }

  lemma WithoutOne(a: seq<Option<U128>>, b: seq<Option<U128>>, i: nat)
    requires multiset(a) == multiset(b) && a != [] && i < |b| && b[i] == a[0]
    ensures multiset(a[1..]) == multiset(b[..i] + b[i + 1..])
  {
    assert b == b[..i] + ([b[i]] + b[i + 1..]) && a == [a[0]] + a[1..];
    assert multiset(a[1..]) == multiset(a) - multiset{a[0]};
  }

  lemma ExactTotalWithoutOne(b: seq<Option<U128>>, i: nat)
    requires i < |b|
    ensures ExactTotal(b) == (if b[i].Some? then b[i].value else 0) + ExactTotal(b[..i] + b[i + 1..])
  {
    assert b == b[..i] + b[i..] && b[i..][0] == b[i] && b[i..][1..] == b[i + 1..];
    ExactTotalAppend(b[..i], b[i..]);
    ExactTotalAppend(b[..i], b[i + 1..]);
  }

  lemma {:induction false} ExactTotalIgnoresOrder(a: seq<Option<U128>>, b: seq<Option<U128>>)
    requires multiset(a) == multiset(b)
    ensures ExactTotal(a) == ExactTotal(b)
    decreases |a|
  {
    assert |multiset(a)| == |a| && |multiset(b)| == |b|;
    if a == [] {
    } else {
      assert a[0] in multiset(b);
      var i :| 0 <= i < |b| && b[i] == a[0];
      WithoutOne(a, b, i);
      ExactTotalIgnoresOrder(a[1..], b[..i] + b[i + 1..]);
      ExactTotalWithoutOne(b, i);
    }
  }

  // The order the fees are listed in does not matter.
  lemma TotalIgnoresOrder(a: seq<Option<U128>>, b: seq<Option<U128>>)
    requires multiset(a) == multiset(b)
    ensures TotalOf(a) == TotalOf(b)
  {
    ExactTotalIgnoresOrder(a, b);
    TotalIsExactModulo(a);
    TotalIsExactModulo(b);
  }

  // The cached state a caller holds a pointer to.
  class DustWallet {
    var state: DustState

    constructor (st: DustState)
      ensures state == st
    {
      state := st;
    }

    // `balance_proven_transaction`: the state is replaced on success and only then.
    method Balance(pays: Pays, intentFee: IntentFee, baseFee: U128, t: Time, exclude: set<Nullifier>, finishes: bool)
      returns (r: Option<(seq<DustSpend>, seq<Nullifier>)>)
      modifies this
      ensures var b := BalanceOutcome(pays, intentFee, old(state), baseFee, t, exclude, finishes);
        match b
        case Some(done) => state == done.state && r == Some((done.spends, done.nullifiers))
        case None => state == old(state) && r == None
      ensures baseFee == 0 ==> state == old(state) && r == if finishes then Some(([], [])) else None
    {
      var b := BalanceImpl(pays, intentFee, state, baseFee, t, exclude, finishes);
      if b.None? {
        return None;
      }
      state := b.value.state;
      r := Some((b.value.spends, b.value.nullifiers));
    }

    // `serialize_unshielded_transaction_with_dust` around its fee loop: the state is rekeyed
    // first, and it is the rekeyed state that is spent from and written back.
    method PayAndSerialize(pays: Pays, fees: seq<Option<U128>>, t: Time, serializes: bool)
      returns (r: Option<seq<DustSpend>>)
      modifies this
      ensures var total := TotalOf(fees);
        var s := Selected(pays, Rekeyed(old(state)), total, t, {});
        if total > 0 && s.Some? && serializes
        then state == s.value.0 && r == Some(s.value.1)
        else state == old(state) && r == None
      ensures exists p ::
        && FeeSums(fees, p)
        && (r.Some? <==> p[|fees|] % U128_LIMIT > 0 && serializes &&
                         SomeCanPay(pays, Rekeyed(old(state)), p[|fees|] % U128_LIMIT, t, {}))
        && (r.Some? ==> |r.value| == 1 && r.value[0].vFee == p[|fees|] % U128_LIMIT)
      ensures r.Some? ==>
        state == Rekeyed(old(state)).(pending := old(state).pending + {r.value[0].oldNullifier})
    {
      ghost var p := ExactTotalIsSum(fees);
      TotalIsExactModulo(fees);
      SelectionSpec(pays, Rekeyed(state), TotalOf(fees), t, {});
      var total := TotalOf(fees);
      if total == 0 {
        return None;
      }
      var paid := PayFromFirst(pays, Rekeyed(state), total, t);
      if paid.None? || !serializes {
        return None;
      }
      state := paid.value.0;
      r := Some(paid.value.1);
    }
  }

  // Both passes find a UTXO iff one can pay the larger fee.
  lemma BothPassesPay(pays: Pays, st: DustState, a: U128, b: U128, t: Time, exclude: set<Nullifier>)
    requires Monotone(pays) && a > 0
    ensures Selected(pays, st, a, t, exclude).Some? && Selected(pays, st, b, t, exclude).Some?
       <==> SomeCanPay(pays, st, if b < a then a else b, t, exclude)
  {
    SelectionSpec(pays, st, a, t, exclude);
    if b > 0 {
      SelectionSpec(pays, st, b, t, exclude);
    }
    if u :| u in Listed(st) && Eligible(pays, u, if b < a then a else b, t, exclude + st.stale) {
      assert Eligible(pays, u, a, t, exclude + st.stale) && Eligible(pays, u, b, t, exclude + st.stale);
    }
  }

  // Rekeying lets every listed UTXO pay that can, and lists no other.
  lemma RekeyedPaysIff(pays: Pays, st: DustState, fee: U128, t: Time)
    requires fee > 0
    ensures Selected(pays, Rekeyed(st), fee, t, {}).Some?
       <==> exists u :: u in Listed(st) && pays(u, fee, t)
    ensures CurrentNullifiers(Rekeyed(st)) == CurrentNullifiers(st) && Rekeyed(Rekeyed(st)) == Rekeyed(st)
    ensures Rekeyed(st).utxos == st.utxos && Rekeyed(st).pending == st.pending
  {
    SelectionSpec(pays, Rekeyed(st), fee, t, {});
  }

  // The fee a balance pays.
  function Paid(b: Balanced): U128 {
    if b.spends == [] then 0 else b.spends[0].vFee
  }

  // A non-zero-fee balance succeeds exactly when some listed, unexcluded UTXO can pay both the
  // base fee of the draft and the sized fee.  The sized fee is paid, by one spend whose UTXO
  // alone is marked; it covers the base fee and the intent's own exactly when the padded sum
  // fits 128 bits, and then the draft pass never stood in the way, the spend exceeds them by at
  // most one percent and its own intent costs what the draft's did.
  lemma TwoPassBalance(pays: Pays, intentFee: IntentFee, st: DustState, baseFee: U128, t: Time,
                       exclude: set<Nullifier>, finishes: bool, sample: DustSpend)
    requires Monotone(pays) && CountsSpendsOnly(intentFee) && baseFee > 0
    ensures var total := MergedTotalFee(baseFee, intentFee([sample]));
      BalanceOutcome(pays, intentFee, st, baseFee, t, exclude, finishes).Some?
      <==> finishes && SomeCanPay(pays, st, if total < baseFee then baseFee else total, t, exclude)
    ensures var due := baseFee + intentFee([sample]);
      due + due / 100 < U128_LIMIT ==> baseFee <= MergedTotalFee(baseFee, intentFee([sample]))
    ensures match BalanceOutcome(pays, intentFee, st, baseFee, t, exclude, finishes)
      case None => true
      case Some(b) =>
        var due := baseFee + intentFee([sample]);
        && Paid(b) == MergedTotalFee(baseFee, intentFee([sample]))
        && |b.nullifiers| == |b.spends| == (if Paid(b) == 0 then 0 else 1)
        && (forall i :: 0 <= i < |b.spends| ==> b.nullifiers[i] == b.spends[i].oldNullifier)
        && (forall n :: n in b.nullifiers ==> n !in exclude && n !in st.pending)
        && b.state == st.(pending := st.pending + (set n | n in b.nullifiers))
        && (due <= Paid(b) <==> due + due / 100 < U128_LIMIT)
        && (due <= Paid(b) ==> 100 * (Paid(b) - due) <= due && intentFee(b.spends) == intentFee([sample]))
  {
    var total := MergedTotalFee(baseFee, intentFee([sample]));
    FeeCoversIffItFits(baseFee, intentFee([sample]));
    SelectionSpec(pays, st, baseFee, t, exclude);
    var draft := Selected(pays, st, baseFee, t, exclude);
    if draft.Some? {
      assert |draft.value.1| == |[sample]|;
      assert intentFee(draft.value.1) == intentFee([sample]);
    }
    BothPassesPay(pays, st, baseFee, total, t, exclude);
    var b := BalanceOutcome(pays, intentFee, st, baseFee, t, exclude, finishes);
    if b.Some? && total > 0 {
      SelectionSpec(pays, st, total, t, exclude);
      assert b.value.spends == [DustSpend(b.value.nullifiers[0], total)];
      assert (set n | n in b.value.nullifiers) == {b.value.nullifiers[0]};
      assert |b.value.spends| == |[sample]|;
      assert intentFee(b.value.spends) == intentFee([sample]);
    }
  }

  // --------------------------------------------------------------------- intent lifetime

  const DUST_TTL_MARGIN_SECS: int := 15
  const DUST_TTL_MAX_WINDOW_SECS: int := 1800

  // Rust's division, which truncates toward zero.
  function HalfTowardZero(n: int): int {
    if n >= 0 then n / 2 else -((-n) / 2)
  }

  function DustIntentTtlWindowSecs(globalTtl: int): int {
    var capped := Min(globalTtl - DUST_TTL_MARGIN_SECS, DUST_TTL_MAX_WINDOW_SECS);
    var window := if capped > 0 then capped else HalfTowardZero(globalTtl);
    if window < 0 then 0 else window
  }

  // The window is usable, positive and strictly under the ceiling, exactly when the chain's
  // ceiling is at least two seconds; it never exceeds half an hour.  It is the longest such
  // window that keeps the margin, or half the ceiling when that leaves no room for the margin.
  lemma TtlWindowFits(globalTtl: int)
    ensures 0 < DustIntentTtlWindowSecs(globalTtl) < globalTtl <==> globalTtl >= 2
    ensures 0 <= DustIntentTtlWindowSecs(globalTtl) <= DUST_TTL_MAX_WINDOW_SECS
    ensures globalTtl > DUST_TTL_MARGIN_SECS ==>
      && DustIntentTtlWindowSecs(globalTtl) + DUST_TTL_MARGIN_SECS <= globalTtl
      && (DustIntentTtlWindowSecs(globalTtl) == DUST_TTL_MAX_WINDOW_SECS ||
          DustIntentTtlWindowSecs(globalTtl) + DUST_TTL_MARGIN_SECS == globalTtl)
    ensures 0 <= globalTtl <= DUST_TTL_MARGIN_SECS ==>
      2 * DustIntentTtlWindowSecs(globalTtl) <= globalTtl <= 2 * DustIntentTtlWindowSecs(globalTtl) + 1
    ensures globalTtl < 0 ==> DustIntentTtlWindowSecs(globalTtl) == 0
  {
  }
}
