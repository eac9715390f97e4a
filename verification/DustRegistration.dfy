// Registering for dust: what a NIGHT UTXO has generated, which one carries the
// registration, and the gate that waits until it can pay its own fee.
module DustRegistration {
  import opened Common

  const NIGHT_DUST_RATIO: U128 := 5_000_000_000
  const GENERATION_DECAY_RATE: U128 := 8_267

  datatype NightUtxo = NightUtxo(value: U128, intentHash: nat, outputNo: nat, ctime: nat)

  // The loop's arithmetic for one UTXO; times are seconds.
  function Generated(u: NightUtxo, now: nat): U128
    requires now < U64_LIMIT
  {
    var vfull := SaturatingMul(u.value, NIGHT_DUST_RATIO);
    var rate := SaturatingMul(u.value, GENERATION_DECAY_RATE);
    var dt := SaturatingSub(now, u.ctime);
    Min(SaturatingMul(dt, rate), vfull)
  }

  // The ledger's rule in exact arithmetic.
  function ExactDust(value: nat, dt: nat): nat {
    ProductIsNonNegative(dt, value * GENERATION_DECAY_RATE);
    Min(dt * (value * GENERATION_DECAY_RATE), value * NIGHT_DUST_RATIO)
  }

  lemma AtLeast(dt: nat, x: nat)
    requires dt > 0
    ensures dt * x >= x
  {
  }

  // However the intermediate products saturate, the result is the exact one clipped once.
  lemma SaturationIsOneClip(u: NightUtxo, now: nat)
    requires now < U64_LIMIT
    ensures Generated(u, now) == Min(ExactDust(u.value, SaturatingSub(now, u.ctime)), U128_LIMIT - 1)
  {
    var dt, exact := SaturatingSub(now, u.ctime), u.value * GENERATION_DECAY_RATE;
    var rate := SaturatingMul(u.value, GENERATION_DECAY_RATE);
    if dt > 0 && exact >= U128_LIMIT {
      AtLeast(dt, exact);
      AtLeast(dt, rate);
    }
  }

  lemma ProductGrows(a: nat, b: nat, x: nat)
    requires a <= b
    ensures a * x <= b * x
  {
  }

  lemma GeneratedGrows(u: NightUtxo, now: nat, later: nat)
    requires now <= later < U64_LIMIT
    ensures Generated(u, now) <= Generated(u, later)
  {
    SaturationIsOneClip(u, now);
    SaturationIsOneClip(u, later);
    ProductGrows(SaturatingSub(now, u.ctime), SaturatingSub(later, u.ctime), u.value * GENERATION_DECAY_RATE);
  }

  // ----------------------------------------------------------------------- the best coin

  // i is the earliest UTXO none other beats.
  predicate EarliestBest(us: seq<NightUtxo>, now: nat, i: nat)
    requires now < U64_LIMIT
  {
    && i < |us|
    && (forall j :: 0 <= j < |us| ==> Generated(us[j], now) <= Generated(us[i], now))
    && (forall j :: 0 <= j < i ==> Generated(us[j], now) < Generated(us[i], now))
  }

  datatype Failure = NoUtxo | BadUtxo | NotMatured(shortfall: nat)

  // The offer's one input, its one output, and the fee the registration allows itself.
  datatype Registration = Registration(spent: NightUtxo, returned: U128, allowFeePayment: U128)

  predicate BestSoFar(json: seq<Option<NightUtxo>>, now: nat, n: nat, at: nat, best: (NightUtxo, U128))
    requires now < U64_LIMIT && n <= |json| && forall j :: 0 <= j < n ==> json[j].Some?
  {
    && at < n && json[at] == Some(best.0) && best.1 == Generated(best.0, now)
    && (forall j :: 0 <= j < n ==> Generated(json[j].value, now) <= best.1)
    && (forall j :: 0 <= j < at ==> Generated(json[j].value, now) < best.1)
  }

  lemma BestOfAll(json: seq<Option<NightUtxo>>, now: nat, at: nat, best: (NightUtxo, U128))
    requires now < U64_LIMIT && forall j :: 0 <= j < |json| ==> json[j].Some?
    requires BestSoFar(json, now, |json|, at, best)
    ensures Converted(json).Some? && EarliestBest(Converted(json).value, now, at)
    ensures best == (Converted(json).value[at], Generated(Converted(json).value[at], now))
  {
    ConvertedAt(json);
    var us := Converted(json).value;
    forall j | 0 <= j < |us|
      ensures Generated(us[j], now) <= best.1 && (j < at ==> Generated(us[j], now) < best.1)
    {
      assert json[j] == Some(us[j]);
    }
  }

  // The selection loop: reading the UTXOs in order, keeping the first best; None is one whose
  // value or intent hash does not parse.
  method SelectBest(json: seq<Option<NightUtxo>>, now: nat) returns (best: Option<(NightUtxo, U128)>, ghost at: nat)
    requires now < U64_LIMIT && json != []
    ensures best.None? <==> Converted(json).None?
    ensures best.Some? ==>
      && EarliestBest(Converted(json).value, now, at)
      && best.value == (Converted(json).value[at], Generated(Converted(json).value[at], now))
  {
    ConvertedAt(json);
    best, at := None, 0;
    for i := 0 to |json|
      invariant best.None? <==> i == 0
      invariant forall j :: 0 <= j < i ==> json[j].Some?
      invariant best.Some? ==> BestSoFar(json, now, i, at, best.value)
    {
      if json[i].None? {
        return None, 0;
      }
      var u := json[i].value;
      var generated := Generated(u, now);
      if best.None? || generated > best.value.1 {
        best, at := Some((u, generated)), i;
      }
    }
    BestOfAll(json, now, at, best.value);
  }

  // The maturity gate for the chosen coin: all its NIGHT goes back to the owner, and its
  // dust must cover the fee.
  function Gate(u: NightUtxo, now: nat, fee: Option<U128>): Result<Registration, Failure>
    requires now < U64_LIMIT
  {
    var dust := Generated(u, now);
    if fee.Some? && dust < fee.value then Err(NotMatured(fee.value - dust))
    else Ok(Registration(u, u.value, dust))
  }

  // `build_dust_registration_transaction_impl`; fee is the transaction's fee with margin,
  // absent when no ledger parameters are supplied.
  method BuildRegistration(json: seq<Option<NightUtxo>>, now: nat, fee: Option<U128>)
    returns (r: Result<Registration, Failure>)
    requires now < U64_LIMIT
    ensures json == [] ==> r == Err(NoUtxo)
    ensures json != [] && Converted(json).None? ==> r == Err(BadUtxo)
    ensures json != [] && Converted(json).Some? ==>
      exists i: nat :: EarliestBest(Converted(json).value, now, i) && r == Gate(Converted(json).value[i], now, fee)
    ensures json != [] && Converted(json).Some? ==>
      exists j: nat :: EarliestBest(Converted(json).value, now, j) &&
        var u := Converted(json).value[j];
        var dust := Min(ExactDust(u.value, SaturatingSub(now, u.ctime)), U128_LIMIT - 1);
        r == if fee.Some? && dust < fee.value then Err(NotMatured(fee.value - dust))
             else Ok(Registration(u, u.value, dust))
  {
    if json == [] {
      return Err(NoUtxo);
    }
    var best, at := SelectBest(json, now);
    if best.None? {
      return Err(BadUtxo);
    }
    var (spent, allowFeePayment) := best.value;
    SaturationIsOneClip(spent, now);
    if fee.Some? && allowFeePayment < fee.value {
      return Err(NotMatured(fee.value - allowFeePayment));
    }
    r := Ok(Registration(spent, spent.value, allowFeePayment));
  }

  lemma BestIsUnique(us: seq<NightUtxo>, now: nat, i: nat, j: nat)
    requires now < U64_LIMIT && EarliestBest(us, now, i) && EarliestBest(us, now, j)
    ensures i == j
  {
    assert Generated(us[i], now) <= Generated(us[j], now) && Generated(us[j], now) <= Generated(us[i], now);
  }

  // The gate turns on all coins, not on the one chosen: it passes iff some coin's dust covers
  // the fee, and otherwise reports the least any coin is short by.  All NIGHT comes back.
  lemma GateTurnsOnAllCoins(us: seq<NightUtxo>, now: nat, fee: Option<U128>, i: nat)
    requires now < U64_LIMIT && EarliestBest(us, now, i)
    ensures var r := Gate(us[i], now, fee);
      match r
      case Ok(reg) =>
        && (fee.Some? ==> exists j :: 0 <= j < |us| && Generated(us[j], now) >= fee.value)
        && reg.spent in us && reg.returned == reg.spent.value
        && reg.allowFeePayment == Min(ExactDust(reg.spent.value, SaturatingSub(now, reg.spent.ctime)), U128_LIMIT - 1)
        && forall j :: 0 <= j < |us| ==> Generated(us[j], now) <= reg.allowFeePayment
      case Err(e) =>
        && fee.Some? && e.NotMatured? && e.shortfall > 0
        && (forall j :: 0 <= j < |us| ==> Generated(us[j], now) + e.shortfall <= fee.value)
        && exists j :: 0 <= j < |us| && Generated(us[j], now) + e.shortfall == fee.value
  {
    assert us[i] in us;
    SaturationIsOneClip(us[i], now);
  }

  // ------------------------------------------------------------------------- maturing

  function CeilDiv(a: nat, b: nat): nat
    requires b > 0
  {
    (a + b - 1) / b
  }

  lemma CeilDivSpec(a: nat, b: nat, w: nat)
    requires b > 0
    ensures w * b >= a <==> w >= CeilDiv(a, b)
  {
    var c := CeilDiv(a, b);
    assert a + b - 1 == b * c + (a + b - 1) % b;
    assert b * c >= a && b * c <= a + b - 1;
    if w >= c {
      ProductGrows(c, w, b);
      assert b * c == c * b;
    } else {
      ProductGrows(w, c - 1, b);
      assert (c - 1) * b == b * c - b;
    }
  }

  // A single coin whose cap covers the fee and that is short by s at now: exactly the waits
  // of at least ceil(s / (v * 8267)) seconds bring it to the fee.
  lemma WaitExactly(u: NightUtxo, now: nat, fee: U128, w: nat)
    requires now + w < U64_LIMIT && u.ctime <= now
    requires Generated(u, now) < fee <= u.value * NIGHT_DUST_RATIO
    ensures u.value > 0
    ensures Generated(u, now + w) >= fee
       <==> w >= CeilDiv(fee - Generated(u, now), u.value * GENERATION_DECAY_RATE)
  {
    var dt, rate := now - u.ctime, u.value * GENERATION_DECAY_RATE;
    assert u.value > 0;
    SaturationIsOneClip(u, now);
    SaturationIsOneClip(u, now + w);
    assert Generated(u, now) == dt * rate;
    assert (dt + w) * rate == dt * rate + w * rate;
    CeilDivSpec(fee - Generated(u, now), rate, w);
  }

  // After DUST_NOT_MATURED with shortfall s on a coin of value v whose cap covers the fee,
  // the gate passes at every time from now + ceil(s / (v * 8267)) on, whichever coin is then
  // the best.
  lemma WaitingMatures(us: seq<NightUtxo>, now: nat, fee: U128, i: nat, w: nat, k: nat)
    requires now + w < U64_LIMIT && EarliestBest(us, now, i) && EarliestBest(us, now + w, k)
    requires Gate(us[i], now, Some(fee)).Err? && us[i].ctime <= now && fee <= us[i].value * NIGHT_DUST_RATIO
    requires us[i].value > 0 &&
      w >= CeilDiv(Gate(us[i], now, Some(fee)).error.shortfall, us[i].value * GENERATION_DECAY_RATE)
    ensures Gate(us[k], now + w, Some(fee)).Ok?
  {
    WaitExactly(us[i], now, fee, w);
  }

  // From a week after the youngest coin (604,815 seconds) the gate passes iff some coin's cap
  // covers the fee; without such a coin it never does.
  lemma MaturesIffSomeCapCovers(us: seq<NightUtxo>, now: nat, fee: U128, k: nat)
    requires now < U64_LIMIT && EarliestBest(us, now, k)
    ensures Gate(us[k], now, Some(fee)).Ok? ==> exists i :: 0 <= i < |us| && fee <= us[i].value * NIGHT_DUST_RATIO
    ensures (forall i :: 0 <= i < |us| ==> us[i].ctime + 604_815 <= now) ==>
      (Gate(us[k], now, Some(fee)).Ok? <==> exists i :: 0 <= i < |us| && fee <= us[i].value * NIGHT_DUST_RATIO)
  {
    SaturationIsOneClip(us[k], now);
    if forall i :: 0 <= i < |us| ==> us[i].ctime + 604_815 <= now {
      if i :| 0 <= i < |us| && fee <= us[i].value * NIGHT_DUST_RATIO {
        SaturationIsOneClip(us[i], now);
        ProductGrows(604_815, now - us[i].ctime, us[i].value * GENERATION_DECAY_RATE);
      }
    }
  }
}
