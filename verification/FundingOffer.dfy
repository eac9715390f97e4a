// The offer that pays a contract what its circuit receives.
module FundingOffer {
  import opened Common
  import opened Sorting
  import opened Offers

  // One input as the JSON gives it: None where a field is missing or does not convert.
  datatype JsonInput = JsonInput(
    value: Option<U128>, owner: Option<nat>, typeHex: Option<string>, intentHash: Option<nat>, outputNo: Option<U64>)

  datatype Funding = Funding(
    amount: Option<U128>, inputs: seq<JsonInput>, changeOwner: Option<nat>, nightKey: Option<nat>)

  datatype Failure =
    | BadAmount | NoInputs | BadInput(index: nat) | MixedTokens | Overflow | TooLittle | BadChangeOwner | BadKey

  datatype Offer = Offer(inputs: seq<UtxoSpend>, outputs: seq<UtxoOutput>, signatures: nat)

  // A 32-byte token type from its hex text.
  type TokenOf = string -> Option<nat>

  predicate Complete(tokenOf: TokenOf, j: JsonInput) {
    j.value.Some? && j.owner.Some? && j.typeHex.Some? && tokenOf(j.typeHex.value).Some? &&
    j.intentHash.Some? && j.outputNo.Some?
  }

  // The input as the ledger sees it; `as u32` drops the high half of the output number.
  function SpendOf(tokenOf: TokenOf, j: JsonInput): UtxoSpend
    requires Complete(tokenOf, j)
  {
    UtxoSpend(j.value.value, j.owner.value, tokenOf(j.typeHex.value).value, j.intentHash.value,
              j.outputNo.value % 0x1_0000_0000)
  }

  predicate AllComplete(tokenOf: TokenOf, js: seq<JsonInput>) {
    forall i :: 0 <= i < |js| ==> Complete(tokenOf, js[i])
  }

  function SpendsOf(tokenOf: TokenOf, js: seq<JsonInput>): (r: seq<UtxoSpend>)
    requires AllComplete(tokenOf, js)
    ensures |r| == |js| && forall i :: 0 <= i < |js| ==> r[i] == SpendOf(tokenOf, js[i])
  {
    if js == [] then [] else [SpendOf(tokenOf, js[0])] + SpendsOf(tokenOf, js[1..])
  }

  function InputSum(us: seq<UtxoSpend>): nat {
    if us == [] then 0 else us[0].value + InputSum(us[1..])
  }

  function OutputSum(us: seq<UtxoOutput>): nat {
    if us == [] then 0 else us[0].value + OutputSum(us[1..])
  }

  function Values(us: seq<UtxoSpend>): seq<nat> {
    seq(|us|, k requires 0 <= k < |us| => us[k].value)
  }

  lemma {:induction false} SumIsTheirSum(us: seq<UtxoSpend>)
    ensures SumsTo(Values(us), InputSum(us))
  {
    if us == [] {
      SumsToNone();
      assert Values(us) == [];
    } else {
      SumIsTheirSum(us[1..]);
      SumsToMore(us[0].value, Values(us[1..]), InputSum(us[1..]));
      assert Values(us) == [us[0].value] + Values(us[1..]);
    }
  }

  // Every input complete and all of one token type.
  predicate Uniform(tokenOf: TokenOf, js: seq<JsonInput>) {
    AllComplete(tokenOf, js) && forall i :: 0 <= i < |js| ==> js[i].typeHex == js[0].typeHex
  }

  // When `build_funding_offer` returns an offer.
  predicate Fundable(tokenOf: TokenOf, f: Funding) {
    && f.amount.Some? && f.inputs != [] && Uniform(tokenOf, f.inputs)
    && f.amount.value <= InputSum(SpendsOf(tokenOf, f.inputs)) < U128_LIMIT
    && (f.amount.value < InputSum(SpendsOf(tokenOf, f.inputs)) ==> f.changeOwner.Some?)
    && f.nightKey.Some?
  }

  lemma {:induction false} SumAppend(a: seq<UtxoSpend>, b: seq<UtxoSpend>)
    ensures InputSum(a + b) == InputSum(a) + InputSum(b)
  {
    if a == [] {
      assert a + b == b;
    } else {
      assert (a + b)[0] == a[0] && (a + b)[1..] == a[1..] + b;
      SumAppend(a[1..], b);
    }
  }

  lemma CompleteParts(tokenOf: TokenOf, a: seq<JsonInput>, b: seq<JsonInput>)
    ensures AllComplete(tokenOf, a + b) <==> AllComplete(tokenOf, a) && AllComplete(tokenOf, b)
  {
    assert forall i :: 0 <= i < |a| ==> a[i] == (a + b)[i];
    assert forall i :: 0 <= i < |b| ==> b[i] == (a + b)[|a| + i];
  }

  lemma {:induction false} SpendsAppend(tokenOf: TokenOf, a: seq<JsonInput>, b: seq<JsonInput>)
    requires AllComplete(tokenOf, a + b) && AllComplete(tokenOf, a) && AllComplete(tokenOf, b)
    ensures SpendsOf(tokenOf, a + b) == SpendsOf(tokenOf, a) + SpendsOf(tokenOf, b)
  {
    if a == [] {
      assert a + b == b;
    } else {
      assert (a + b)[0] == a[0] && (a + b)[1..] == a[1..] + b;
      SpendsAppend(tokenOf, a[1..], b);
    }
  }

  // One more input read.
  lemma SumOneMore(tokenOf: TokenOf, js: seq<JsonInput>, i: nat)
    requires i < |js| && AllComplete(tokenOf, js[..i]) && Complete(tokenOf, js[i])
    ensures AllComplete(tokenOf, js[..i + 1])
    ensures SpendsOf(tokenOf, js[..i + 1]) == SpendsOf(tokenOf, js[..i]) + [SpendOf(tokenOf, js[i])]
    ensures InputSum(SpendsOf(tokenOf, js[..i + 1]))
         == InputSum(SpendsOf(tokenOf, js[..i])) + SpendOf(tokenOf, js[i]).value
  {
    var before, u := SpendsOf(tokenOf, js[..i]), SpendOf(tokenOf, js[i]);
    assert js[..i + 1] == js[..i] + [js[i]];
    CompleteParts(tokenOf, js[..i], [js[i]]);
    SpendsAppend(tokenOf, js[..i], [js[i]]);
    SumAppend(before, [u]);
    assert [u][1..] == [] && InputSum([u]) == u.value;
  }

  lemma SumOfFirst(tokenOf: TokenOf, a: seq<JsonInput>, b: seq<JsonInput>)
    requires AllComplete(tokenOf, a + b)
    ensures AllComplete(tokenOf, a)
    ensures InputSum(SpendsOf(tokenOf, a)) <= InputSum(SpendsOf(tokenOf, a + b))
  {
    CompleteParts(tokenOf, a, b);
    SpendsAppend(tokenOf, a, b);
    SumAppend(SpendsOf(tokenOf, a), SpendsOf(tokenOf, b));
  }

  lemma SumOfPart(tokenOf: TokenOf, js: seq<JsonInput>, n: nat)
    requires n <= |js| && AllComplete(tokenOf, js)
    ensures AllComplete(tokenOf, js[..n])
    ensures InputSum(SpendsOf(tokenOf, js[..n])) <= InputSum(SpendsOf(tokenOf, js))
  {
    assert js == js[..n] + js[n..];
    SumOfFirst(tokenOf, js[..n], js[n..]);
  }

  // The first i inputs are read.
  predicate ReadSoFar(tokenOf: TokenOf, js: seq<JsonInput>, i: nat, inputs: seq<UtxoSpend>, total: nat) {
    && i <= |js| && Uniform(tokenOf, js[..i])
    && inputs == SpendsOf(tokenOf, js[..i]) && total == InputSum(inputs)
  }

  lemma ReadOneMore(tokenOf: TokenOf, js: seq<JsonInput>, i: nat, inputs: seq<UtxoSpend>, total: nat)
    requires i < |js| && ReadSoFar(tokenOf, js, i, inputs, total)
    requires Complete(tokenOf, js[i]) && js[i].typeHex == js[0].typeHex
    ensures ReadSoFar(tokenOf, js, i + 1, inputs + [SpendOf(tokenOf, js[i])], total + js[i].value.value)
  {
    SumOneMore(tokenOf, js, i);
    var before, after := js[..i], js[..i + 1];
    assert after == before + [js[i]];
    forall k | 0 <= k < |after|
      ensures after[k].typeHex == after[0].typeHex
    {
      assert k < i ==> before[k].typeHex == before[0].typeHex;
    }
  }

  // Field by field, the spends are the inputs asked for; of an output number the low 32 bits.
  predicate AsRequested(tokenOf: TokenOf, js: seq<JsonInput>, us: seq<UtxoSpend>) {
    |us| == |js| && forall i :: 0 <= i < |js| ==>
      && js[i].value == Some(us[i].value)
      && js[i].owner == Some(us[i].owner)
      && js[i].typeHex.Some? && tokenOf(js[i].typeHex.value) == Some(us[i].tokenType)
      && js[i].intentHash == Some(us[i].intentHash)
      && js[i].outputNo.Some? && us[i].outputNo == js[i].outputNo.value % 0x1_0000_0000
  }

  lemma SpendsAreAsRequested(tokenOf: TokenOf, js: seq<JsonInput>)
    requires AllComplete(tokenOf, js)
    ensures AsRequested(tokenOf, js, SpendsOf(tokenOf, js))
  {
    assert forall i :: 0 <= i < |js| ==> Complete(tokenOf, js[i]);
  }

  // The loop over the inputs: their spends, their checked sum and their common token type.
  method CollectInputs(tokenOf: TokenOf, js: seq<JsonInput>)
    returns (r: Result<(seq<UtxoSpend>, U128, string), Failure>)
    requires js != []
    ensures r.Ok? <==> Uniform(tokenOf, js) && InputSum(SpendsOf(tokenOf, js)) < U128_LIMIT
    ensures r.Ok? ==>
      r.value == (SpendsOf(tokenOf, js), InputSum(SpendsOf(tokenOf, js)), js[0].typeHex.value)
    ensures r == Err(Overflow) ==> AllComplete(tokenOf, js) ==> InputSum(SpendsOf(tokenOf, js)) >= U128_LIMIT
    ensures r.Ok? ==> AsRequested(tokenOf, js, r.value.0) && SumsTo(Values(r.value.0), r.value.1)
  {
    var inputs: seq<UtxoSpend> := [];
    var total: U128 := 0;
    var first: Option<string> := None;
    for i := 0 to |js|
      invariant first == if i == 0 then None else js[0].typeHex
      invariant ReadSoFar(tokenOf, js, i, inputs, total)
    {
      var j := js[i];
      if j.value.None? || j.owner.None? || j.typeHex.None? {
        assert !Complete(tokenOf, js[i]);
        return Err(BadInput(i));
      }
      if first.None? {
        first := Some(j.typeHex.value);
      } else if first.value != j.typeHex.value {
        assert js[i].typeHex != js[0].typeHex;
        return Err(MixedTokens);
      }
      if tokenOf(j.typeHex.value).None? || j.intentHash.None? || j.outputNo.None? {
        assert !Complete(tokenOf, js[i]);
        return Err(BadInput(i));
      }
      ReadOneMore(tokenOf, js, i, inputs, total);
      if total + j.value.value >= U128_LIMIT {
        if AllComplete(tokenOf, js) {
          SumOfPart(tokenOf, js, i + 1);
        }
        return Err(Overflow);
      }
      total := total + j.value.value;
      inputs := inputs + [SpendOf(tokenOf, j)];
    }
    assert js[..|js|] == js;
    SumIsTheirSum(inputs);
    SpendsAreAsRequested(tokenOf, js);
    r := Ok((inputs, total, first.value));
  }

  predicate OneType(js: seq<JsonInput>) {
    forall i :: 0 <= i < |js| ==> js[i].typeHex == js[0].typeHex
  }

  // A request is fundable exactly when its amount and key convert, its inputs convert to spends
  // of one token type whose sum fits 128 bits and reaches the amount, and the owner of any
  // change converts.
  lemma FundableIff(tokenOf: TokenOf, f: Funding)
    ensures Fundable(tokenOf, f) <==>
      f.amount.Some? && f.nightKey.Some? && f.inputs != [] && OneType(f.inputs) &&
      exists us, total: nat :: AsRequested(tokenOf, f.inputs, us) && SumsTo(Values(us), total) &&
        f.amount.value <= total < U128_LIMIT && (total == f.amount.value || f.changeOwner.Some?)
  {
    if AllComplete(tokenOf, f.inputs) {
      var spends := SpendsOf(tokenOf, f.inputs);
      SpendsAreAsRequested(tokenOf, f.inputs);
      SumIsTheirSum(spends);
      forall us, total: nat | AsRequested(tokenOf, f.inputs, us) && SumsTo(Values(us), total)
        ensures total == InputSum(spends)
      {
        assert us == spends;
        SumIsUnique(Values(us), total, InputSum(spends));
      }
    }
    if us :| AsRequested(tokenOf, f.inputs, us) {
      assert AllComplete(tokenOf, f.inputs);
    }
  }

  // The requested inputs in canonical order, and the change, if any, as the only output.
  predicate IsOfferFor(tokenOf: TokenOf, f: Funding, o: Offer)
    requires Fundable(tokenOf, f)
  {
    var spends := SpendsOf(tokenOf, f.inputs);
    var change := InputSum(spends) - f.amount.value;
    && o.inputs == Sort(SpendLe, spends)
    && o.outputs == (if change == 0 then []
                     else [UtxoOutput(change, f.changeOwner.value, tokenOf(f.inputs[0].typeHex.value).value)])
    && o.signatures == 0
  }

  // `build_funding_offer`.
  method BuildFundingOffer(tokenOf: TokenOf, f: Funding) returns (r: Result<(Offer, seq<nat>), Failure>)
    ensures r.Ok? <==> Fundable(tokenOf, f)
    ensures r.Ok? ==> IsOfferFor(tokenOf, f, r.value.0)
    ensures r.Ok? ==> |r.value.1| == |r.value.0.inputs| && forall k :: k in r.value.1 ==> k == f.nightKey.value
    ensures r.Ok? ==> exists us ::
      AsRequested(tokenOf, f.inputs, us) && multiset(r.value.0.inputs) == multiset(us)
    ensures r.Ok? ==> forall o :: o in r.value.0.outputs ==> Some(o.owner) == f.changeOwner
  {
    if f.amount.None? {
      return Err(BadAmount);
    }
    if f.inputs == [] {
      return Err(NoInputs);
    }
    var collected := CollectInputs(tokenOf, f.inputs);
    if collected.Err? {
      return Err(collected.error);
    }
    var (inputs, total, typeHex) := collected.value;
    if total < f.amount.value {
      return Err(TooLittle);
    }
    var change := total - f.amount.value;
    var outputs: seq<UtxoOutput> := [];
    if change > 0 {
      if f.changeOwner.None? {
        return Err(BadChangeOwner);
      }
      outputs := [UtxoOutput(change, f.changeOwner.value, tokenOf(typeHex).value)];
      SortOne(OutputLe, outputs[0]);
    }
    SortLength(SpendLe, inputs);
    SortSame(SpendLe, inputs);
    inputs := Sort(SpendLe, inputs);
    outputs := Sort(OutputLe, outputs);
    if f.nightKey.None? {
      return Err(BadKey);
    }
    r := Ok((Offer(inputs, outputs, 0), seq(|inputs|, _ => f.nightKey.value)));
  }

  lemma {:induction false} InsertSum(u: UtxoSpend, us: seq<UtxoSpend>)
    ensures InputSum(Insert(SpendLe, u, us)) == u.value + InputSum(us)
  {
    if us == [] {
      assert [u][1..] == [];
    } else if SpendLe(u, us[0]) {
      assert ([u] + us)[1..] == us;
    } else {
      InsertSum(u, us[1..]);
      var rest := Insert(SpendLe, u, us[1..]);
      assert ([us[0]] + rest)[1..] == rest;
    }
  }

  lemma {:induction false} SortSum(us: seq<UtxoSpend>)
    ensures InputSum(Sort(SpendLe, us)) == InputSum(us)
  {
    if us == [] {
    } else {
      SortSum(us[1..]);
      InsertSum(us[0], Sort(SpendLe, us[1..]));
    }
  }

  lemma OneTokenType(tokenOf: TokenOf, js: seq<JsonInput>, u: UtxoSpend)
    requires js != [] && Uniform(tokenOf, js) && u in Sort(SpendLe, SpendsOf(tokenOf, js))
    ensures u.tokenType == tokenOf(js[0].typeHex.value).value
  {
    var spends := SpendsOf(tokenOf, js);
    SortPermutes(SpendLe, spends);
    var k :| 0 <= k < |spends| && spends[k] == u;
    assert js[k].typeHex == js[0].typeHex;
  }

  // Every offer returned conserves value: inputs less outputs is the amount the contract
  // takes, all in one token type, with at most one output, present exactly for change; the
  // inputs are the requested ones, each once, in canonical order.
  lemma OfferConservesValue(tokenOf: TokenOf, f: Funding, o: Offer)
    requires Fundable(tokenOf, f) && IsOfferFor(tokenOf, f, o)
    ensures InputSum(o.inputs) == OutputSum(o.outputs) + f.amount.value
    ensures |o.outputs| <= 1 && (o.outputs != [] <==> f.amount.value < InputSum(o.inputs))
    ensures multiset(o.inputs) == multiset(SpendsOf(tokenOf, f.inputs)) && |o.inputs| == |f.inputs|
    ensures Sorted(SpendLe, o.inputs)
    ensures var t := tokenOf(f.inputs[0].typeHex.value).value;
      (forall u :: u in o.inputs ==> u.tokenType == t) && (forall u :: u in o.outputs ==> u.tokenType == t)
  {
    var spends := SpendsOf(tokenOf, f.inputs);
    SpendOrderIsTotal();
    SortSum(spends);
    SortPermutes(SpendLe, spends);
    SortSorts(SpendLe, spends);
    forall u | u in o.inputs
      ensures u.tokenType == tokenOf(f.inputs[0].typeHex.value).value
    {
      OneTokenType(tokenOf, f.inputs, u);
    }
    if o.outputs != [] {
      assert o.outputs[1..] == [];
    }
  }
}
