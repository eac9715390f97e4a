// Unshielded offers: the canonical order every path puts inputs and outputs in, the message
// the owners sign against the one the node checks, and funding a contract call.
module Offers {
  import opened Common
  import opened Sorting

  // 32-byte values are the integers they encode, which order them as their bytes do.
  datatype UtxoSpend = UtxoSpend(value: U128, owner: nat, tokenType: nat, intentHash: nat, outputNo: nat)

  datatype UtxoOutput = UtxoOutput(value: U128, owner: nat, tokenType: nat)

  predicate LexLe(a: seq<nat>, b: seq<nat>) {
    a == [] || (b != [] && (a[0] < b[0] || (a[0] == b[0] && LexLe(a[1..], b[1..]))))
  }

  // The derived orders: field by field.
  predicate SpendLe(a: UtxoSpend, b: UtxoSpend) {
    LexLe([a.value, a.owner, a.tokenType, a.intentHash, a.outputNo],
          [b.value, b.owner, b.tokenType, b.intentHash, b.outputNo])
  }

  predicate OutputLe(a: UtxoOutput, b: UtxoOutput) {
    LexLe([a.value, a.owner, a.tokenType], [b.value, b.owner, b.tokenType])
  }

  lemma {:induction false} LexTotal(a: seq<nat>, b: seq<nat>)
    ensures LexLe(a, b) || LexLe(b, a)
    ensures LexLe(a, b) && LexLe(b, a) ==> a == b
  {
    if a == [] || b == [] {
    } else {
      LexTotal(a[1..], b[1..]);
    }
  }

  lemma {:induction false} LexTransitive(a: seq<nat>, b: seq<nat>, c: seq<nat>)
    requires LexLe(a, b) && LexLe(b, c)
    ensures LexLe(a, c)
  {
    if a != [] && a[0] == b[0] == c[0] {
      LexTransitive(a[1..], b[1..], c[1..]);
    }
  }

  lemma LexHead(a: nat, b: nat, x: seq<nat>, y: seq<nat>)
    ensures LexLe([a] + x, [b] + y) <==> a < b || (a == b && LexLe(x, y))
  {
    assert ([a] + x)[1..] == x && ([b] + y)[1..] == y;
  }

  // Value first, then owner, token type, intent hash and output number.
  lemma SpendOrderIs(a: UtxoSpend, b: UtxoSpend)
    ensures SpendLe(a, b) <==>
      a.value < b.value || (a.value == b.value &&
        (a.owner < b.owner || (a.owner == b.owner &&
          (a.tokenType < b.tokenType || (a.tokenType == b.tokenType &&
            (a.intentHash < b.intentHash || (a.intentHash == b.intentHash && a.outputNo <= b.outputNo)))))))
  {
    LexHead(a.outputNo, b.outputNo, [], []);
    LexHead(a.intentHash, b.intentHash, [a.outputNo], [b.outputNo]);
    LexHead(a.tokenType, b.tokenType, [a.intentHash, a.outputNo], [b.intentHash, b.outputNo]);
    var x, y := [a.tokenType, a.intentHash, a.outputNo], [b.tokenType, b.intentHash, b.outputNo];
    LexHead(a.owner, b.owner, x, y);
    LexHead(a.value, b.value, [a.owner] + x, [b.owner] + y);
    assert [a.value] + ([a.owner] + x) == [a.value, a.owner, a.tokenType, a.intentHash, a.outputNo];
    assert [b.value] + ([b.owner] + y) == [b.value, b.owner, b.tokenType, b.intentHash, b.outputNo];
    assert [a.outputNo] + [] == [a.outputNo] && [b.outputNo] + [] == [b.outputNo];
    assert [a.intentHash] + [a.outputNo] == [a.intentHash, a.outputNo];
    assert [b.intentHash] + [b.outputNo] == [b.intentHash, b.outputNo];
    assert [a.tokenType] + [a.intentHash, a.outputNo] == x && [b.tokenType] + [b.intentHash, b.outputNo] == y;
  }

  lemma OutputOrderIs(a: UtxoOutput, b: UtxoOutput)
    ensures OutputLe(a, b) <==>
      a.value < b.value || (a.value == b.value &&
        (a.owner < b.owner || (a.owner == b.owner && a.tokenType <= b.tokenType)))
  {
    LexHead(a.tokenType, b.tokenType, [], []);
    LexHead(a.owner, b.owner, [a.tokenType], [b.tokenType]);
    LexHead(a.value, b.value, [a.owner, a.tokenType], [b.owner, b.tokenType]);
    assert [a.tokenType] + [] == [a.tokenType] && [b.tokenType] + [] == [b.tokenType];
    assert [a.owner] + [a.tokenType] == [a.owner, a.tokenType];
    assert [b.owner] + [b.tokenType] == [b.owner, b.tokenType];
    assert [a.value] + [a.owner, a.tokenType] == [a.value, a.owner, a.tokenType];
    assert [b.value] + [b.owner, b.tokenType] == [b.value, b.owner, b.tokenType];
  }

  lemma SpendOrderIsTotal()
    ensures TotalOrder(SpendLe)
  {
    forall a: UtxoSpend, b: UtxoSpend
      ensures (SpendLe(a, b) || SpendLe(b, a)) && (SpendLe(a, b) && SpendLe(b, a) ==> a == b)
    {
      var x := [a.value, a.owner, a.tokenType, a.intentHash, a.outputNo];
      var y := [b.value, b.owner, b.tokenType, b.intentHash, b.outputNo];
      LexTotal(x, y);
      if x == y {
        assert x[0] == y[0] && x[1] == y[1] && x[2] == y[2] && x[3] == y[3] && x[4] == y[4];
      }
    }
    forall a: UtxoSpend, b: UtxoSpend, c: UtxoSpend | SpendLe(a, b) && SpendLe(b, c)
      ensures SpendLe(a, c)
    {
      LexTransitive([a.value, a.owner, a.tokenType, a.intentHash, a.outputNo],
                    [b.value, b.owner, b.tokenType, b.intentHash, b.outputNo],
                    [c.value, c.owner, c.tokenType, c.intentHash, c.outputNo]);
    }
  }

  lemma OutputOrderIsTotal()
    ensures TotalOrder(OutputLe)
  {
    forall a: UtxoOutput, b: UtxoOutput
      ensures (OutputLe(a, b) || OutputLe(b, a)) && (OutputLe(a, b) && OutputLe(b, a) ==> a == b)
    {
      var x, y := [a.value, a.owner, a.tokenType], [b.value, b.owner, b.tokenType];
      LexTotal(x, y);
      if x == y {
        assert x[0] == y[0] && x[1] == y[1] && x[2] == y[2];
      }
    }
    forall a: UtxoOutput, b: UtxoOutput, c: UtxoOutput | OutputLe(a, b) && OutputLe(b, c)
      ensures OutputLe(a, c)
    {
      LexTransitive([a.value, a.owner, a.tokenType], [b.value, b.owner, b.tokenType], [c.value, c.owner, c.tokenType]);
    }
  }

  // --------------------------------------------------------------- signing and submitting

  type Message(==, !new)
  type DustActions(==, !new)

  // What an intent commits to, without its signatures.
  datatype Intent = Intent(inputs: seq<UtxoSpend>, outputs: seq<UtxoOutput>, ttlSecs: nat, binding: nat)

  // `data_to_sign` for a segment; a parameter.
  type DataToSign = (nat, Intent) -> Message

  datatype Signature = Signature(signer: nat, message: Message)

  // An intent as submitted: what is committed to, and the signatures beside it.
  datatype Submitted = Plain(intent: Intent, signatures: seq<Signature>) | Dust(actions: DustActions)

  lemma {:induction false} ConvertedAppend<T>(a: seq<Option<T>>, b: seq<Option<T>>)
    ensures Converted(a + b)
         == match (Converted(a), Converted(b)) case (Some(x), Some(y)) => Some(x + y) case _ => None
  {
    if a == [] {
      assert a + b == b;
      if Converted(b).Some? {
        assert [] + Converted(b).value == Converted(b).value;
      }
    } else {
      assert (a + b)[0] == a[0] && (a + b)[1..] == a[1..] + b;
      ConvertedAppend(a[1..], b);
      if a[0].Some? && Converted(a[1..]).Some? && Converted(b).Some? {
        assert [a[0].value] + (Converted(a[1..]).value + Converted(b).value)
            == [a[0].value] + Converted(a[1..]).value + Converted(b).value;
      }
    }
  }

  // The conversion loop every builder runs over its inputs and over its outputs.
  method ConvertAll<T>(json: seq<Option<T>>) returns (r: Option<seq<T>>)
    ensures r == Converted(json)
  {
    var xs: seq<T> := [];
    for i := 0 to |json|
      invariant Converted(json[..i]) == Some(xs)
    {
      assert json[..i + 1] == json[..i] + [json[i]] && json == json[..i + 1] + json[i + 1..];
      ConvertedAppend(json[..i], [json[i]]);
      ConvertedAppend(json[..i + 1], json[i + 1..]);
      var single := [json[i]];
      assert single[1..] == [] && Converted(single[1..]) == Some([]);
      if json[i].None? {
        return None;
      }
      assert [json[i].value] + [] == [json[i].value];
      xs := xs + [json[i].value];
    }
    assert json[..|json|] == json;
    r := Some(xs);
  }

  // What each of the three builders is to commit to: all requested inputs and outputs in
  // canonical order, the time to live in whole seconds, and the binding.
  ghost predicate IsIntentFor(
      intent: Intent, ins: seq<UtxoSpend>, outs: seq<UtxoOutput>, ttlMs: nat, binding: nat)
  {
    && multiset(intent.inputs) == multiset(ins) && Sorted(SpendLe, intent.inputs)
    && multiset(intent.outputs) == multiset(outs) && Sorted(OutputLe, intent.outputs)
    && intent.ttlSecs * 1000 <= ttlMs < (intent.ttlSecs + 1) * 1000
    && intent.binding == binding
  }

  lemma SortedIntent(ins: seq<UtxoSpend>, outs: seq<UtxoOutput>, ttlMs: nat, binding: nat)
    ensures var intent := Intent(Sort(SpendLe, ins), Sort(OutputLe, outs), ttlMs / 1000, binding);
      IsIntentFor(intent, ins, outs, ttlMs, binding)
  {
    SpendOrderIsTotal();
    OutputOrderIsTotal();
    SortSorts(SpendLe, ins);
    SortSorts(OutputLe, outs);
    SortPermutes(SpendLe, ins);
    SortPermutes(OutputLe, outs);
  }

  // `build_intent_and_get_signature_data`: the message every input's owner signs, and the
  // binding it commits to.  given is the caller's binding, if there is one, and None inside
  // when it does not parse; drawn is used when there is none.
  method SigningMessage(dataToSign: DataToSign, jsonInputs: seq<Option<UtxoSpend>>,
                        jsonOutputs: seq<Option<UtxoOutput>>, index: nat, ttlMs: nat,
                        given: Option<Option<nat>>, drawn: nat)
    returns (r: Option<(Message, nat)>)
    ensures r.Some? <==>
      index < |jsonInputs| && Converted(jsonInputs).Some? && Converted(jsonOutputs).Some? && given != Some(None)
    ensures r.Some? ==>
      var binding := if given.Some? then given.value.value else drawn;
      r.value.1 == binding &&
      exists intent ::
        && IsIntentFor(intent, Converted(jsonInputs).value, Converted(jsonOutputs).value, ttlMs, binding)
        && r.value.0 == dataToSign(1, intent)
  {
    if index >= |jsonInputs| {
      return None;
    }
    var inputs := ConvertAll(jsonInputs);
    if inputs.None? {
      return None;
    }
    var outputs := ConvertAll(jsonOutputs);
    if outputs.None? {
      return None;
    }
    var sortedInputs := Sort(SpendLe, inputs.value);
    var sortedOutputs := Sort(OutputLe, outputs.value);
    if given == Some(None) {
      return None;
    }
    var binding := if given.Some? then given.value.value else drawn;
    var intent := Intent(sortedInputs, sortedOutputs, ttlMs / 1000, binding);
    SortedIntent(inputs.value, outputs.value, ttlMs, binding);
    r := Some((dataToSign(1, intent), binding));
  }

  // `build_and_serialize_intent` (dust absent) and `build_and_serialize_intent_with_dust`,
  // which merges in a second intent at a segment of its own; merges says whether the ledger
  // merges the two, and writes whether it serialises the result.
  method SerializeIntent(jsonInputs: seq<Option<UtxoSpend>>, jsonOutputs: seq<Option<UtxoOutput>>,
                         jsonSignatures: seq<Option<Signature>>, dust: Option<(nat, DustActions)>, ttlMs: nat,
                         jsonBinding: Option<nat>, merges: bool, writes: bool)
    returns (r: Option<map<nat, Submitted>>)
    requires dust.Some? ==> dust.value.0 >= 2
    ensures r.Some? <==>
      && Converted(jsonInputs).Some? && Converted(jsonOutputs).Some? && Converted(jsonSignatures).Some?
      && jsonBinding.Some? && (dust.Some? ==> merges) && writes
    ensures r.Some? ==>
      var ins, outs := Converted(jsonInputs).value, Converted(jsonOutputs).value;
      && r.value.Keys == {1} + (if dust.Some? then {dust.value.0} else {})
      && r.value[1].Plain? && IsIntentFor(r.value[1].intent, ins, outs, ttlMs, jsonBinding.value)
      && r.value[1].signatures == Converted(jsonSignatures).value
      && (dust.Some? ==> r.value[dust.value.0] == Dust(dust.value.1))
  {
    var inputs := ConvertAll(jsonInputs);
    if inputs.None? {
      return None;
    }
    var outputs := ConvertAll(jsonOutputs);
    if outputs.None? {
      return None;
    }
    var signatures := ConvertAll(jsonSignatures);
    if signatures.None? || jsonBinding.None? {
      return None;
    }
    var intent := Intent(Sort(SpendLe, inputs.value), Sort(OutputLe, outputs.value), ttlMs / 1000, jsonBinding.value);
    SortedIntent(inputs.value, outputs.value, ttlMs, jsonBinding.value);
    var segments := map[1 := Plain(intent, signatures.value)];
    if dust.Some? {
      if !merges {
        return None;
      }
      segments := segments[dust.value.0 := Dust(dust.value.1)];
    }
    if !writes {
      return None;
    }
    r := Some(segments);
  }

  // However the caller orders inputs and outputs in the signing call and in either serialise
  // call, what is signed is what is submitted, hence the same message.
  lemma SignedIsSubmitted(dataToSign: DataToSign, signed: Intent, submitted: Intent, ins: seq<UtxoSpend>,
                          ins': seq<UtxoSpend>, outs: seq<UtxoOutput>, outs': seq<UtxoOutput>,
                          ttlMs: nat, ttlMs': nat, binding: nat)
    requires IsIntentFor(signed, ins, outs, ttlMs, binding) && IsIntentFor(submitted, ins', outs', ttlMs', binding)
    requires multiset(ins) == multiset(ins') && multiset(outs) == multiset(outs') && ttlMs / 1000 == ttlMs' / 1000
    ensures signed == submitted && dataToSign(1, signed) == dataToSign(1, submitted)
  {
    SpendOrderIsTotal();
    OutputOrderIsTotal();
    SortedIsUnique(SpendLe, signed.inputs, submitted.inputs);
    SortedIsUnique(OutputLe, signed.outputs, submitted.outputs);
  }

  // The node's check of segment 1: sorted inputs, one signature per input, each by the owner
  // of the input it stands beside, over the intent's own message.
  ghost predicate Accepts(dataToSign: DataToSign, s: Submitted) {
    && s.Plain?
    && Sorted(SpendLe, s.intent.inputs) && Sorted(OutputLe, s.intent.outputs)
    && |s.signatures| == |s.intent.inputs|
    && forall i :: 0 <= i < |s.signatures| ==>
         s.signatures[i] == Signature(s.intent.inputs[i].owner, dataToSign(1, s.intent))
  }

  // One signature per input in the caller's order, each by that input's owner.
  function SignaturesFor(ins: seq<UtxoSpend>, m: Message): seq<Signature> {
    seq(|ins|, i requires 0 <= i < |ins| => Signature(ins[i].owner, m))
  }

  // The signatures are not reordered with the inputs: the node accepts exactly when sorting
  // leaves the sequence of owners as the caller gave it.
  lemma AcceptedIffOwnersKeepTheirPlaces(
      dataToSign: DataToSign, intent: Intent, ins: seq<UtxoSpend>, outs: seq<UtxoOutput>, ttlMs: nat, binding: nat)
    requires IsIntentFor(intent, ins, outs, ttlMs, binding)
    ensures |intent.inputs| == |ins| &&
      (Accepts(dataToSign, Plain(intent, SignaturesFor(ins, dataToSign(1, intent))))
       <==> forall i :: 0 <= i < |ins| ==> intent.inputs[i].owner == ins[i].owner)
  {
    assert |multiset(ins)| == |ins| && |multiset(intent.inputs)| == |intent.inputs|;
    var sigs := SignaturesFor(ins, dataToSign(1, intent));
    assert forall i :: 0 <= i < |ins| ==> sigs[i].signer == ins[i].owner;
  }

  // With a single owner every input stands beside a signature that verifies.
  lemma SingleOwnerIsAccepted(
      dataToSign: DataToSign, intent: Intent, ins: seq<UtxoSpend>, outs: seq<UtxoOutput>, ttlMs: nat, binding: nat,
      owner: nat)
    requires IsIntentFor(intent, ins, outs, ttlMs, binding) && forall u :: u in ins ==> u.owner == owner
    ensures Accepts(dataToSign, Plain(intent, SignaturesFor(ins, dataToSign(1, intent))))
  {
    AcceptedIffOwnersKeepTheirPlaces(dataToSign, intent, ins, outs, ttlMs, binding);
    forall i | 0 <= i < |ins|
      ensures intent.inputs[i].owner == ins[i].owner
    {
      assert intent.inputs[i] in multiset(ins) && intent.inputs[i] in ins && ins[i] in ins;
    }
  }

  // Two owners given largest value first: rejected.
  lemma TwoOwnersMayBeRejected(
      dataToSign: DataToSign, intent: Intent, big: UtxoSpend, small: UtxoSpend, ttlMs: nat, binding: nat)
    requires big.value > small.value && big.owner != small.owner
    requires IsIntentFor(intent, [big, small], [], ttlMs, binding)
    ensures !Accepts(dataToSign, Plain(intent, SignaturesFor([big, small], dataToSign(1, intent))))
  {
    AcceptedIffOwnersKeepTheirPlaces(dataToSign, intent, [big, small], [], ttlMs, binding);
    var first, second := intent.inputs[0], intent.inputs[1];
    assert intent.inputs == [first, second];
    assert multiset([big, small]) == multiset{big, small};
    assert first in multiset([big, small]) && second in multiset([big, small]);
    assert small in multiset(intent.inputs) && small in intent.inputs;
    SpendOrderIsTotal();
    SortedAt(SpendLe, intent.inputs, 0, 1);
    assert !SpendLe(big, small);
  }
}
