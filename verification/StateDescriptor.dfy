// Building a nested contract state from a JSON descriptor, with caps on width and depth.
module StateDescriptor {
  import opened Common
  import opened Json

  const MAX_ITEMS: nat := 64
  const MAX_DEPTH: nat := 4

  datatype StateValue = Empty | Array(items: seq<StateValue>)

  // `Number::as_u64`: only plain unsigned integers below 2^64 have a value.
  function AsU64(lexeme: string): Option<nat> {
    if lexeme != [] && LeadingDigits(lexeme) == |lexeme| && FromDecimal(lexeme) < U64_LIMIT
    then Some(FromDecimal(lexeme)) else None
  }

  function NullCount(lexeme: string): (n: nat)
    ensures n <= MAX_ITEMS
  {
    match AsU64(lexeme)
    case Some(n) => if n < MAX_ITEMS then n else MAX_ITEMS
    case None => 0
  }

  function Capped<T>(xs: seq<T>): (r: seq<T>)
    ensures r <= xs && |r| <= MAX_ITEMS
  {
    if |xs| <= MAX_ITEMS then xs else xs[..MAX_ITEMS]
  }

  // `build_state_recursive`.
  function Build(d: Json, depth: nat): Option<StateValue>
    decreases d, 1
  {
    if depth > MAX_DEPTH then None
    else
      match d
      case Null => Some(Empty)
      case Num(lexeme) => Some(Array(seq(NullCount(lexeme), _ => Empty)))
      case Obj(entries) => BuildMember(entries, depth)
      case _ => None
  }

  function BuildMember(es: seq<Entry>, depth: nat): Option<StateValue>
    decreases es, 1
  {
    if es == [] then None
    else if es[0].key != "array" then BuildMember(es[1..], depth)
    else if !es[0].val.Arr? then None
    else
      match BuildAll(Capped(es[0].val.items), depth + 1)
      case Some(items) => Some(Array(items))
      case None => None
  }

  function BuildAll(ds: seq<Json>, depth: nat): (r: Option<seq<StateValue>>)
    ensures r.Some? ==> |r.value| == |ds|
    decreases ds, 0
  {
    if ds == [] then Some([])
    else
      match (Build(ds[0], depth), BuildAll(ds[1..], depth))
      case (Some(first), Some(rest)) => Some([first] + rest)
      case _ => None
  }

  lemma {:induction false} AllLeading(s: string)
    ensures LeadingDigits(s) == |s| <==> forall i :: 0 <= i < |s| ==> Digit(s[i])
  {
    if s == [] {
    } else {
      AllLeading(s[1..]);
      assert forall i :: 0 < i < |s| ==> s[i] == s[1..][i - 1];
    }
  }

  // A plain number below 2^64 builds that many nulls, at most 64; any other builds none.
  lemma NumberBuilds(lexeme: string, depth: nat)
    requires depth <= MAX_DEPTH
    ensures var plain := lexeme != [] && forall i :: 0 <= i < |lexeme| ==> Digit(lexeme[i]);
      var n := if plain && FromDecimal(lexeme) < U64_LIMIT then Min(FromDecimal(lexeme), 64) else 0;
      Build(Num(lexeme), depth) == Some(Array(seq(n, _ => Empty)))
  {
    AllLeading(lexeme);
  }

  lemma {:induction false} AllBuildAt(ds: seq<Json>, depth: nat)
    ensures BuildAll(ds, depth).Some? <==> forall i :: 0 <= i < |ds| ==> Build(ds[i], depth).Some?
    ensures BuildAll(ds, depth).Some? ==>
      forall i :: 0 <= i < |ds| ==> Build(ds[i], depth) == Some(BuildAll(ds, depth).value[i])
  {
    if ds == [] {
    } else {
      AllBuildAt(ds[1..], depth);
      assert forall i :: 0 < i < |ds| ==> ds[i] == ds[1..][i - 1];
    }
  }

  // An array builds item by item from its first 64.
  lemma ArrayBuilds(items: seq<Json>, depth: nat)
    requires depth <= MAX_DEPTH
    ensures var r, n := Build(Obj([Entry("array", Arr(items))]), depth), Min(|items|, 64);
      && (r.Some? <==> forall i :: 0 <= i < n ==> Build(items[i], depth + 1).Some?)
      && (r.Some? ==> r.value.Array? && |r.value.items| == n)
      && (r.Some? ==> forall i :: 0 <= i < n ==> Build(items[i], depth + 1) == Some(r.value.items[i]))
  {
    var es := [Entry("array", Arr(items))];
    assert es[0].key == "array" && es[0].val == Arr(items);
    assert Build(Obj(es), depth) == BuildMember(es, depth);
    AllBuildAt(Capped(items), depth + 1);
    assert Capped(items) == items[..Min(|items|, 64)];
  }

  // ------------------------------------------------------------- which descriptors build

  // The descriptor with every array cut to its first 64 items, at every depth.
  function Pruned(d: Json): Json
    decreases d, 1
  {
    if d.Obj? then Obj(PrunedMember(d.entries)) else d
  }

  function PrunedMember(es: seq<Entry>): seq<Entry>
    decreases es, 1
  {
    if es == [] then []
    else if es[0].key != "array" then [es[0]] + PrunedMember(es[1..])
    else if !es[0].val.Arr? then es
    else [Entry("array", Arr(PrunedAll(Capped(es[0].val.items))))] + es[1..]
  }

  function PrunedAll(ds: seq<Json>): (r: seq<Json>)
    ensures |r| == |ds|
    decreases ds, 0
  {
    if ds == [] then [] else [Pruned(ds[0])] + PrunedAll(ds[1..])
  }

  // Every node is null, a number, or an object whose "array" member is an array of nodes.
  predicate WellFormed(d: Json)
    decreases d, 1
  {
    match d
    case Null => true
    case Num(_) => true
    case Obj(entries) => WellFormedMember(entries)
    case _ => false
  }

  predicate WellFormedMember(es: seq<Entry>)
    decreases es, 1
  {
    es != [] &&
    if es[0].key != "array" then WellFormedMember(es[1..])
    else es[0].val.Arr? && AllWellFormed(es[0].val.items)
  }

  predicate AllWellFormed(ds: seq<Json>)
    decreases ds, 0
  {
    ds == [] || (WellFormed(ds[0]) && AllWellFormed(ds[1..]))
  }

  // How many array levels lie above the deepest node.
  function Nesting(d: Json): nat
    decreases d, 1
  {
    if d.Obj? then NestingMember(d.entries) else 0
  }

  function NestingMember(es: seq<Entry>): nat
    decreases es, 1
  {
    if es == [] then 0
    else if es[0].key != "array" then NestingMember(es[1..])
    else if es[0].val.Arr? && es[0].val.items != [] then 1 + DeepestOf(es[0].val.items)
    else 0
  }

  function DeepestOf(ds: seq<Json>): nat
    decreases ds, 0
  {
    if ds == [] then 0
    else
      var first, rest := Nesting(ds[0]), DeepestOf(ds[1..]);
      if first < rest then rest else first
  }

  // A descriptor builds exactly when, cut to 64 items per array, it is well formed and
  // nests at most as deep as is left.
  lemma {:induction false} BuildsIff(d: Json, depth: nat)
    ensures Build(d, depth).Some? <==> WellFormed(Pruned(d)) && depth + Nesting(Pruned(d)) <= MAX_DEPTH
    decreases d, 1
  {
    if d.Obj? && depth <= MAX_DEPTH {
      MemberBuildsIff(d.entries, depth);
    }
  }

  lemma {:induction false} MemberBuildsIff(es: seq<Entry>, depth: nat)
    requires depth <= MAX_DEPTH
    ensures BuildMember(es, depth).Some?
       <==> WellFormedMember(PrunedMember(es)) && depth + NestingMember(PrunedMember(es)) <= MAX_DEPTH
    decreases es, 1
  {
    if es == [] {
    } else {
      if es[0].key != "array" {
        assert PrunedMember(es)[1..] == PrunedMember(es[1..]);
        MemberBuildsIff(es[1..], depth);
      } else if es[0].val.Arr? {
        AllBuildIff(Capped(es[0].val.items), depth + 1);
      }
    }
  }

  lemma {:induction false} AllBuildIff(ds: seq<Json>, depth: nat)
    ensures BuildAll(ds, depth).Some?
       <==> AllWellFormed(PrunedAll(ds)) && (ds == [] || depth + DeepestOf(PrunedAll(ds)) <= MAX_DEPTH)
    decreases ds, 0
  {
    if ds == [] {
    } else {
      assert PrunedAll(ds)[1..] == PrunedAll(ds[1..]);
      BuildsIff(ds[0], depth);
      AllBuildIff(ds[1..], depth);
    }
  }

  // ------------------------------------------------------------------- what is built

  // The descriptor of a state value, and of a list of them.
  function Describe(v: StateValue): Json
    decreases v, 1
  {
    if v.Empty? then Null else Obj([Entry("array", Arr(DescribeAll(v.items)))])
  }

  function DescribeAll(vs: seq<StateValue>): (r: seq<Json>)
    ensures |r| == |vs|
    decreases vs, 0
  {
    if vs == [] then [] else [Describe(vs[0])] + DescribeAll(vs[1..])
  }

  // A descriptor without what a build ignores: numbers spelt out, other members dropped.
  function Normal(d: Json): Json
    decreases d, 1
  {
    match d
    case Num(lexeme) => Obj([Entry("array", Arr(seq(NullCount(lexeme), _ => Null)))])
    case Obj(entries) => NormalMember(entries)
    case _ => d
  }

  function NormalMember(es: seq<Entry>): Json
    decreases es, 1
  {
    if es == [] then Null
    else if es[0].key != "array" then NormalMember(es[1..])
    else if !es[0].val.Arr? then Null
    else Obj([Entry("array", Arr(NormalAll(Capped(es[0].val.items))))])
  }

  function NormalAll(ds: seq<Json>): seq<Json>
    decreases ds, 0
  {
    if ds == [] then [] else [Normal(ds[0])] + NormalAll(ds[1..])
  }

  lemma {:induction false} NullsDescribed(n: nat)
    ensures DescribeAll(seq(n, _ => Empty)) == seq(n, _ => Null)
  {
    if n == 0 {
    } else {
      assert seq(n, _ => Empty)[1..] == seq(n - 1, _ => Empty);
      NullsDescribed(n - 1);
      assert [Null] + seq(n - 1, _ => Null) == seq(n, _ => Null);
    }
  }

  // What is built is what the descriptor says, item by item.
  lemma {:induction false} BuildsWhatIsDescribed(d: Json, depth: nat)
    requires Build(d, depth).Some?
    ensures Describe(Build(d, depth).value) == Normal(d)
    decreases d, 1
  {
    if d.Obj? {
      MemberIsDescribed(d.entries, depth);
    } else if d.Num? {
      NullsDescribed(NullCount(d.lexeme));
    }
  }

  lemma {:induction false} MemberIsDescribed(es: seq<Entry>, depth: nat)
    requires BuildMember(es, depth).Some?
    ensures Describe(BuildMember(es, depth).value) == NormalMember(es)
    decreases es, 1
  {
    if es[0].key != "array" {
      MemberIsDescribed(es[1..], depth);
    } else {
      AllDescribed(Capped(es[0].val.items), depth + 1);
    }
  }

  lemma {:induction false} AllDescribed(ds: seq<Json>, depth: nat)
    requires BuildAll(ds, depth).Some?
    ensures DescribeAll(BuildAll(ds, depth).value) == NormalAll(ds)
    decreases ds, 0
  {
    if ds == [] {
    } else {
      BuildsWhatIsDescribed(ds[0], depth);
      AllDescribed(ds[1..], depth);
      var rest := BuildAll(ds[1..], depth).value;
      assert BuildAll(ds, depth).value[1..] == rest;
    }
  }

  // At most 64 items per array, and n levels of values.
  predicate Fits(v: StateValue, levels: nat)
    decreases v, 1
  {
    levels > 0 && (v.Array? ==> |v.items| <= MAX_ITEMS && AllFit(v.items, levels - 1))
  }

  predicate AllFit(vs: seq<StateValue>, levels: nat)
    decreases vs, 0
  {
    vs == [] || (Fits(vs[0], levels) && AllFit(vs[1..], levels))
  }

  // A state value is built from its own descriptor exactly when it is within the caps.
  lemma {:induction false} DescribedIsBuiltIff(v: StateValue, depth: nat)
    requires depth <= MAX_DEPTH + 1
    ensures Build(Describe(v), depth) == Some(v) <==> Fits(v, MAX_DEPTH + 1 - depth)
    decreases v, 1
  {
    if v.Array? && depth <= MAX_DEPTH {
      var member, ds := Entry("array", Arr(DescribeAll(v.items))), DescribeAll(v.items);
      assert [member][0] == member;
      assert Build(Describe(v), depth) == BuildMember([member], depth);
      if |v.items| <= MAX_ITEMS {
        AllDescribedAreBuiltIff(v.items, depth + 1);
        assert Capped(ds) == ds;
      }
    }
  }

  lemma {:induction false} AllDescribedAreBuiltIff(vs: seq<StateValue>, depth: nat)
    requires depth <= MAX_DEPTH + 1
    ensures BuildAll(DescribeAll(vs), depth) == Some(vs) <==> AllFit(vs, MAX_DEPTH + 1 - depth)
    decreases vs, 0
  {
    if vs == [] {
    } else {
      var ds := DescribeAll(vs);
      assert ds[0] == Describe(vs[0]) && ds[1..] == DescribeAll(vs[1..]);
      DescribedIsBuiltIff(vs[0], depth);
      AllDescribedAreBuiltIff(vs[1..], depth);
      assert vs == [vs[0]] + vs[1..];
      var first, rest := Build(ds[0], depth), BuildAll(ds[1..], depth);
      if first.Some? && rest.Some? {
        assert ([first.value] + rest.value)[0] == first.value && ([first.value] + rest.value)[1..] == rest.value;
      }
    }
  }

  // -------------------------------------------------------------- how large it can get

  function Nodes(v: StateValue): nat
    decreases v, 1
  {
    if v.Empty? then 1 else 1 + NodesOf(v.items)
  }

  function NodesOf(vs: seq<StateValue>): nat
    decreases vs, 0
  {
    if vs == [] then 0 else Nodes(vs[0]) + NodesOf(vs[1..])
  }

  // The full 64-ary tree with n levels of arrays.
  function FullTree(n: nat): nat {
    if n == 0 then 1 else 1 + MAX_ITEMS * FullTree(n - 1)
  }

  lemma {:induction false} NodesOfNulls(n: nat)
    ensures NodesOf(seq(n, _ => Empty)) == n
  {
    if n == 0 {
    } else {
      assert seq(n, _ => Empty)[1..] == seq(n - 1, _ => Empty);
      NodesOfNulls(n - 1);
    }
  }

  lemma FullTreeGrows(n: nat)
    ensures 1 <= FullTree(n) && MAX_ITEMS + 1 <= FullTree(n + 1)
  {
  }

  lemma {:induction false} SizeBelow(d: Json, depth: nat)
    requires Build(d, depth).Some?
    ensures depth <= MAX_DEPTH && Nodes(Build(d, depth).value) <= FullTree(MAX_DEPTH + 1 - depth)
    decreases d, 1
  {
    if d.Obj? {
      MemberSizeBelow(d.entries, depth);
    } else {
      FullTreeGrows(MAX_DEPTH - depth);
      if d.Num? {
        NodesOfNulls(NullCount(d.lexeme));
      }
    }
  }

  lemma {:induction false} MemberSizeBelow(es: seq<Entry>, depth: nat)
    requires depth <= MAX_DEPTH && BuildMember(es, depth).Some?
    ensures Nodes(BuildMember(es, depth).value) <= FullTree(MAX_DEPTH + 1 - depth)
    decreases es, 1
  {
    if es[0].key != "array" {
      MemberSizeBelow(es[1..], depth);
    } else {
      var items := Capped(es[0].val.items);
      AllSizeBelow(items, depth + 1);
      if items != [] {
        var full := FullTree(MAX_DEPTH - depth);
        assert |items| * full <= MAX_ITEMS * full;
      } else {
        FullTreeGrows(MAX_DEPTH - depth);
      }
    }
  }

  lemma OneMore(n: nat, k: nat)
    ensures (n + 1) * k == n * k + k
  {
  }

  lemma {:induction false} AllSizeBelow(ds: seq<Json>, depth: nat)
    requires BuildAll(ds, depth).Some?
    ensures ds != [] ==>
      depth <= MAX_DEPTH && NodesOf(BuildAll(ds, depth).value) <= |ds| * FullTree(MAX_DEPTH + 1 - depth)
    decreases ds, 0
  {
    if ds == [] {
    } else {
      SizeBelow(ds[0], depth);
      AllSizeBelow(ds[1..], depth);
      var first, rest := Build(ds[0], depth).value, BuildAll(ds[1..], depth).value;
      assert ([first] + rest)[1..] == rest;
      assert NodesOf([first] + rest) == Nodes(first) + NodesOf(rest);
      OneMore(|ds[1..]|, FullTree(MAX_DEPTH + 1 - depth));
    }
  }

  // No descriptor builds more than 1 + 64 + ... + 64^5 nodes.
  lemma BuiltStateIsBounded(d: Json)
    requires Build(d, 0).Some?
    ensures Nodes(Build(d, 0).value) <= 1 + 64 + 4096 + 262144 + 16777216 + 1073741824
  {
    SizeBelow(d, 0);
    assert FullTree(0) == 1 && FullTree(1) == 65 && FullTree(2) == 4161 && FullTree(3) == 266305;
    assert FullTree(4) == 17043521 && FullTree(5) == 1090785345;
  }
}
