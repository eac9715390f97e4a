// Result types and fixed-width unsigned arithmetic shared by every module.
module Common {

  datatype Option<+T> = None | Some(value: T)

  datatype Result<+T, +E> = Ok(value: T) | Err(error: E)

  const U128_LIMIT: nat := 0x1_0000_0000_0000_0000_0000_0000_0000_0000
  const U64_LIMIT: nat := 0x1_0000_0000_0000_0000

  type U128 = n: int | 0 <= n < 0x1_0000_0000_0000_0000_0000_0000_0000_0000
  type U64 = n: int | 0 <= n < 0x1_0000_0000_0000_0000

  type Byte = n: int | 0 <= n < 256

  predicate NoDuplicates<T(==)>(s: seq<T>) {
    forall i, j :: 0 <= i < j < |s| ==> s[i] != s[j]
  }

  // A parsed JSON list: None where an element does not convert.
  function Converted<T>(json: seq<Option<T>>): Option<seq<T>> {
    if json == [] then Some([])
    else
      match (json[0], Converted(json[1..]))
      case (Some(x), Some(xs)) => Some([x] + xs)
      case _ => None
  }

  lemma {:induction false} ConvertedAt<T>(json: seq<Option<T>>)
    ensures match Converted(json)
      case Some(xs) => |xs| == |json| && forall i :: 0 <= i < |json| ==> json[i] == Some(xs[i])
      case None => exists i :: 0 <= i < |json| && json[i] == None
  {
    if json == [] {
    } else {
      ConvertedAt(json[1..]);
      if Converted(json[1..]).None? {
        var i :| 0 <= i < |json[1..]| && json[1..][i] == None;
        assert json[i + 1] == None;
      }
    }
  }

  function Min(a: int, b: int): int {
    if a <= b then a else b
  }

  // `u128::saturating_add`, `saturating_mul` and `saturating_sub`.
  function SaturatingAdd(a: U128, b: U128): U128 {
    Min(a + b, U128_LIMIT - 1)
  }

  lemma ProductIsNonNegative(a: nat, b: nat)
    ensures 0 <= a * b
  {
  }

  function SaturatingMul(a: U128, b: U128): U128
  {
    ProductIsNonNegative(a, b);
    Min(a * b, U128_LIMIT - 1)
  }

  function SaturatingSub(a: nat, b: nat): nat {
    if a <= b then 0 else a - b
  }

  lemma RemainderUnique(x: int, q: int, r: nat, m: nat)
    requires 0 < m && r < m && x == q * m + r
    ensures x % m == r
  {
    var d := x / m - q;
    assert d * m == r - x % m;
    if d != 0 {
      assert d >= 1 || d <= -1;
    }
  }

  lemma MultipleHasNoRemainder(k: int, m: nat)
    requires 0 < m
    ensures (k * m) % m == 0
  {
    RemainderUnique(k * m, k, 0, m);
  }

  lemma EqualModulo(a: nat, b: nat, m: nat)
    requires 0 < m
    ensures a % m == (a + b) % m <==> b % m == 0
  {
    var k := (a + b) / m - a / m;
    assert b == k * m + ((a + b) % m - a % m);
    if a % m == (a + b) % m {
      MultipleHasNoRemainder(k, m);
    }
    if b % m == 0 {
      assert a + b == (b / m) * m + (a / m) * m + a % m;
      MultipleHasNoRemainder(b / m, m);
      RemainderUnique(a + b, b / m + a / m, a % m, m);
    }
  }

  lemma AddModulo(a: nat, b: nat, m: nat)
    requires 0 < m
    ensures (a % m + b) % m == (a + b) % m
  {
    var q := (a % m + b) / m;
    assert a + b == (a / m + q) * m + (a % m + b) % m;
    RemainderUnique(a + b, a / m + q, (a % m + b) % m, m);
  }

  // r is what keep picks from s: the element at k stands at at[k] in s, the order is kept, and
  // the positions are exactly those of the elements to keep.
  ghost predicate PicksAt<T>(s: seq<T>, r: seq<T>, keep: T -> bool, at: seq<nat>) {
    && |at| == |r|
    && (forall k :: 0 <= k < |r| ==> at[k] < |s| && r[k] == s[at[k]])
    && (forall j, k :: 0 <= j < k < |r| ==> at[j] < at[k])
    && (forall i :: 0 <= i < |s| ==> (keep(s[i]) <==> i in at))
  }

  // Whatever stands before a picked element and is to be kept is picked before it.
  lemma PickedBefore<T>(s: seq<T>, r: seq<T>, keep: T -> bool, at: seq<nat>, i: nat, j: nat)
    requires PicksAt(s, r, keep, at) && i < |r| && j < at[i] && keep(s[j])
    ensures exists k :: 0 <= k < i && r[k] == s[j]
  {
    var k :| 0 <= k < |at| && at[k] == j;
    assert k < i && r[k] == s[j];
  }

  ghost predicate Picks<T>(s: seq<T>, r: seq<T>, keep: T -> bool) {
    exists at :: PicksAt(s, r, keep, at)
  }

  lemma PicksNone<T>(keep: T -> bool)
    ensures Picks([], [], keep)
  {
    assert PicksAt([], [], keep, []);
  }

  // The same positions in a list with one more element in front.
  function Up(at: seq<nat>): (r: seq<nat>)
    ensures |r| == |at| && forall k :: 0 <= k < |at| ==> r[k] == at[k] + 1
  {
    seq(|at|, k requires 0 <= k < |at| => at[k] + 1)
  }

  lemma UpMembers(at: seq<nat>, i: nat)
    ensures i in Up(at) <==> i > 0 && i - 1 in at
  {
    if i > 0 && i - 1 in at {
      var k :| 0 <= k < |at| && at[k] == i - 1;
      assert Up(at)[k] == i;
    }
  }

  lemma PicksBelow<T>(x: T, s: seq<T>, r: seq<T>, keep: T -> bool, at: seq<nat>)
    requires PicksAt(s, r, keep, at) && !keep(x)
    ensures PicksAt([x] + s, r, keep, Up(at))
  {
    forall i | 0 <= i < |[x] + s|
      ensures keep(([x] + s)[i]) <==> i in Up(at)
    {
      UpMembers(at, i);
      assert i > 0 ==> ([x] + s)[i] == s[i - 1];
    }
  }

  lemma PicksFirst<T>(x: T, s: seq<T>, r: seq<T>, keep: T -> bool, at: seq<nat>)
    requires PicksAt(s, r, keep, at) && keep(x)
    ensures PicksAt([x] + s, [x] + r, keep, [0] + Up(at))
  {
    var more := [0] + Up(at);
    forall i | 0 <= i < |[x] + s|
      ensures keep(([x] + s)[i]) <==> i in more
    {
      UpMembers(at, i);
      assert i in more <==> i == 0 || i in Up(at);
      assert i > 0 ==> ([x] + s)[i] == s[i - 1];
    }
    forall k | 0 < k < |more|
      ensures more[k] == at[k - 1] + 1 && ([x] + r)[k] == r[k - 1]
    {
    }
  }

  lemma PicksMore<T>(s: seq<T>, r: seq<T>, keep: T -> bool)
    requires s != [] && Picks(s[1..], r, keep)
    ensures Picks(s, (if keep(s[0]) then [s[0]] else []) + r, keep)
  {
    var at :| PicksAt(s[1..], r, keep, at);
    assert s == [s[0]] + s[1..];
    if keep(s[0]) {
      PicksFirst(s[0], s[1..], r, keep, at);
    } else {
      PicksBelow(s[0], s[1..], r, keep, at);
      assert [] + r == r;
    }
  }

  // p are the running sums of vs.
  ghost predicate RunningSums(vs: seq<nat>, p: seq<nat>) {
    |p| == |vs| + 1 && p[0] == 0 && forall i :: 0 <= i < |vs| ==> p[i + 1] == p[i] + vs[i]
  }

  ghost predicate SumsTo(vs: seq<nat>, total: nat) {
    exists p :: RunningSums(vs, p) && p[|vs|] == total
  }

  lemma SumsToNone()
    ensures SumsTo([], 0)
  {
    assert RunningSums([], [0]);
  }

  lemma SumsToMore(v: nat, vs: seq<nat>, total: nat)
    requires SumsTo(vs, total)
    ensures SumsTo([v] + vs, v + total)
  {
    var p :| RunningSums(vs, p) && p[|vs|] == total;
    var q := [0] + seq(|p|, k requires 0 <= k < |p| => p[k] + v);
    assert RunningSums([v] + vs, q);
  }

  lemma {:induction false} SameRunningSums(vs: seq<nat>, p: seq<nat>, q: seq<nat>, i: nat)
    requires RunningSums(vs, p) && RunningSums(vs, q) && i <= |vs|
    ensures p[i] == q[i]
  {
    if i == 0 {
    } else {
      SameRunningSums(vs, p, q, i - 1);
      assert p[i - 1 + 1] == p[i - 1] + vs[i - 1] && q[i - 1 + 1] == q[i - 1] + vs[i - 1];
    }
  }

  lemma SumIsUnique(vs: seq<nat>, a: nat, b: nat)
    requires SumsTo(vs, a) && SumsTo(vs, b)
    ensures a == b
  {
    var p :| RunningSums(vs, p) && p[|vs|] == a;
    var q :| RunningSums(vs, q) && q[|vs|] == b;
    SameRunningSums(vs, p, q, |vs|);
  }
}
