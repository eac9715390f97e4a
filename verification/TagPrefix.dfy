// The three copies of the tag stripper, one specification, and when stripping a tagged
// payload gives the payload back.
module TagPrefix {
  import opened Common

  const MARK: seq<Byte> := [109, 105, 100, 110, 105, 103, 104, 116, 58]
  const ROUND: Byte := ')' as int
  const SQUARE: Byte := ']' as int
  const COLON: Byte := ':' as int

  lemma MarkIsAscii()
    ensures |MARK| == |"midnight:"| && forall i :: 0 <= i < |MARK| ==> MARK[i] == "midnight:"[i] as int
  {
  }

  // A closing bracket followed by a colon at i.
  predicate Separator(bytes: seq<Byte>, i: nat) {
    i + 1 < |bytes| && (bytes[i] == ROUND || bytes[i] == SQUARE) && bytes[i + 1] == COLON
  }

  // i is the first separator behind the mark.
  predicate IsFirst(bytes: seq<Byte>, i: nat) {
    |MARK| <= i && Separator(bytes, i) && forall j :: |MARK| <= j < i ==> !Separator(bytes, j)
  }

  predicate HasMark(bytes: seq<Byte>) {
    MARK <= bytes
  }

  function FirstSeparator(bytes: seq<Byte>, from: nat): (r: Option<nat>)
    ensures match r
      case Some(i) => from <= i && Separator(bytes, i) && forall j :: from <= j < i ==> !Separator(bytes, j)
      case None => forall j :: from <= j < |bytes| ==> !Separator(bytes, j)
    decreases |bytes| - from
  {
    if from >= |bytes| then None
    else if Separator(bytes, from) then Some(from)
    else FirstSeparator(bytes, from + 1)
  }

  // What follows the first separator behind the mark, or all bytes without either.
  function Stripped(bytes: seq<Byte>): seq<Byte> {
    if !HasMark(bytes) then bytes
    else
      match FirstSeparator(bytes, |MARK|)
      case Some(i) => bytes[i + 2..]
      case None => bytes
  }

  lemma MarkIsThePrefix(bytes: seq<Byte>)
    requires |bytes| >= 9
    ensures bytes[0..9] == MARK <==> HasMark(bytes)
  {
    assert bytes[0..9] == bytes[..9];
  }

  // fee_ffi.rs and balance_ffi.rs: the two brackets tested one after the other.
  method StripTagPrefix(bytes: seq<Byte>) returns (r: seq<Byte>)
    ensures r == Stripped(bytes)
    ensures !HasMark(bytes) || (forall j :: |MARK| <= j < |bytes| ==> !Separator(bytes, j)) ==> r == bytes
    ensures forall i :: HasMark(bytes) && IsFirst(bytes, i) ==> r == bytes[i + 2..]
  {
    if |bytes| < 9 {
      return bytes;
    }
    if bytes[0..9] == MARK {
      var i := 9;
      while i < |bytes| - 1
        invariant 9 <= i
        invariant forall j :: 9 <= j < i ==> !Separator(bytes, j)
      {
        if bytes[i] == ROUND && bytes[i + 1] == COLON {
          assert Separator(bytes, i);
          return bytes[i + 2..];
        }
        if bytes[i] == SQUARE && bytes[i + 1] == COLON {
          assert Separator(bytes, i);
          return bytes[i + 2..];
        }
        i := i + 1;
      }
    } else {
      MarkIsThePrefix(bytes);
    }
    r := bytes;
  }

  // serialize.rs: one early return and one combined test.
  method StripTagPrefixCombined(bytes: seq<Byte>) returns (r: seq<Byte>)
    ensures r == Stripped(bytes)
    ensures !HasMark(bytes) || (forall j :: |MARK| <= j < |bytes| ==> !Separator(bytes, j)) ==> r == bytes
    ensures forall i :: HasMark(bytes) && IsFirst(bytes, i) ==> r == bytes[i + 2..]
  {
    if |bytes| < 9 || bytes[0..9] != MARK {
      if |bytes| >= 9 {
        MarkIsThePrefix(bytes);
      }
      return bytes;
    }
    var i := 9;
    while i < |bytes| - 1
      invariant 9 <= i
      invariant forall j :: 9 <= j < i ==> !Separator(bytes, j)
    {
      if (bytes[i] == ROUND || bytes[i] == SQUARE) && bytes[i + 1] == COLON {
        assert Separator(bytes, i);
        return bytes[i + 2..];
      }
      i := i + 1;
    }
    r := bytes;
  }

  // A tag: the mark, a name, a closing bracket and a colon.
  predicate IsTag(tag: seq<Byte>) {
    |tag| >= |MARK| + 2 && HasMark(tag) && Separator(tag, |tag| - 2)
  }

  // Stripping a tagged payload gives the payload exactly when the tag holds no separator
  // before the one that ends it, whatever the payload contains.
  lemma TaggedPayload(tag: seq<Byte>, payload: seq<Byte>)
    requires IsTag(tag)
    ensures Stripped(tag + payload) == payload
       <==> forall j :: |MARK| <= j < |tag| - 2 ==> !Separator(tag, j)
  {
    var bytes := tag + payload;
    var end := |tag| - 2;
    assert HasMark(bytes) && Separator(bytes, end) && bytes[end + 2..] == payload;
    assert forall j :: 0 <= j < end ==> (Separator(bytes, j) <==> Separator(tag, j));
    var i := FirstSeparator(bytes, |MARK|).value;
    assert i <= end && |bytes[i + 2..]| == |bytes| - (i + 2);
  }
}
