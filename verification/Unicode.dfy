/**
  UTF-16 strings as JavaScript sees them: sequences of code units in which a
  surrogate may stand alone, the code points an iterator walks over them, and
  the repair that replaces each lone surrogate by U+FFFD.
 */
module Unicode {

  type Byte = b: int | 0 <= b <= 0xFF
  type Unit = u: int | 0 <= u <= 0xFFFF
  type CodePoint = c: int | 0 <= c <= 0x10FFFF
  type Scalar = c: int | 0 <= c <= 0x10FFFF && !(0xD800 <= c <= 0xDFFF)

  const REPLACEMENT: Scalar := 0xFFFD
  const BOM: Scalar := 0xFEFF

  predicate IsHigh(u: int) {
    0xD800 <= u <= 0xDBFF
  }

  predicate IsLow(u: int) {
    0xDC00 <= u <= 0xDFFF
  }

  predicate IsSurrogate(c: int) {
    0xD800 <= c <= 0xDFFF
  }

  /** True when the units at `i` and `i + 1` form one code point. */
  predicate IsPair(s: seq<Unit>, i: nat)
    requires i < |s|
  {
    i + 1 < |s| && IsHigh(s[i]) && IsLow(s[i + 1])
  }

  /** How many units the string iterator takes at `i`. */
  function CharLength(s: seq<Unit>, i: nat): (n: nat)
    requires i < |s|
  {
    if IsPair(s, i) then 2 else 1
  }

  function CodePointAt(s: seq<Unit>, i: nat): CodePoint
    requires i < |s|
  {
    if IsPair(s, i) then 0x10000 + (s[i] as int - 0xD800) * 0x400 + (s[i + 1] as int - 0xDC00) else s[i]
  }

  /** The code points a `for (const ch of text)` loop visits. */
  function Points(s: seq<Unit>): seq<CodePoint> {
    if s == [] then [] else [CodePointAt(s, 0)] + Points(s[CharLength(s, 0)..])
  }

  /** String.fromCodePoint of one code point. */
  function UnitsOf(c: CodePoint): seq<Unit> {
    if c < 0x10000 then [c]
    else [0xD800 + (c - 0x10000) / 0x400, 0xDC00 + (c - 0x10000) % 0x400]
  }

  /** String.fromCodePoint of many. */
  function FromPoints(points: seq<CodePoint>): seq<Unit> {
    if points == [] then [] else UnitsOf(points[0]) + FromPoints(points[1..])
  }

  function Repair(c: CodePoint): Scalar {
    if IsSurrogate(c) then REPLACEMENT else c
  }

  function RepairAll(points: seq<CodePoint>): (r: seq<Scalar>)
    ensures |r| == |points|
  {
    if points == [] then [] else [Repair(points[0])] + RepairAll(points[1..])
  }

  /** A surrogate that is not half of a pair. */
  predicate IsLone(s: seq<Unit>, i: nat)
    requires i < |s|
  {
    || (IsHigh(s[i]) && !(i + 1 < |s| && IsLow(s[i + 1])))
    || (IsLow(s[i]) && !(0 < i && IsHigh(s[i - 1])))
  }

  predicate IsWellFormed(s: seq<Unit>) {
    forall i :: 0 <= i < |s| ==> !IsLone(s, i)
  }

  /** String.prototype.toWellFormed, unit by unit. */
  function ToWellFormed(s: seq<Unit>): (r: seq<Unit>)
    ensures |r| == |s|
  {
    seq(|s|, i requires 0 <= i < |s| => if IsLone(s, i) then REPLACEMENT else s[i])
  }

  /** Cutting a string at `i` splits no surrogate pair. */
  predicate IsBoundary(s: seq<Unit>, i: nat)
    requires i <= |s|
  {
    0 < i < |s| ==> !IsPair(s, i - 1)
  }

  lemma {:induction false} FromPointsConcat(a: seq<CodePoint>, b: seq<CodePoint>)
    ensures FromPoints(a + b) == FromPoints(a) + FromPoints(b)
  {
    if a == [] {
      assert a + b == b;
    } else {
      assert (a + b)[1..] == a[1..] + b;
      FromPointsConcat(a[1..], b);
    }
  }

  /** One character, spelled again. */
  lemma UnitsOfCharacter(s: seq<Unit>, i: nat)
    requires i < |s|
    ensures 1 <= CharLength(s, i) && i + CharLength(s, i) <= |s|
    ensures UnitsOf(CodePointAt(s, i)) == s[i..i + CharLength(s, i)]
  {
  }

  /** Walking by code points loses nothing: the points of a string spell it again. */
  lemma {:induction false} PointsSpellTheString(s: seq<Unit>)
    ensures FromPoints(Points(s)) == s
  {
    hide CodePointAt;
    hide UnitsOf;
    hide CharLength;
    if s != [] {
      UnitsOfCharacter(s, 0);
      var n := CharLength(s, 0);
      PointsSpellTheString(s[n..]);
      assert Points(s)[1..] == Points(s[n..]);
      assert s == s[0..n] + s[n..];
    }
  }

  /** The iterator can be restarted at any boundary. */
  lemma {:induction false} PointsConcat(a: seq<Unit>, b: seq<Unit>)
    requires IsBoundary(a + b, |a|)
    ensures Points(a + b) == Points(a) + Points(b)
  {
    hide CodePointAt;
    hide CharLength;
    hide IsBoundary;
    if a == [] {
      assert a + b == b;
    } else {
      HeadOfConcat(a, b);
      UnitsOfCharacter(a, 0);
      var n := CharLength(a, 0);
      assert (a + b)[n..] == a[n..] + b;
      BoundaryOfTail(a, b, n);
      PointsConcat(a[n..], b);
      assert Points(a) == [CodePointAt(a, 0)] + Points(a[n..]);
    }
  }

  lemma BoundaryOfTail(a: seq<Unit>, b: seq<Unit>, n: nat)
    requires IsBoundary(a + b, |a|) && n <= |a|
    ensures IsBoundary(a[n..] + b, |a[n..]|)
  {
    var s, t, k := a + b, a[n..] + b, |a| - n;
    if 0 < k < |t| {
      assert t[k - 1] == s[|a| - 1] && t[k] == s[|a|];
    }
  }

  lemma HeadOfConcat(a: seq<Unit>, b: seq<Unit>)
    requires a != [] && IsBoundary(a + b, |a|)
    ensures CharLength(a + b, 0) == CharLength(a, 0)
    ensures CodePointAt(a + b, 0) == CodePointAt(a, 0)
  {
    assert (a + b)[0] == a[0];
    if |a| == 1 {
      assert b == [] || !IsPair(a + b, 0);
    } else {
      assert (a + b)[1] == a[1];
    }
  }

  lemma {:induction false} RepairAllConcat(a: seq<CodePoint>, b: seq<CodePoint>)
    ensures RepairAll(a + b) == RepairAll(a) + RepairAll(b)
  {
    if a == [] {
      assert a + b == b;
    } else {
      assert (a + b)[1..] == a[1..] + b;
      RepairAllConcat(a[1..], b);
    }
  }

  /** A string cut at a boundary repairs piecewise. */
  lemma {:induction false} ToWellFormedConcat(a: seq<Unit>, b: seq<Unit>)
    requires IsBoundary(a + b, |a|)
    ensures ToWellFormed(a + b) == ToWellFormed(a) + ToWellFormed(b)
  {
    forall i | 0 <= i < |a + b|
      ensures ToWellFormed(a + b)[i] == (ToWellFormed(a) + ToWellFormed(b))[i]
    {
      if i < |a| {
        assert (a + b)[i] == a[i];
        if i + 1 == |a| && b != [] {
          assert (a + b)[i + 1] == b[0];
        }
      } else {
        assert (a + b)[i] == b[i - |a|];
        if i == |a| && a != [] {
          assert (a + b)[i - 1] == a[|a| - 1];
        }
      }
    }
  }

  lemma RepairedCharacter(s: seq<Unit>)
    requires s != []
    ensures UnitsOf(Repair(CodePointAt(s, 0))) == ToWellFormed(s[..CharLength(s, 0)])
  {
  }

  /** Repairing each code point on the way is the same as repairing the string. */
  lemma {:induction false} RepairedPointsSpellTheRepairedString(s: seq<Unit>)
    ensures FromPoints(RepairAll(Points(s))) == ToWellFormed(s)
  {
    hide CodePointAt;
    hide UnitsOf;
    hide Repair;
    if s != [] {
      var n := CharLength(s, 0);
      var head, tail := s[..n], s[n..];
      assert s == head + tail;
      RepairedPointsSpellTheRepairedString(tail);
      assert IsBoundary(s, n);
      ToWellFormedConcat(head, tail);
      RepairedCharacter(s);
    }
  }

  lemma ToWellFormedIsWellFormed(s: seq<Unit>)
    ensures IsWellFormed(ToWellFormed(s))
    ensures IsWellFormed(s) <==> ToWellFormed(s) == s
    ensures ToWellFormed(ToWellFormed(s)) == ToWellFormed(s)
  {
    var r := ToWellFormed(s);
    forall i | 0 <= i < |r|
      ensures !IsLone(r, i)
    {
      if IsHigh(r[i]) {
        assert !IsLone(s, i) && !IsLone(s, i + 1);
        assert r[i + 1] == s[i + 1];
      }
      if IsLow(r[i]) {
        assert !IsLone(s, i) && !IsLone(s, i - 1);
        assert r[i - 1] == s[i - 1];
      }
    }
    if r == s {
      assert IsWellFormed(s);
    }
    assert forall i :: 0 <= i < |s| && IsLone(s, i) ==> r[i] != s[i];
  }

  /** A pair is one code point, its halves ten bits each; any other unit is itself. */
  lemma PairSays(s: seq<Unit>, i: nat)
    requires i < |s|
    ensures IsPair(s, i) <==> i + 1 < |s| && 0xD800 <= s[i] <= 0xDBFF && 0xDC00 <= s[i + 1] <= 0xDFFF
    ensures CodePointAt(s, i) == if IsPair(s, i) then s[i] as int * 0x400 + s[i + 1] - 0x35FDC00 else s[i]
  {
  }

  lemma UnitsSay(c: CodePoint)
    ensures UnitsOf(c) == if c >= 0x10000 then [0xD7C0 + c / 0x400, 0xDC00 + c % 0x400] else [c]
  {
  }

  /** Of two pairs, the one with the greater high half, or the same and the greater low half, is the greater point. */
  lemma PairsKeepOrder(s: seq<Unit>, t: seq<Unit>)
    requires |s| == |t| == 2 && IsPair(s, 0) && IsPair(t, 0)
    ensures CodePointAt(s, 0) < CodePointAt(t, 0) <==> s[0] < t[0] || (s[0] == t[0] && s[1] < t[1])
  {
  }

  /** Unit by unit: what is not half of a pair becomes U+FFFD, and all else stays. */
  lemma ToWellFormedSays(s: seq<Unit>, i: nat)
    requires i < |s|
    ensures |ToWellFormed(s)| == |s|
    ensures ToWellFormed(s)[i] == if IsAlone(s, i) then 0xFFFD else s[i]
  {
  }

  /** A surrogate with no partner beside it. */
  predicate IsAlone(s: seq<Unit>, i: nat)
    requires i < |s|
  {
    || (0xD800 <= s[i] <= 0xDBFF && !(i + 1 < |s| && 0xDC00 <= s[i + 1] <= 0xDFFF))
    || (0xDC00 <= s[i] <= 0xDFFF && !(i > 0 && 0xD800 <= s[i - 1] <= 0xDBFF))
  }
}
