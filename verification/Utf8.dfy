/**
  UTF-8 said declaratively, without a decoder: the well-formed sequences of
  section 4 of RFC 3629, and the "maximal subpart" replacement policy of
  section 3.9 of the Unicode Standard. Every byte string has exactly one
  decomposition into well-formed sequences and maximal ill-formed subparts.
 */
module Utf8 {
  import opened Sequences
  import opened Unicode

  predicate IsTail(b: Byte) {
    0x80 <= b <= 0xBF
  }

  /** The UTF8-char rule of RFC 3629, section 4. */
  predicate IsSequence(s: seq<Byte>) {
    || (|s| == 1 && s[0] <= 0x7F)
    || (|s| == 2 && 0xC2 <= s[0] <= 0xDF && IsTail(s[1]))
    || (|s| == 3 && IsTail(s[2]) && (
          || (s[0] == 0xE0 && 0xA0 <= s[1] <= 0xBF)
          || (0xE1 <= s[0] <= 0xEC && IsTail(s[1]))
          || (s[0] == 0xED && 0x80 <= s[1] <= 0x9F)
          || (0xEE <= s[0] <= 0xEF && IsTail(s[1]))))
    || (|s| == 4 && IsTail(s[2]) && IsTail(s[3]) && (
          || (s[0] == 0xF0 && 0x90 <= s[1] <= 0xBF)
          || (0xF1 <= s[0] <= 0xF3 && IsTail(s[1]))
          || (s[0] == 0xF4 && 0x80 <= s[1] <= 0x8F)))
  }

  /** The scalar value a well-formed sequence stands for. */
  function ValueOf(s: seq<Byte>): Scalar
    requires IsSequence(s)
  {
    if |s| == 1 then s[0]
    else if |s| == 2 then (s[0] as int - 0xC0) * 0x40 + (s[1] as int - 0x80)
    else if |s| == 3 then (s[0] as int - 0xE0) * 0x1000 + (s[1] as int - 0x80) * 0x40 + (s[2] as int - 0x80)
    else (s[0] as int - 0xF0) * 0x40000 + (s[1] as int - 0x80) * 0x1000
         + (s[2] as int - 0x80) * 0x40 + (s[3] as int - 0x80)
  }

  /** The bytes of one scalar value; a shift by six is a division by 0x40. */
  function EncodeScalar(c: Scalar): (s: seq<Byte>)
    ensures IsSequence(s)
  {
    var y := c / 0x40;
    var z := y / 0x40;
    if c <= 0x7F then [c]
    else if c <= 0x7FF then [0xC0 + y, 0x80 + c % 0x40]
    else if c <= 0xFFFF then [0xE0 + z, 0x80 + y % 0x40, 0x80 + c % 0x40]
    else [0xF0 + z / 0x40, 0x80 + z % 0x40, 0x80 + y % 0x40, 0x80 + c % 0x40]
  }

  lemma EncodedValue(c: Scalar)
    ensures ValueOf(EncodeScalar(c)) == c
  {
    var y := c / 0x40;
    var z := y / 0x40;
    assert c == y * 0x40 + c % 0x40 && y == z * 0x40 + y % 0x40 && z == z / 0x40 * 0x40 + z % 0x40;
  }

  function EncodeScalars(cs: seq<Scalar>): seq<Byte> {
    if cs == [] then [] else EncodeScalar(cs[0]) + EncodeScalars(cs[1..])
  }

  lemma Digit(high: int, low: int)
    requires 0 <= low < 0x40
    ensures (high * 0x40 + low) / 0x40 == high && (high * 0x40 + low) % 0x40 == low
  {
  }

  lemma EncodeTwo(a: Byte, b: Byte, c: Scalar)
    requires 0xC2 <= a <= 0xDF && IsTail(b) && c == (a - 0xC0) * 0x40 + (b - 0x80)
    ensures EncodeScalar(c) == [a, b]
  {
    Digit(a - 0xC0, b - 0x80);
  }

  lemma EncodeThree(a: Byte, b: Byte, d: Byte, c: Scalar)
    requires 0xE0 <= a <= 0xEF && IsTail(b) && IsTail(d) && c == ((a - 0xE0) * 0x40 + (b - 0x80)) * 0x40 + (d - 0x80) > 0x7FF
    ensures EncodeScalar(c) == [a, b, d]
  {
    Digit(a - 0xE0, b - 0x80);
    Digit((a - 0xE0) * 0x40 + (b - 0x80), d - 0x80);
  }

  lemma EncodeFour(a: Byte, b: Byte, d: Byte, e: Byte, c: Scalar)
    requires 0xF0 <= a <= 0xF4 && IsTail(b) && IsTail(d) && IsTail(e)
    requires c == (((a - 0xF0) * 0x40 + (b - 0x80)) * 0x40 + (d - 0x80)) * 0x40 + (e - 0x80) > 0xFFFF
    ensures EncodeScalar(c) == [a, b, d, e]
  {
    var z := (a - 0xF0) * 0x40 + (b - 0x80);
    Digit(a - 0xF0, b - 0x80);
    Digit(z, d - 0x80);
    Digit(z * 0x40 + (d - 0x80), e - 0x80);
  }

  /** Each scalar value has one well-formed sequence: no overlong form has a value. */
  lemma SequencesAreEncodings(s: seq<Byte>)
    requires IsSequence(s)
    ensures EncodeScalar(ValueOf(s)) == s
  {
    hide EncodeScalar;
    var c := ValueOf(s);
    if |s| == 1 {
      EncodeOne(c);
    } else if |s| == 2 {
      EncodeTwo(s[0], s[1], c);
    } else if |s| == 3 {
      EncodeThree(s[0], s[1], s[2], c);
    } else {
      EncodeFour(s[0], s[1], s[2], s[3], c);
    }
  }

  lemma EncodeOne(c: Scalar)
    requires c <= 0x7F
    ensures EncodeScalar(c) == [c]
  {
  }

  /** The first byte in which two sequences differ is the smaller one in `s`. */
  predicate IsBelow(s: seq<Byte>, t: seq<Byte>) {
    exists i :: 0 <= i < |s| && i < |t| && s[..i] == t[..i] && s[i] < t[i]
  }

  lemma BelowFrom(s: seq<Byte>, t: seq<Byte>, i: nat)
    requires i < |s| && i < |t| && s[i] < t[i]
    requires forall k :: 0 <= k < i ==> s[k] == t[k]
    ensures IsBelow(s, t)
  {
    assert s[..i] == t[..i];
  }

  /** Encoding keeps the order of scalar values, byte by byte; only one coding into these sequences does. */
  lemma EncodingKeepsOrder(c: Scalar, d: Scalar)
    requires c < d
    ensures IsBelow(EncodeScalar(c), EncodeScalar(d))
  {
    if Length(c) < Length(d) {
      LongerIsAbove(c, d);
    } else {
      SameLength(c, d);
    }
  }

  function Length(c: Scalar): nat {
    if c <= 0x7F then 1 else if c <= 0x7FF then 2 else if c <= 0xFFFF then 3 else 4
  }

  lemma LongerIsAbove(c: Scalar, d: Scalar)
    requires Length(c) < Length(d)
    ensures IsBelow(EncodeScalar(c), EncodeScalar(d))
  {
    hide IsBelow;
    hide IsSequence;
    BelowFrom(EncodeScalar(c), EncodeScalar(d), 0);
  }

  lemma SameLength(c: Scalar, d: Scalar)
    requires c < d && Length(c) == Length(d)
    ensures IsBelow(EncodeScalar(c), EncodeScalar(d))
  {
    hide IsBelow;
    hide IsSequence;
    var s, t := EncodeScalar(c), EncodeScalar(d);
    Places(c);
    Places(d);
    if s[0] < t[0] {
      BelowFrom(s, t, 0);
    } else if s[1] < t[1] {
      BelowFrom(s, t, 1);
    } else if s[2] < t[2] {
      BelowFrom(s, t, 2);
    } else {
      BelowFrom(s, t, 3);
    }
  }

  /** The digits of a number in base 0x40. */
  lemma Places(c: Scalar)
    ensures c == c / 0x40 * 0x40 + c % 0x40
    ensures c / 0x40 == c / 0x40 / 0x40 * 0x40 + c / 0x40 % 0x40
    ensures c / 0x40 / 0x40 == c / 0x40 / 0x40 / 0x40 * 0x40 + c / 0x40 / 0x40 % 0x40
  {
  }

  lemma {:induction false} EncodeScalarsConcat(a: seq<Scalar>, b: seq<Scalar>)
    ensures EncodeScalars(a + b) == EncodeScalars(a) + EncodeScalars(b)
  {
    if a == [] {
      assert a + b == b;
    } else {
      assert (a + b)[1..] == a[1..] + b;
      EncodeScalarsConcat(a[1..], b);
    }
  }

  /** How many bytes a lead byte announces. */
  function Announced(lead: Byte): nat {
    if 0xC2 <= lead <= 0xDF then 2 else if 0xE0 <= lead <= 0xEF then 3
    else if 0xF0 <= lead <= 0xF4 then 4 else 1
  }

  /** The least and greatest byte that may follow an open sequence. */
  function Lowest(s: seq<Byte>): Byte
    requires s != []
  {
    if |s| == 1 && s[0] == 0xE0 then 0xA0 else if |s| == 1 && s[0] == 0xF0 then 0x90 else 0x80
  }

  function Highest(s: seq<Byte>): Byte
    requires s != []
  {
    if |s| == 1 && s[0] == 0xED then 0x9F else if |s| == 1 && s[0] == 0xF4 then 0x8F else 0xBF
  }

  /** Bytes that could still become a well-formed sequence; OpenMeansUnfinished says so. */
  predicate IsOpen(s: seq<Byte>) {
    && 1 <= |s| < Announced(s[0])
    && (2 <= |s| ==> Lowest([s[0]]) <= s[1] <= Highest([s[0]]))
    && (3 <= |s| ==> IsTail(s[2]))
  }

  /** Open is being a proper, non-empty prefix of a well-formed sequence, neither more nor less. */
  lemma OpenMeansUnfinished(s: seq<Byte>)
    ensures IsOpen(s) <==> s != [] && exists w :: IsSequence(w) && s < w
  {
    if IsOpen(s) {
      var second := Lowest([s[0]]);
      var w := match |s|
               case 1 => [s[0], second] + [0x80, 0x80][..Announced(s[0]) - 2]
               case 2 => s + [0x80, 0x80][..Announced(s[0]) - 2]
               case _ => s + [0x80];
      assert IsSequence(w) && s < w;
    }
    if s != [] && exists w :: IsSequence(w) && s < w {
      var w :| IsSequence(w) && s < w;
      assert forall i :: 0 <= i < |s| ==> s[i] == w[i];
    }
  }

  /** What one more byte does to an open sequence. */
  lemma NextByte(s: seq<Byte>, b: Byte)
    requires IsOpen(s)
    ensures IsSequence(s + [b]) || IsOpen(s + [b]) <==> Lowest(s) <= b <= Highest(s)
    ensures Lowest(s) <= b <= Highest(s) ==> (IsSequence(s + [b]) <==> |s| + 1 == Announced(s[0]))
  {
    assert |s| == 1 ==> s == [s[0]];
  }

  lemma OpenPrefix(s: seq<Byte>, t: seq<Byte>)
    requires t != [] && t < s && (IsOpen(s) || IsSequence(s))
    ensures IsOpen(t)
  {
    assert forall i :: 0 <= i < |t| ==> t[i] == s[i];
  }

  /** Nothing that starts with a closed prefix is open or well-formed beyond it. */
  lemma PrefixIsOpen(s: seq<Byte>, k: nat, n: nat)
    requires 0 < k < n <= |s|
    ensures IsOpen(s[..n]) || IsSequence(s[..n]) ==> IsOpen(s[..k])
  {
    assert forall i :: 0 <= i < k ==> s[..k][i] == s[..n][i];
  }

  /** No well-formed sequence is open: the code is prefix-free. */
  lemma SequencesAreClosed(s: seq<Byte>)
    requires IsSequence(s)
    ensures !IsOpen(s)
  {
  }

  /** One unit of a decomposition: a well-formed sequence, or a maximal subpart of an ill-formed one. */
  datatype Piece = Good(bytes: seq<Byte>) | Bad(bytes: seq<Byte>)

  /** `p` is what the two standards see at the start of `input`. */
  predicate IsFirst(p: Piece, input: seq<Byte>) {
    && p.bytes != []
    && p.bytes <= input
    && match p
       case Good(b) => IsSequence(b)
       case Bad(b) =>
         && (forall n :: 0 <= n <= |input| ==> !IsSequence(input[..n]))
         && (|b| == 1 || IsOpen(b))
         && (forall n :: |b| < n <= |input| ==> !IsOpen(input[..n]))
  }

  predicate IsDecomposition(pieces: seq<Piece>, input: seq<Byte>) {
    if pieces == [] then input == []
    else IsFirst(pieces[0], input) && IsDecomposition(pieces[1..], input[|pieces[0].bytes|..])
  }

  lemma FirstIsUnique(p: Piece, q: Piece, input: seq<Byte>)
    requires IsFirst(p, input) && IsFirst(q, input)
    ensures p == q
  {
    assert input[..|p.bytes|] == p.bytes && input[..|q.bytes|] == q.bytes;
    if p.Good? && q.Good? {
      if p.bytes < q.bytes {
        OpenPrefix(q.bytes, p.bytes);
        SequencesAreClosed(p.bytes);
      } else if q.bytes < p.bytes {
        OpenPrefix(p.bytes, q.bytes);
        SequencesAreClosed(q.bytes);
      }
    }
  }

  /** The decomposition is unique. */
  lemma {:induction false} DecompositionIsUnique(ps: seq<Piece>, qs: seq<Piece>, input: seq<Byte>)
    requires IsDecomposition(ps, input) && IsDecomposition(qs, input)
    ensures ps == qs
  {
    if ps != [] && qs != [] {
      FirstIsUnique(ps[0], qs[0], input);
      DecompositionIsUnique(ps[1..], qs[1..], input[|ps[0].bytes|..]);
    }
  }

  /** The longest open prefix, or one byte. */
  function SubpartLength(input: seq<Byte>): (n: nat)
    requires input != []
    ensures 1 <= n <= |input|
    ensures n == 1 || IsOpen(input[..n])
    ensures forall k :: n < k <= |input| ==> !IsOpen(input[..k])
  {
    if 3 <= |input| && IsOpen(input[..3]) then 3
    else if 2 <= |input| && IsOpen(input[..2]) then 2
    else 1
  }

  function First(input: seq<Byte>): (p: Piece)
    requires input != []
    ensures IsFirst(p, input)
  {
    if 1 <= |input| && IsSequence(input[..1]) then Good(input[..1])
    else if 2 <= |input| && IsSequence(input[..2]) then Good(input[..2])
    else if 3 <= |input| && IsSequence(input[..3]) then Good(input[..3])
    else if 4 <= |input| && IsSequence(input[..4]) then Good(input[..4])
    else Bad(input[..SubpartLength(input)])
  }

  /** The decomposition of any byte string: it always exists. */
  function Decompose(input: seq<Byte>): (pieces: seq<Piece>)
    ensures IsDecomposition(pieces, input)
  {
    if input == [] then [] else
    var p := First(input);
    [p] + Decompose(input[|p.bytes|..])
  }

  /** What a piece decodes to: its value, or one U+FFFD for a whole maximal subpart. */
  function Meaning(p: Piece): Scalar
    requires p.Good? ==> IsSequence(p.bytes)
  {
    if p.Good? then ValueOf(p.bytes) else REPLACEMENT
  }

  predicate Sound(pieces: seq<Piece>) {
    forall i :: 0 <= i < |pieces| ==> pieces[i].bytes != [] && (pieces[i].Good? ==> IsSequence(pieces[i].bytes))
  }

  function Meanings(pieces: seq<Piece>): (r: seq<Scalar>)
    requires Sound(pieces)
    ensures |r| == |pieces|
  {
    if pieces == [] then [] else [Meaning(pieces[0])] + Meanings(pieces[1..])
  }

  lemma SoundConcat(a: seq<Piece>, b: seq<Piece>)
    requires Sound(a) && Sound(b)
    ensures Sound(a + b) && (a != [] ==> Sound(a[1..]))
  {
    hide IsSequence;
  }

  lemma {:induction false} MeaningsConcat(a: seq<Piece>, b: seq<Piece>)
    requires Sound(a) && Sound(b)
    ensures Sound(a + b) && Meanings(a + b) == Meanings(a) + Meanings(b)
  {
    hide IsSequence;
    hide Sound;
    hide Meaning;
    SoundConcat(a, b);
    if a == [] {
      assert a + b == b;
    } else {
      assert (a + b)[1..] == a[1..] + b;
      MeaningsConcat(a[1..], b);
    }
  }

  predicate AllGood(pieces: seq<Piece>) {
    forall i :: 0 <= i < |pieces| ==> pieces[i].Good?
  }

  function Bytes(pieces: seq<Piece>): seq<Byte> {
    if pieces == [] then [] else pieces[0].bytes + Bytes(pieces[1..])
  }

  /** A decomposition loses no byte, and no piece is empty. */
  lemma {:induction false} DecompositionCovers(pieces: seq<Piece>, input: seq<Byte>)
    requires IsDecomposition(pieces, input)
    ensures Sound(pieces) && Bytes(pieces) == input && |pieces| <= |input|
  {
    if pieces != [] {
      DecompositionCovers(pieces[1..], input[|pieces[0].bytes|..]);
      assert pieces[0].bytes + input[|pieces[0].bytes|..] == input;
    }
  }

  lemma DecomposeStep(p: Piece, input: seq<Byte>)
    requires IsFirst(p, input)
    ensures Decompose(input) == [p] + Decompose(input[|p.bytes|..])
  {
    FirstIsUnique(p, First(input), input);
  }

  /** Well-formed text, in the sense of the encoder: the encoding of some scalar values. */
  ghost predicate IsText(input: seq<Byte>) {
    exists cs: seq<Scalar> :: EncodeScalars(cs) == input
  }

  /** Encodings decompose into the sequences they were made of. */
  lemma {:induction false} DecomposeEncoding(cs: seq<Scalar>)
    ensures var ps := Decompose(EncodeScalars(cs));
            AllGood(ps) && Sound(ps) && Meanings(ps) == cs
  {
    hide ValueOf;
    hide EncodeScalar;
    hide IsSequence;
    hide Decompose;
    DecompositionCovers(Decompose(EncodeScalars(cs)), EncodeScalars(cs));
    if cs == [] {
      assert EncodeScalars(cs) == [];
    } else {
      DecomposeEncoding(cs[1..]);
      EncodedStep(cs[0], EncodeScalars(cs[1..]));
      GoodFirst(cs[0], Decompose(EncodeScalars(cs[1..])));
    }
  }

  lemma GoodFirst(c: Scalar, rest: seq<Piece>)
    requires Sound(rest) && AllGood(rest)
    ensures Sound([Good(EncodeScalar(c))] + rest) && AllGood([Good(EncodeScalar(c))] + rest)
    ensures Meanings([Good(EncodeScalar(c))] + rest) == [c] + Meanings(rest)
  {
    EncodedValue(c);
    hide EncodeScalar;
    hide ValueOf;
    var p := Good(EncodeScalar(c));
    assert Meanings([p]) == [Meaning(p)];
    MeaningsConcat([p], rest);
  }

  lemma EncodedStep(c: Scalar, rest: seq<Byte>)
    ensures Decompose(EncodeScalar(c) + rest) == [Good(EncodeScalar(c))] + Decompose(rest)
    ensures ValueOf(EncodeScalar(c)) == c
  {
    hide EncodeScalar;
    EncodedValue(c);
    var b := EncodeScalar(c);
    assert (b + rest)[|b|..] == rest;
    DecomposeStep(Good(b), b + rest);
  }

  lemma {:induction false} GoodPiecesEncode(pieces: seq<Piece>)
    requires Sound(pieces) && AllGood(pieces)
    ensures EncodeScalars(Meanings(pieces)) == Bytes(pieces)
  {
    if pieces != [] {
      SequencesAreEncodings(pieces[0].bytes);
      GoodPiecesEncode(pieces[1..]);
      assert Meanings(pieces)[1..] == Meanings(pieces[1..]);
    }
  }

  /** Bytes are well-formed text exactly when no piece of them is ill-formed. */
  lemma TextIsAllGood(input: seq<Byte>)
    ensures IsText(input) <==> AllGood(Decompose(input))
  {
    DecompositionCovers(Decompose(input), input);
    if AllGood(Decompose(input)) {
      GoodPiecesEncode(Decompose(input));
    }
    if IsText(input) {
      var cs: seq<Scalar> :| EncodeScalars(cs) == input;
      DecomposeEncoding(cs);
    }
  }

  /** A piece that more input at the end cannot change. */
  predicate IsSettled(p: Piece, input: seq<Byte>) {
    p.Good? || |p.bytes| < |input| || !IsOpen(p.bytes)
  }

  lemma FirstIsStable(p: Piece, input: seq<Byte>, more: seq<Byte>)
    requires IsFirst(p, input) && IsSettled(p, input)
    ensures IsFirst(p, input + more)
  {
    if p.Bad? {
      var k := if |p.bytes| < |input| then |p.bytes| + 1 else |p.bytes|;
      var all := input + more;
      assert input[..k] == all[..k] && (k == |p.bytes| ==> input[..k] == p.bytes);
      forall n | 0 <= n <= |all|
        ensures !IsSequence(all[..n])
        ensures |p.bytes| < n ==> !IsOpen(all[..n])
      {
        if n <= |input| {
          assert all[..n] == input[..n];
        } else {
          PrefixIsOpen(all, k, n);
        }
      }
    }
  }

  /** The bytes a streaming decoder has to keep: the open sequence the input stops in. */
  function Held(input: seq<Byte>): seq<Byte> {
    var ps := Decompose(input);
    if ps != [] && ps[|ps| - 1].Bad? && IsOpen(ps[|ps| - 1].bytes) then ps[|ps| - 1].bytes else []
  }

  /** The pieces a streaming decoder can already emit. */
  function Emitted(input: seq<Byte>): seq<Piece> {
    var ps := Decompose(input);
    if Held(input) == [] then ps else ps[..|ps| - 1]
  }

  /** The pieces an open sequence flushes to at the end of the input. */
  function Flush(held: seq<Byte>): seq<Piece> {
    if held == [] then [] else [Bad(held)]
  }

  lemma EmittedThenFlushed(input: seq<Byte>)
    ensures Decompose(input) == Emitted(input) + Flush(Held(input))
  {
    DecompositionCovers(Decompose(input), input);
  }

  lemma OpenDecomposes(held: seq<Byte>)
    requires held == [] || IsOpen(held)
    ensures Decompose(held) == Flush(held)
  {
    if held != [] {
      assert held[..|held|] == held;
      forall n | 0 <= n <= |held|
        ensures !IsSequence(held[..n])
      {
        if IsSequence(held[..n]) {
          SequencesAreClosed(held[..n]);
          if n < |held| {
            OpenPrefix(held, held[..n]);
          }
        }
      }
      DecomposeStep(Bad(held), held);
    }
  }

  /**
    Decoding can stop anywhere and go on: what is emitted so far stands, and the
    held bytes stand in for the whole past.
   */
  lemma {:induction false} DecomposeContinues(input: seq<Byte>, more: seq<Byte>)
    ensures Decompose(input + more) == Emitted(input) + Decompose(Held(input) + more)
    decreases |input|
  {
    if input == [] {
      assert input + more == more && Held(input) + more == more;
    } else {
      var p := First(input);
      var rest := input[|p.bytes|..];
      if IsSettled(p, input) {
        DecomposeContinues(rest, more);
        SettledStep(p, input, more);
      } else {
        OpenStep(p, input, more);
      }
    }
  }

  lemma SettledStep(p: Piece, input: seq<Byte>, more: seq<Byte>)
    requires IsFirst(p, input) && IsSettled(p, input)
    requires var rest := input[|p.bytes|..];
             Decompose(rest + more) == Emitted(rest) + Decompose(Held(rest) + more)
    ensures Decompose(input + more) == Emitted(input) + Decompose(Held(input) + more)
  {
    var rest := input[|p.bytes|..];
    HeldOfRest(p, input);
    SettledFirst(p, input, more);
    Assoc([p], Emitted(rest), Decompose(Held(rest) + more));
  }

  lemma SettledFirst(p: Piece, input: seq<Byte>, more: seq<Byte>)
    requires IsFirst(p, input) && IsSettled(p, input)
    ensures Decompose(input + more) == [p] + Decompose(input[|p.bytes|..] + more)
  {
    FirstIsStable(p, input, more);
    assert (input + more)[|p.bytes|..] == input[|p.bytes|..] + more;
    DecomposeStep(p, input + more);
  }

  lemma OpenStep(p: Piece, input: seq<Byte>, more: seq<Byte>)
    requires IsFirst(p, input) && !IsSettled(p, input)
    ensures Decompose(input + more) == Emitted(input) + Decompose(Held(input) + more)
  {
    assert p.bytes == input && input[|p.bytes|..] == [];
    DecomposeStep(p, input);
    assert Decompose(input) == [p];
    assert Held(input) == input && Emitted(input) == [];
  }

  lemma HeldOfRest(p: Piece, input: seq<Byte>)
    requires IsFirst(p, input) && IsSettled(p, input)
    ensures Held(input) == Held(input[|p.bytes|..])
    ensures Emitted(input) == [p] + Emitted(input[|p.bytes|..])
  {
    hide IsSequence;
    hide IsOpen;
    hide Decompose;
    var rest := input[|p.bytes|..];
    DecomposeStep(p, input);
    var qs := Decompose(rest);
    DecompositionCovers(qs, rest);
    if qs == [] {
      assert Decompose(input) == [p] && rest == [];
      assert [p][..0] == [] && [p] + qs == [p];
    } else {
      LastOfCons(p, qs);
    }
  }

  /** Cutting the input twice is the same as cutting it once. */
  lemma EmittedContinues(input: seq<Byte>, more: seq<Byte>)
    ensures Held(input + more) == Held(Held(input) + more)
    ensures Emitted(input + more) == Emitted(input) + Emitted(Held(input) + more)
  {
    hide IsSequence;
    hide IsOpen;
    hide Decompose;
    DecomposeContinues(input, more);
    var all, after := Decompose(input + more), Decompose(Held(input) + more);
    DecompositionCovers(after, Held(input) + more);
    if after == [] {
      assert Held(input) + more == [];
      assert more == [] && input + more == input;
      assert Emitted(input) + [] == Emitted(input);
    } else {
      LastOfConcat(Emitted(input), after);
      assert Emitted(input) + Emitted(Held(input) + more)
          == if Held(Held(input) + more) == [] then all else Emitted(input) + Past(after);
    }
  }

  lemma LastOfConcat<T>(a: seq<T>, b: seq<T>)
    requires b != []
    ensures Last(a + b) == Last(b) && Past(a + b) == a + Past(b)
  {
  }
}
