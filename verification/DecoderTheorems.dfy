/**
  What the codec is for: chunks do not matter, the text is the one that was
  encoded, and fatal mode accepts exactly UTF-8.
 */
module DecoderTheorems {
  import opened Sequences
  import opened Unicode
  import opened Utf8
  import opened TextEncoding
  import opened TextDecoding

  const MARK: seq<Byte> := [0xEF, 0xBB, 0xBF]

  function WithoutMark(bytes: seq<Byte>): seq<Byte> {
    if MARK <= bytes then bytes[3..] else bytes
  }

  function Prepend(head: Outcome, rest: Outcome): Outcome {
    if head.Malformed? || rest.Malformed? then Malformed else Text(head.units + rest.units)
  }

  /** Stream calls on each chunk, then a closing call on the last one; the first throw ends the stream. */
  function Calls(fatal: bool, ignoreBOM: bool, m: Memory, chunks: seq<seq<Byte>>, last: seq<Byte>): Outcome
    decreases |chunks|
  {
    if chunks == [] then DecodeCall(fatal, ignoreBOM, m, last, false).1
    else
      var (m', head) := DecodeCall(fatal, ignoreBOM, m, chunks[0], true);
      Prepend(head, if head.Malformed? then Malformed else Calls(fatal, ignoreBOM, m', chunks[1..], last))
  }

  lemma AnsweredContinues(held: seq<Byte>, a: seq<Byte>, b: seq<Byte>, stream: bool)
    ensures Answered(held, a + b, stream) == Answered(held, a, true) + Answered(Held(held + a), b, stream)
    ensures Held(held + (a + b)) == Held(Held(held + a) + b)
  {
    hide Decompose;
    hide Emitted;
    hide Held;
    Assoc(held, a, b);
    DecomposeContinues(held + a, b);
    EmittedContinues(held + a, b);
  }

  lemma AllGoodConcat(a: seq<Piece>, b: seq<Piece>)
    ensures AllGood(a + b) <==> AllGood(a) && AllGood(b)
  {
    assert forall i :: 0 <= i < |a| ==> (a + b)[i] == a[i];
    assert forall i :: 0 <= i < |b| ==> (a + b)[|a| + i] == b[i];
  }

  lemma StripConcat(a: seq<Scalar>, b: seq<Scalar>, due: bool)
    ensures FromPoints(Strip(a + b, due)) == FromPoints(Strip(a, due)) + FromPoints(Strip(b, due && a == []))
  {
    if a == [] {
      assert a + b == b;
    } else {
      assert Strip(a + b, due) == Strip(a, due) + b;
      FromPointsConcat(Strip(a, due), b);
    }
  }

  /** A streamed call followed by any call is one call on both inputs. */
  lemma TwoCallsAreOne(fatal: bool, ignoreBOM: bool, m: Memory, a: seq<Byte>, b: seq<Byte>, stream: bool,
                       m': Memory, head: Outcome)
    requires (m', head) == DecodeCall(fatal, ignoreBOM, m, a, true)
    ensures head.Malformed? ==> DecodeCall(fatal, ignoreBOM, m, a + b, stream).1.Malformed?
    ensures head.Text?
        ==> DecodeCall(fatal, ignoreBOM, m, a + b, stream).1
            == Prepend(head, DecodeCall(fatal, ignoreBOM, m', b, stream).1)
    ensures head.Text? && DecodeCall(fatal, ignoreBOM, m', b, stream).1.Text?
        ==> DecodeCall(fatal, ignoreBOM, m, a + b, stream).0 == DecodeCall(fatal, ignoreBOM, m', b, stream).0
  {
    hide Answered;
    hide Held;
    hide Strip;
    AnsweredContinues(m.held, a, b, stream);
    var ps, qs := Answered(m.held, a, true), Answered(Held(m.held + a), b, stream);
    AllGoodConcat(ps, qs);
    MeaningsConcat(ps, qs);
    StripConcat(Meanings(ps), Meanings(qs), !ignoreBOM && !m.bomSeen);
  }

  /**
    Chunk invariance: however a byte string is cut (empty chunks, cuts inside a
    character or inside the byte order mark), the texts of the calls add up to
    the text of one call; in fatal mode some call throws exactly when the one
    call throws. It holds at any moment of a decoder's life.
   */
  lemma {:induction false} ChunksDoNotMatter(fatal: bool, ignoreBOM: bool, m: Memory, chunks: seq<seq<Byte>>, last: seq<Byte>)
    ensures Calls(fatal, ignoreBOM, m, chunks, last)
         == DecodeCall(fatal, ignoreBOM, m, Join(chunks) + last, false).1
    decreases |chunks|
  {
    hide DecodeCall;
    if chunks == [] {
      assert Join(chunks) + last == last;
    } else {
      var (m', head) := DecodeCall(fatal, ignoreBOM, m, chunks[0], true);
      var rest := Join(chunks[1..]) + last;
      Assoc(chunks[0], Join(chunks[1..]), last);
      TwoCallsAreOne(fatal, ignoreBOM, m, chunks[0], rest, false, m', head);
      ChunksDoNotMatter(fatal, ignoreBOM, m', chunks[1..], last);
    }
  }

  lemma {:induction false} ScalarsSurvive(cs: seq<Scalar>)
    ensures Points(FromPoints(cs)) == cs && RepairAll(cs) == cs
  {
    if cs != [] {
      var head, tail := UnitsOf(cs[0]), FromPoints(cs[1..]);
      ScalarsSurvive(cs[1..]);
      ScalarCharacter(cs[0], tail);
      assert (head + tail)[|head|..] == tail;
    }
  }

  lemma ScalarCharacter(c: Scalar, tail: seq<Unit>)
    ensures CharLength(UnitsOf(c) + tail, 0) == |UnitsOf(c)|
    ensures CodePointAt(UnitsOf(c) + tail, 0) == c
  {
  }

  /** Whatever a decoder returns is well-formed UTF-16: no malformed input smuggles a surrogate in. */
  lemma TextIsWellFormed(fatal: bool, ignoreBOM: bool, m: Memory, bytes: seq<Byte>, stream: bool, units: seq<Unit>)
    requires DecodeCall(fatal, ignoreBOM, m, bytes, stream).1 == Text(units)
    ensures IsWellFormed(units)
  {
    hide Answered;
    var cs := Strip(Meanings(Answered(m.held, bytes, stream)), !ignoreBOM && !m.bomSeen);
    ScalarsSurvive(cs);
    RepairedPointsSpellTheRepairedString(FromPoints(cs));
    ToWellFormedIsWellFormed(FromPoints(cs));
  }

  lemma OneShot(fatal: bool, ignoreBOM: bool, bytes: seq<Byte>)
    ensures Answered([], bytes, false) == Decompose(bytes)
    ensures DecodeCall(fatal, ignoreBOM, FRESH, bytes, false).1.Text? <==> !fatal || AllGood(Decompose(bytes))
  {
    assert [] + bytes == bytes;
  }

  lemma MarkIsOneCharacter(c: Scalar, rest: seq<Byte>)
    ensures c == BOM <==> MARK <= EncodeScalar(c) + rest
    ensures c == BOM ==> (EncodeScalar(c) + rest)[3..] == rest
  {
    var b := EncodeScalar(c);
    if MARK <= b + rest {
      assert b[0] == (b + rest)[0];
      assert |b| == 3;
      assert b == (b + rest)[..3];
      MarkIsBom(c);
    }
  }

  lemma MarkIsBom(c: Scalar)
    ensures EncodeScalar(BOM) == MARK
    ensures EncodeScalar(c) == MARK <==> c == BOM
  {
    assert EncodeScalar(BOM) == MARK;
    hide EncodeScalar;
    EncodedValue(c);
    EncodedValue(BOM);
  }

  lemma MarkLeads(cs: seq<Scalar>)
    ensures cs != [] && cs[0] == BOM <==> MARK <= EncodeScalars(cs)
    ensures EncodeScalars(Strip(cs, true)) == WithoutMark(EncodeScalars(cs))
  {
    hide EncodeScalar;
    if cs != [] {
      MarkIsOneCharacter(cs[0], EncodeScalars(cs[1..]));
    }
  }

  /**
    Fatal mode is sound and complete: the call returns exactly when the bytes
    are the encoding of some scalar values, and encoding the text again gives
    those bytes back, less the byte order mark when it is not ignored.
   */
  lemma FatalAcceptsExactlyUtf8(ignoreBOM: bool, bytes: seq<Byte>)
    ensures DecodeCall(true, ignoreBOM, FRESH, bytes, false).1.Text? <==> IsText(bytes)
    ensures IsText(bytes)
        ==> EncodeText(DecodeCall(true, ignoreBOM, FRESH, bytes, false).1.units)
            == (if ignoreBOM then bytes else WithoutMark(bytes))
  {
    hide Decompose;
    hide EncodeScalar;
    OneShot(true, ignoreBOM, bytes);
    TextIsAllGood(bytes);
    if IsText(bytes) {
      var pieces := Decompose(bytes);
      DecompositionCovers(pieces, bytes);
      GoodPiecesEncode(pieces);
      var cs := Meanings(pieces);
      MarkLeads(cs);
      ScalarsSurvive(Strip(cs, !ignoreBOM));
    }
  }

  /** U+1F600, and what stands in for a surrogate that stands alone, in known bytes. */
  lemma KnownBytes()
    ensures EncodeText([0xD83D, 0xDE00]) == [0xF0, 0x9F, 0x98, 0x80]
    ensures EncodeText([0xD83D]) == EncodeText([0xDE00]) == [0xEF, 0xBF, 0xBD]
  {
    assert Points([0xD83D, 0xDE00]) == [0x1F600] + Points([0xD83D, 0xDE00][2..]);
    assert EncodeScalars([0x1F600]) == EncodeScalar(0x1F600) + EncodeScalars([0x1F600][1..]);
    assert Points([0xD83D]) == [0xD83D] + Points([0xD83D][1..]) && Points([0xDE00]) == [0xDE00] + Points([0xDE00][1..]);
    assert RepairAll([0xD83D]) == [0xFFFD] + RepairAll([0xD83D][1..]);
    assert RepairAll([0xDE00]) == [0xFFFD] + RepairAll([0xDE00][1..]);
    assert EncodeScalars([0xFFFD]) == EncodeScalar(0xFFFD) + EncodeScalars([0xFFFD][1..]);
  }

  /** The same bytes read back, and a byte no sequence begins with. */
  lemma KnownTexts()
    ensures DecodeCall(true, false, FRESH, [0xF0, 0x9F, 0x98, 0x80], false).1 == Text([0xD83D, 0xDE00])
    ensures DecodeCall(false, false, FRESH, [0xFF], false).1 == Text([0xFFFD])
  {
    hide DecodeCall;
    hide EncodeText;
    KnownBytes();
    DecodingUndoesEncoding(true, false, [0xD83D, 0xDE00]);
    ToWellFormedIsWellFormed([0xD83D, 0xDE00]);
    BadByteDecodes();
  }

  lemma BadByteDecodes()
    ensures DecodeCall(false, false, FRESH, [0xFF], false).1 == Text([0xFFFD])
  {
    hide Decompose;
    OneBadByte();
    OneShot(false, false, [0xFF]);
    assert Strip(Meanings([Bad([0xFF])]), true) == Meanings([Bad([0xFF])]);
  }

  lemma OneBadByte()
    ensures Decompose([0xFF]) == [Bad([0xFF])] && FromPoints(Meanings([Bad([0xFF])])) == [0xFFFD]
  {
    AtStart(0xFF, []);
    assert [0xFF] + [] == [0xFF];
    assert Meanings([Bad([0xFF])]) == [REPLACEMENT];
    assert FromPoints([REPLACEMENT]) == UnitsOf(REPLACEMENT) + FromPoints([]);
  }

  function DropMarkUnit(s: seq<Unit>): seq<Unit> {
    if s != [] && s[0] == BOM then s[1..] else s
  }

  /**
    The round trip, for every string and every decoder: each lone surrogate has
    become U+FFFD, and exactly one leading U+FEFF is gone when marks are not
    ignored. Fatal mode never throws on what the encoder wrote.
   */
  lemma DecodingUndoesEncoding(fatal: bool, ignoreBOM: bool, s: seq<Unit>)
    ensures DecodeCall(fatal, ignoreBOM, FRESH, EncodeText(s), false).1
         == Text(if ignoreBOM then ToWellFormed(s) else DropMarkUnit(ToWellFormed(s)))
  {
    hide Decompose;
    hide EncodeScalars;
    var cs := RepairAll(Points(s));
    OneShot(fatal, ignoreBOM, EncodeText(s));
    DecomposeEncoding(cs);
    RepairedPointsSpellTheRepairedString(s);
    assert FromPoints(Strip(cs, true)) == DropMarkUnit(FromPoints(cs)) by {
      if cs != [] {
        assert FromPoints(cs)[0] == UnitsOf(cs[0])[0];
        assert FromPoints(cs)[|UnitsOf(cs[0])|..] == FromPoints(cs[1..]);
      }
    }
  }

  lemma {:induction false} TextIsShort(pieces: seq<Piece>)
    requires Sound(pieces)
    ensures |FromPoints(Meanings(pieces))| <= |Bytes(pieces)|
  {
    if pieces != [] {
      TextIsShort(pieces[1..]);
      assert |UnitsOf(Meaning(pieces[0]))| <= |pieces[0].bytes|;
    }
  }

  lemma {:induction false} BytesConcat(a: seq<Piece>, b: seq<Piece>)
    ensures Bytes(a + b) == Bytes(a) + Bytes(b)
  {
    if a == [] {
      assert a + b == b;
    } else {
      assert (a + b)[1..] == a[1..] + b;
      BytesConcat(a[1..], b);
    }
  }

  /**
    A call returns no more code units than it consumed bytes, counting the bytes
    it was holding and not those it still holds. Summed over a stream: the text
    is never longer than the bytes.
   */
  lemma TextIsNoLongerThanBytes(fatal: bool, ignoreBOM: bool, m: Memory, bytes: seq<Byte>, stream: bool,
                                m': Memory, units: seq<Unit>)
    requires DecodeCall(fatal, ignoreBOM, m, bytes, stream) == (m', Text(units))
    ensures |units| + |m'.held| <= |m.held| + |bytes|
  {
    hide Answered;
    hide FromPoints;
    var pieces := Answered(m.held, bytes, stream);
    AnsweredCovers(m.held, bytes, stream);
    TextIsShort(pieces);
    StripIsShort(Meanings(pieces), !ignoreBOM && !m.bomSeen);
  }

  lemma StripIsShort(cs: seq<Scalar>, due: bool)
    ensures |FromPoints(Strip(cs, due))| <= |FromPoints(cs)|
  {
  }

  /** Every byte is answered for or held, and none twice. */
  lemma AnsweredCovers(held: seq<Byte>, bytes: seq<Byte>, stream: bool)
    ensures Bytes(Answered(held, bytes, stream)) + (if stream then Held(held + bytes) else []) == held + bytes
  {
    hide Decompose;
    hide Held;
    hide Emitted;
    var input := held + bytes;
    DecompositionCovers(Decompose(input), input);
    EmittedThenFlushed(input);
    BytesConcat(Emitted(input), Flush(Held(input)));
    assert Bytes(Flush(Held(input))) == Held(input);
  }

  /** A closing call that returns leaves the decoder as new, whatever it was in the middle of. */
  lemma ReturningCloses(fatal: bool, ignoreBOM: bool, m: Memory, bytes: seq<Byte>)
    ensures DecodeCall(fatal, ignoreBOM, m, bytes, false).1.Text?
        ==> DecodeCall(fatal, ignoreBOM, m, bytes, false).0 == FRESH
  {
  }

  lemma MarkDecodes(bomSeen: bool)
    ensures DecodeCall(true, false, Memory([], bomSeen), MARK, false).1 == Text(if bomSeen then [BOM] else [])
  {
    var cs: seq<Scalar> := [BOM];
    assert EncodeScalar(BOM) == MARK;
    assert EncodeScalars(cs) == MARK;
    DecomposeEncoding(cs);
    assert [] + MARK == MARK;
    assert FromPoints(cs) == [BOM];
    hide Decompose;
  }

  datatype Call = Call(bytes: seq<Byte>, stream: bool)

  /** The answers to a list of calls, up to the first throw. */
  function Session(fatal: bool, ignoreBOM: bool, m: Memory, calls: seq<Call>): seq<Outcome>
    decreases |calls|
  {
    if calls == [] then []
    else
      var (m', r) := DecodeCall(fatal, ignoreBOM, m, calls[0].bytes, calls[0].stream);
      [r] + (if r.Malformed? then [] else Session(fatal, ignoreBOM, m', calls[1..]))
  }

  lemma OneCallSession(fatal: bool, ignoreBOM: bool, m: Memory, bytes: seq<Byte>)
    ensures Session(fatal, ignoreBOM, m, [Call(bytes, false)]) == [DecodeCall(fatal, ignoreBOM, m, bytes, false).1]
  {
    hide DecodeCall;
  }

  /** With marks ignored, whether one was looked for makes no difference. */
  lemma {:induction false} FlagIsIdle(fatal: bool, held: seq<Byte>, a: bool, b: bool, calls: seq<Call>)
    ensures Session(fatal, true, Memory(held, a), calls) == Session(fatal, true, Memory(held, b), calls)
    decreases |calls|
  {
    hide DecodeCall;
    if calls != [] {
      var bytes, stream := calls[0].bytes, calls[0].stream;
      FlagIsIdleInCall(fatal, held, a, b, bytes, stream);
      var (m1, r) := DecodeCall(fatal, true, Memory(held, a), bytes, stream);
      var (m2, r') := DecodeCall(fatal, true, Memory(held, b), bytes, stream);
      FlagIsIdle(fatal, m1.held, m1.bomSeen, m2.bomSeen, calls[1..]);
    }
  }

  lemma FlagIsIdleInCall(fatal: bool, held: seq<Byte>, a: bool, b: bool, bytes: seq<Byte>, stream: bool)
    ensures DecodeCall(fatal, true, Memory(held, a), bytes, stream).1 == DecodeCall(fatal, true, Memory(held, b), bytes, stream).1
    ensures DecodeCall(fatal, true, Memory(held, a), bytes, stream).0.held
         == DecodeCall(fatal, true, Memory(held, b), bytes, stream).0.held
  {
    hide Decompose;
    hide Held;
  }

  lemma ThrowLeavesTheFlag(ignoreBOM: bool, m: Memory, bytes: seq<Byte>, stream: bool, m': Memory)
    requires DecodeCall(true, ignoreBOM, m, bytes, stream) == (m', Malformed)
    ensures m' == Memory([], m.bomSeen)
  {
    hide Decompose;
  }

  /**
    A throw does not: the flag that a mark is no longer due survives it. The
    thrower then answers all later calls, up to the next throw, as a new decoder
    would exactly when the flag was not up, or marks are ignored anyway. What
    should happen is said in module EncodingStandard.
   */
  lemma ThrowKeepsTheMarkFlag(ignoreBOM: bool, m: Memory, bytes: seq<Byte>, stream: bool, m': Memory)
    requires DecodeCall(true, ignoreBOM, m, bytes, stream) == (m', Malformed)
    ensures (forall calls :: Session(true, ignoreBOM, m', calls) == Session(true, ignoreBOM, FRESH, calls))
       <==> ignoreBOM || !m.bomSeen
  {
    hide DecodeCall;
    hide Session;
    ThrowLeavesTheFlag(ignoreBOM, m, bytes, stream, m');
    if ignoreBOM {
      forall calls: seq<Call>
        ensures Session(true, ignoreBOM, m', calls) == Session(true, ignoreBOM, FRESH, calls)
      {
        FlagIsIdle(true, [], m.bomSeen, false, calls);
      }
    } else if m.bomSeen {
      MarkDecodes(true);
      MarkDecodes(false);
      OneCallSession(true, ignoreBOM, m', MARK);
      OneCallSession(true, ignoreBOM, FRESH, MARK);
      assert Session(true, ignoreBOM, m', [Call(MARK, false)]) != Session(true, ignoreBOM, FRESH, [Call(MARK, false)]);
    }
  }
}
