/**
  The `decode` method as section 7.2 of the Encoding Standard has it, and where
  the code departs from it. Until a call throws the two cannot be told apart.
  After a throw the standard keeps what it has not read, and drops everything
  only when the call was to be the last of its stream.
 */
module EncodingStandard {
  import opened Unicode
  import opened Utf8
  import opened TextDecoding
  import opened DecoderTheorems

  /** What the standard's decoder keeps: bytes queued, whether the mark has been looked for, the do-not-flush flag. */
  datatype Stream = Stream(unread: seq<Byte>, bomSeen: bool, doNotFlush: bool)

  const BLANK := Stream([], false, false)

  /** What a call starts from: without the flag, a new decoder on an empty queue. */
  function Resumed(t: Stream): Memory {
    if t.doNotFlush then Memory(t.unread, t.bomSeen) else FRESH
  }

  /** The pieces after the first ill-formed one. */
  function AfterBad(pieces: seq<Piece>): seq<Piece> {
    if pieces == [] then [] else if pieces[0].Bad? then pieces[1..] else AfterBad(pieces[1..])
  }

  /** A call reads up to the first ill-formed piece and throws, or else to the end. */
  function StandardCall(fatal: bool, ignoreBOM: bool, t: Stream, bytes: seq<Byte>, stream: bool): (Stream, Outcome) {
    var m := Resumed(t);
    var pieces := Answered(m.held, bytes, stream);
    var held := if stream then Held(m.held + bytes) else [];
    if fatal && !AllGood(pieces) then (Stream(Bytes(AfterBad(pieces)) + held, m.bomSeen, stream), Malformed)
    else
      var points := Strip(Meanings(pieces), !ignoreBOM && !m.bomSeen);
      (Stream(held, m.bomSeen || (!ignoreBOM && pieces != []), stream), Text(FromPoints(points)))
  }

  function StandardSession(fatal: bool, ignoreBOM: bool, t: Stream, calls: seq<Call>): seq<Outcome>
    decreases |calls|
  {
    if calls == [] then []
    else
      var (t', r) := StandardCall(fatal, ignoreBOM, t, calls[0].bytes, calls[0].stream);
      [r] + (if r.Malformed? then [] else StandardSession(fatal, ignoreBOM, t', calls[1..]))
  }

  lemma CallAgrees(fatal: bool, ignoreBOM: bool, t: Stream, bytes: seq<Byte>, stream: bool)
    ensures StandardCall(fatal, ignoreBOM, t, bytes, stream).1 == DecodeCall(fatal, ignoreBOM, Resumed(t), bytes, stream).1
    ensures StandardCall(fatal, ignoreBOM, t, bytes, stream).1.Text?
        ==> Resumed(StandardCall(fatal, ignoreBOM, t, bytes, stream).0)
            == DecodeCall(fatal, ignoreBOM, Resumed(t), bytes, stream).0
  {
    hide Decompose;
    hide Held;
  }

  /** Through any calls, streamed or not, up to and including the first throw, the code is the standard. */
  lemma {:induction false} SessionsAgree(fatal: bool, ignoreBOM: bool, t: Stream, calls: seq<Call>)
    ensures StandardSession(fatal, ignoreBOM, t, calls) == Session(fatal, ignoreBOM, Resumed(t), calls)
    decreases |calls|
  {
    hide StandardCall;
    hide DecodeCall;
    if calls != [] {
      CallAgrees(fatal, ignoreBOM, t, calls[0].bytes, calls[0].stream);
      SessionsAgree(fatal, ignoreBOM, StandardCall(fatal, ignoreBOM, t, calls[0].bytes, calls[0].stream).0, calls[1..]);
    }
  }

  /** What well-formed bytes decode to is nothing only for no bytes, or for a mark that is dropped. */
  lemma TextOfSomething(ignoreBOM: bool, m: Memory)
    requires m.held != []
    ensures DecodeCall(true, ignoreBOM, m, [], false).1 != Text([]) || (m.held == MARK && !ignoreBOM && !m.bomSeen)
  {
    hide EncodeScalar;
    var pieces := Decompose(m.held);
    assert m.held + [] == m.held;
    DecompositionCovers(pieces, m.held);
    if AllGood(pieces) {
      GoodPiecesEncode(pieces);
      var cs := Meanings(pieces);
      MarkIsBom(cs[0]);
      var kept := Strip(cs, !ignoreBOM && !m.bomSeen);
      if kept == [] {
        assert cs == [BOM];
        assert EncodeScalars(cs) == EncodeScalar(BOM) + EncodeScalars([]);
      } else {
        assert |UnitsOf(kept[0])| >= 1;
      }
    }
  }

  /** Of two marks, one is dropped. */
  lemma TwoMarks(bomSeen: bool)
    ensures DecodeCall(true, false, Memory(MARK, false), MARK, false).1 == Text([BOM])
    ensures DecodeCall(true, false, Memory([], false), MARK, false).1 == Text([])
  {
    hide Decompose;
    MarkDecodes(false);
    var cs: seq<Scalar> := [BOM, BOM];
    MarkIsBom(BOM);
    assert EncodeScalars([BOM]) == MARK;
    assert EncodeScalars(cs) == MARK + MARK;
    DecomposeEncoding(cs);
    assert Strip(cs, true) == [BOM];
    assert FromPoints([BOM]) == [BOM];
  }

  /** Queued bytes show: some next call answers differently with them and without. */
  lemma UnreadShows(ignoreBOM: bool, unread: seq<Byte>, bomSeen: bool)
    requires unread != []
    ensures exists next ::
              DecodeCall(true, ignoreBOM, Memory([], bomSeen), next, false).1
              != DecodeCall(true, ignoreBOM, Memory(unread, bomSeen), next, false).1
  {
    hide *;
    var empty, full := Memory([], bomSeen), Memory(unread, bomSeen);
    NothingDecodes(ignoreBOM, bomSeen);
    TextOfSomething(ignoreBOM, full);
    if DecodeCall(true, ignoreBOM, full, [], false).1 == Text([]) {
      TwoMarks(bomSeen);
      assert DecodeCall(true, ignoreBOM, empty, MARK, false).1 != DecodeCall(true, ignoreBOM, full, MARK, false).1;
    } else {
      assert DecodeCall(true, ignoreBOM, empty, [], false).1 != DecodeCall(true, ignoreBOM, full, [], false).1;
    }
  }

  lemma NothingDecodes(ignoreBOM: bool, bomSeen: bool)
    ensures DecodeCall(true, ignoreBOM, Memory([], bomSeen), [], false).1 == Text([])
  {
    var empty: seq<Byte> := [];
    assert empty + empty == empty;
  }

  /** A streamed call has nothing left to read after its first ill-formed piece. */
  predicate ReadsToTheEnd(held: seq<Byte>, bytes: seq<Byte>) {
    AfterBad(Answered(held, bytes, true)) == [] && Held(held + bytes) == []
  }

  /**
    After a throw the code answers all later calls, up to the next throw, as the
    standard does exactly when the call was streamed and nothing after the
    ill-formed piece was left to read, or it was not streamed and no mark had
    been looked for before it, or none is looked for at all.
   */
  lemma ThrowAgreesExactly(ignoreBOM: bool, t: Stream, bytes: seq<Byte>, stream: bool, m': Memory, t': Stream)
    requires DecodeCall(true, ignoreBOM, Resumed(t), bytes, stream) == (m', Malformed)
    requires StandardCall(true, ignoreBOM, t, bytes, stream) == (t', Malformed)
    ensures (forall calls :: Session(true, ignoreBOM, m', calls) == StandardSession(true, ignoreBOM, t', calls))
       <==> if stream then ReadsToTheEnd(Resumed(t).held, bytes) else ignoreBOM || !Resumed(t).bomSeen
  {
    hide *;
    var m := Resumed(t);
    ThrowLeaves(ignoreBOM, t, bytes, stream, m', t');
    forall calls: seq<Call>
      ensures StandardSession(true, ignoreBOM, t', calls) == Session(true, ignoreBOM, Resumed(t'), calls)
    {
      SessionsAgree(true, ignoreBOM, t', calls);
    }
    if !stream {
      ThrowKeepsTheMarkFlag(ignoreBOM, m, bytes, stream, m');
    } else if t'.unread != [] {
      UnreadShows(ignoreBOM, t'.unread, m.bomSeen);
      var next :| DecodeCall(true, ignoreBOM, m', next, false).1 != DecodeCall(true, ignoreBOM, Resumed(t'), next, false).1;
      OneCallSession(true, ignoreBOM, m', next);
      OneCallSession(true, ignoreBOM, Resumed(t'), next);
      assert Session(true, ignoreBOM, m', [Call(next, false)]) != StandardSession(true, ignoreBOM, t', [Call(next, false)]);
    }
  }

  lemma {:induction false} AfterBadIsSound(pieces: seq<Piece>)
    requires Sound(pieces)
    ensures Sound(AfterBad(pieces))
  {
    if pieces != [] && pieces[0].Good? {
      AfterBadIsSound(pieces[1..]);
    }
  }

  lemma NoBytes(pieces: seq<Piece>)
    ensures Sound(pieces) && pieces != [] ==> Bytes(pieces) != []
  {
  }

  lemma ThrowLeaves(ignoreBOM: bool, t: Stream, bytes: seq<Byte>, stream: bool, m': Memory, t': Stream)
    requires DecodeCall(true, ignoreBOM, Resumed(t), bytes, stream) == (m', Malformed)
    requires StandardCall(true, ignoreBOM, t, bytes, stream) == (t', Malformed)
    ensures m' == Memory([], Resumed(t).bomSeen)
    ensures Resumed(t') == if stream then Memory(t'.unread, Resumed(t).bomSeen) else FRESH
    ensures stream ==> (t'.unread == [] <==> ReadsToTheEnd(Resumed(t).held, bytes))
  {
    hide Decompose;
    hide Held;
    NoBytes(AfterBad(Answered(Resumed(t).held, bytes, stream)));
    AfterBadIsSound(Answered(Resumed(t).held, bytes, stream));
  }

  const LETTER: seq<Byte> := [0x41]
  const BROKEN: seq<Byte> := [0xFF]

  lemma SmallInputs()
    ensures Decompose(LETTER) == [Good(LETTER)] && Decompose(BROKEN) == [Bad(BROKEN)]
    ensures Decompose(BROKEN + LETTER) == [Bad(BROKEN), Good(LETTER)]
    ensures Held(LETTER) == [] && Held(BROKEN) == [] && Held(BROKEN + LETTER) == []
    ensures Sound([Good(LETTER)]) && FromPoints(Meanings([Good(LETTER)])) == [0x41]
  {
    AtStart(0x41, []);
    AtStart(0xFF, []);
    AtStart(0xFF, LETTER);
    assert LETTER + [] == LETTER && BROKEN + [] == BROKEN;
    assert Meanings([Good(LETTER)]) == [0x41];
    assert FromPoints([0x41]) == UnitsOf(0x41) + FromPoints([]);
    assert !IsOpen(BROKEN) && !IsOpen(LETTER);
  }

  /**
    A stale flag, reached on a new decoder: "A" is streamed, a broken byte ends
    the stream with a throw, and the mark that opens the next stream stays in
    its text. The standard drops it.
   */
  lemma StaleMark()
    ensures DecodeCall(true, false, FRESH, LETTER, true) == (Memory([], true), Text([0x41]))
    ensures DecodeCall(true, false, Memory([], true), BROKEN, false) == (Memory([], true), Malformed)
    ensures DecodeCall(true, false, Memory([], true), MARK, false).1 == Text([BOM])
    ensures forall t: Stream :: !t.doNotFlush ==> StandardCall(true, false, t, MARK, false).1 == Text([])
  {
    hide Decompose;
    hide Held;
    assert [] + LETTER == LETTER && [] + BROKEN == BROKEN;
    SmallInputs();
    MarkDecodes(true);
    MarkDecodes(false);
  }

  /**
    Lost input: a new decoder throws on the first of two streamed bytes. The
    standard still has the second to decode; the code has dropped it.
   */
  lemma LostInput()
    ensures DecodeCall(true, false, FRESH, BROKEN + LETTER, true) == (Memory([], false), Malformed)
    ensures DecodeCall(true, false, Memory([], false), [], false).1 == Text([])
    ensures StandardCall(true, false, BLANK, BROKEN + LETTER, true) == (Stream(LETTER, false, true), Malformed)
    ensures StandardCall(true, false, Stream(LETTER, false, true), [], false).1 == Text([0x41])
  {
    hide Decompose;
    hide Held;
    assert [] + (BROKEN + LETTER) == BROKEN + LETTER && LETTER + [] == LETTER;
    SmallInputs();
    NothingDecodes(false, false);
    assert AfterBad([Bad(BROKEN), Good(LETTER)]) == [Good(LETTER)];
    assert Bytes([Good(LETTER)]) == LETTER + Bytes([]);
  }
}
