/**
  The decoder of the Encoding Standard, byte by byte: the handler of section
  8.1.1, and the `decode` method of section 7.2 that feeds it from a queue. It
  is what module EncodingStandard says it is in terms of pieces, and what the
  code does up to the first throw.
 */
module StandardDecoder {
  import opened Unicode
  import opened Utf8
  import opened TextDecoding
  import opened DecoderTheorems
  import opened EncodingStandard

  datatype Utf8State = Utf8State(needed: nat, seen: nat, codePoint: nat, lower: int, upper: int)

  const START := Utf8State(0, 0, 0, 0x80, 0xBF)

  /** What the handler answers to a byte; an error may put the byte back in the queue. */
  datatype Item = Continue | Emit(point: int) | Error(restored: bool)

  function Handle(d: Utf8State, b: Byte): (Utf8State, Item) {
    if d.needed == 0 then
      if b <= 0x7F then (d, Emit(b))
      else if 0xC2 <= b <= 0xDF then (d.(needed := 1, codePoint := b % 0x20), Continue)
      else if 0xE0 <= b <= 0xEF then
        (d.(needed := 2, codePoint := b % 0x10,
            lower := if b == 0xE0 then 0xA0 else d.lower, upper := if b == 0xED then 0x9F else d.upper), Continue)
      else if 0xF0 <= b <= 0xF4 then
        (d.(needed := 3, codePoint := b % 0x08,
            lower := if b == 0xF0 then 0x90 else d.lower, upper := if b == 0xF4 then 0x8F else d.upper), Continue)
      else (d, Error(false))
    else if !(d.lower <= b <= d.upper) then (START, Error(true))
    else
      var point := d.codePoint * 0x40 + b % 0x40;
      if d.seen + 1 != d.needed then
        (d.(lower := 0x80, upper := 0xBF, codePoint := point, seen := d.seen + 1), Continue)
      else (START, Emit(point))
  }

  datatype Reading = Reading(state: Utf8State, queue: seq<Byte>, output: seq<int>, thrown: bool)

  /** Items are processed until the queue is empty or, in fatal mode, one is an error. */
  function ReadQueue(fatal: bool, d: Utf8State, queue: seq<Byte>, doNotFlush: bool): Reading
    decreases |queue|, d.needed
  {
    if queue == [] then
      if doNotFlush || d.needed == 0 then Reading(d, [], [], false)
      else Reading(d.(needed := 0), [], if fatal then [] else [REPLACEMENT], fatal)
    else
      var (d', item) := Handle(d, queue[0]);
      var rest := if item == Error(true) then queue else queue[1..];
      if fatal && item.Error? then Reading(d', rest, [], true)
      else
        var r := ReadQueue(fatal, d', rest, doNotFlush);
        r.(output := Output(item) + r.output)
  }

  function Output(item: Item): seq<int> {
    match item case Continue => [] case Emit(point) => [point] case Error(_) => [REPLACEMENT]
  }

  /** The string of a list of numbers; what is no code point spells nothing, and never comes up. */
  function Spelled(points: seq<int>): seq<Unit> {
    if points == [] then []
    else (if 0 <= points[0] <= 0x10FFFF then UnitsOf(points[0]) else []) + Spelled(points[1..])
  }

  lemma {:induction false} SpelledScalars(points: seq<Scalar>)
    ensures Spelled(points) == FromPoints(points)
  {
    if points != [] {
      SpelledScalars(points[1..]);
    }
  }

  datatype Decoder = Decoder(state: Utf8State, queue: seq<Byte>, bomSeen: bool, doNotFlush: bool)

  const NEW := Decoder(START, [], false, false)

  function DecodeMethod(fatal: bool, ignoreBOM: bool, k: Decoder, bytes: seq<Byte>, stream: bool): (Decoder, Outcome) {
    var begun := if k.doNotFlush then k else NEW;
    var r := ReadQueue(fatal, begun.state, begun.queue + bytes, stream);
    if r.thrown then (Decoder(r.state, r.queue, begun.bomSeen, stream), Malformed)
    else
      var due := !ignoreBOM && !begun.bomSeen;
      var kept := if due && r.output != [] && r.output[0] == BOM then r.output[1..] else r.output;
      (Decoder(r.state, r.queue, begun.bomSeen || (!ignoreBOM && r.output != []), stream), Text(Spelled(kept)))
  }

  function MethodSession(fatal: bool, ignoreBOM: bool, k: Decoder, calls: seq<Call>): seq<Outcome>
    decreases |calls|
  {
    if calls == [] then []
    else
      var (k', r) := DecodeMethod(fatal, ignoreBOM, k, calls[0].bytes, calls[0].stream);
      [r] + (if r.Malformed? then [] else MethodSession(fatal, ignoreBOM, k', calls[1..]))
  }

  predicate IsHeld(held: seq<Byte>) {
    held == [] || IsOpen(held)
  }

  /** The handler's fields after the bytes of an open sequence. */
  function FieldsOf(held: seq<Byte>): Utf8State
    requires IsHeld(held)
  {
    if held == [] then START
    else Utf8State(Announced(held[0]) - 1, |held| - 1, Payload(held), Lowest(held), Highest(held))
  }

  function ItemOf(step: Step): Item {
    match step case Silent => Continue case Push(point) => Emit(point) case Broken(again) => Error(again)
  }

  /** One byte: the handler does what the pieces say. */
  lemma HandleSays(held: seq<Byte>, b: Byte) returns (step: Step, held': seq<Byte>)
    requires IsHeld(held)
    ensures StepSays(step, held, b, held') && IsHeld(held')
    ensures if step.Silent? then held' == held + [b] else held' == []
    ensures step == Broken(true) ==> held != []
    ensures step.Push? ==> IsSequence(held + [b])
    ensures Handle(FieldsOf(held), b) == (FieldsOf(held'), ItemOf(step))
  {
    hide Payload;
    hide ValueOf;
    if held == [] {
      assert held + [b] == [b];
      PayloadOfLead(b);
      if b <= 0x7F {
        return Push(b), [];
      } else if 0xC2 <= b <= 0xF4 {
        return Silent, [b];
      }
      return Broken(false), [];
    }
    if !(Lowest(held) <= b <= Highest(held)) {
      return Broken(true), [];
    }
    NextByte(held, b);
    PayloadSnoc(held, b);
    if |held| + 1 == Announced(held[0]) {
      PayloadOfSequence(held + [b]);
      return Push(ValueOf(held + [b])), [];
    }
    return Silent, held + [b];
  }

  /** A first piece that more input cannot change comes first, in either mode. */
  lemma AnsweredFirst(input: seq<Byte>, p: Piece, todo: seq<Byte>, stream: bool)
    requires Decompose(input) == [p] + Decompose(todo) && (EndsOpen([p]) ==> todo != [])
    ensures Answered([], input, stream) == [p] + Answered([], todo, stream)
    ensures Held(input) == Held(todo)
  {
    hide IsOpen;
    hide IsSequence;
    hide Decompose;
    assert [] + input == input && [] + todo == todo;
    var qs := Decompose(todo);
    DecompositionCovers(qs, todo);
    if qs == [] {
      assert Decompose(input) == [p];
    } else {
      assert Decompose(input)[|qs|] == qs[|qs| - 1];
      assert Decompose(input)[..|qs|] == [p] + qs[..|qs| - 1];
    }
  }

  /** What reading a queue comes to, said by pieces. */
  predicate ReadsPieces(r: Reading, fatal: bool, pieces: seq<Piece>, held: seq<Byte>, stream: bool)
    requires Sound(pieces) && IsHeld(held)
  {
    && (r.thrown <==> fatal && !AllGood(pieces))
    && (!r.thrown ==> r.output == Meanings(pieces) && r.queue == [] && (stream ==> r.state == FieldsOf(held)))
    && (r.thrown ==> r.queue == Bytes(AfterBad(pieces)) + (if stream then held else []) && (stream ==> r.state == START))
  }

  lemma HeldIsHeld(input: seq<Byte>)
    ensures IsHeld(Held(input))
  {
  }

  lemma EmptyQueue(fatal: bool, held: seq<Byte>, stream: bool)
    requires IsHeld(held)
    ensures Held(held) == held
    ensures ReadsPieces(ReadQueue(fatal, FieldsOf(held), [], stream), fatal, Answered(held, [], stream), held, stream)
  {
    hide IsSequence;
    hide First;
    hide Payload;
    assert held + [] == held;
    OpenDecomposes(held);
    if held != [] {
      assert Meanings([Bad(held)]) == [REPLACEMENT];
      assert Emitted(held) == [];
    }
  }

  lemma FirstReads(r: Reading, fatal: bool, p: Piece, pieces: seq<Piece>, held: seq<Byte>, stream: bool)
    requires p.Good? ==> IsSequence(p.bytes)
    requires Sound([p]) && Sound(pieces) && IsHeld(held) && (fatal ==> p.Good?) && ReadsPieces(r, fatal, pieces, held, stream)
    ensures Sound([p] + pieces)
    ensures ReadsPieces(r.(output := [Meaning(p) as int] + r.output), fatal, [p] + pieces, held, stream)
  {
    hide IsOpen;
    hide IsSequence;
    MeaningsConcat([p], pieces);
    AllGoodConcat([p], pieces);
    assert Meanings([p]) == [Meaning(p)];
    if fatal {
      assert ([p] + pieces)[1..] == pieces;
    }
  }

  /** The queue is read as the pieces of what is held and what is queued. */
  lemma {:induction false} QueueReadsPieces(fatal: bool, held: seq<Byte>, queue: seq<Byte>, stream: bool)
    requires IsHeld(held)
    ensures IsHeld(Held(held + queue))
    ensures ReadsPieces(ReadQueue(fatal, FieldsOf(held), queue, stream), fatal, Answered(held, queue, stream), Held(held + queue), stream)
    decreases |queue|, |held|
  {
    hide Decompose;
    hide Held;
    hide Emitted;
    hide Answered;
    hide Handle;
    hide ReadQueue;
    hide ReadsPieces;
    hide IsOpen;
    hide IsSequence;
    hide Payload;
    hide StepSays;
    HeldIsHeld(held + queue);
    if queue == [] {
      assert held + [] == held;
      EmptyQueue(fatal, held, stream);
      return;
    }
    var b, rest := queue[0], queue[1..];
    var step, held' := HandleSays(held, b);
    if step.Silent? {
      QueueReadsPieces(fatal, held + [b], rest, stream);
      SilentStep(fatal, held, queue, stream);
    } else {
      var todo := if step == Broken(true) then queue else rest;
      var p := if step.Push? then Good(held + [b]) else if step == Broken(true) then Bad(held) else Bad([b]);
      assert queue == [b] + rest;
      StepFindsPiece(held, b, rest, step, held', p, todo);
      QueueReadsPieces(fatal, [], todo, stream);
      assert [] + todo == todo;
      LoudStep(fatal, held, queue, stream, step, p, todo);
    }
  }

  lemma SilentStep(fatal: bool, held: seq<Byte>, queue: seq<Byte>, stream: bool)
    requires queue != [] && IsHeld(held) && IsHeld(held + [queue[0]])
    requires Handle(FieldsOf(held), queue[0]) == (FieldsOf(held + [queue[0]]), Continue)
    ensures ReadQueue(fatal, FieldsOf(held), queue, stream) == ReadQueue(fatal, FieldsOf(held + [queue[0]]), queue[1..], stream)
    ensures Answered(held, queue, stream) == Answered(held + [queue[0]], queue[1..], stream)
    ensures held + queue == held + [queue[0]] + queue[1..]
  {
    hide Handle;
    hide FieldsOf;
    hide Decompose;
    hide Emitted;
    assert held + queue == held + [queue[0]] + queue[1..];
  }

  /** Nothing after the first ill-formed piece is read. */
  lemma BadReads(p: Piece, todo: seq<Byte>, stream: bool)
    requires Sound([p]) && p.Bad? && IsHeld(Held(todo))
    ensures Sound([p] + Answered([], todo, stream))
    ensures ReadsPieces(Reading(START, todo, [], true), true, [p] + Answered([], todo, stream), Held(todo), stream)
  {
    hide IsOpen;
    hide IsSequence;
    hide Decompose;
    hide Held;
    hide Emitted;
    hide Answered;
    var pieces := Answered([], todo, stream);
    AnsweredCovers([], todo, stream);
    assert [] + todo == todo && Bytes(pieces) + [] == Bytes(pieces);
    assert ([p] + pieces)[0] == p && ([p] + pieces)[1..] == pieces;
  }

  lemma LoudStep(fatal: bool, held: seq<Byte>, queue: seq<Byte>, stream: bool, step: Step, p: Piece, todo: seq<Byte>)
    requires queue != [] && IsHeld(held) && !step.Silent?
    requires Handle(FieldsOf(held), queue[0]) == (START, ItemOf(step))
    requires todo == if step == Broken(true) then queue else queue[1..]
    requires p.Good? ==> IsSequence(p.bytes)
    requires Sound([p]) && (p.Good? <==> step.Push?) && (step.Push? ==> Meaning(p) == step.point)
    requires Decompose(held + queue) == [p] + Decompose(todo) && (EndsOpen([p]) ==> todo != [])
    requires IsHeld(Held(todo))
    requires ReadsPieces(ReadQueue(fatal, START, todo, stream), fatal, Answered([], todo, stream), Held(todo), stream)
    ensures IsHeld(Held(held + queue))
    ensures ReadsPieces(ReadQueue(fatal, FieldsOf(held), queue, stream), fatal, Answered(held, queue, stream), Held(held + queue), stream)
  {
    hide Handle;
    hide FieldsOf;
    hide Decompose;
    hide Held;
    hide Emitted;
    hide IsSequence;
    hide IsOpen;
    hide Sound;
    hide AllGood;
    AnsweredFirst(held + queue, p, todo, stream);
    assert [] + (held + queue) == held + queue && [] + todo == todo;
    var r, pieces := ReadQueue(fatal, START, todo, stream), Answered([], todo, stream);
    assert Answered(held, queue, stream) == [p] + pieces;
    if fatal && p.Bad? {
      BadReads(p, todo, stream);
    } else {
      FirstReads(r, fatal, p, pieces, Held(todo), stream);
    }
  }

  /** `t` says of the standard's decoder what it will still read, and nothing of how. */
  predicate IsShown(k: Decoder, held: seq<Byte>, t: Stream) {
    && k.doNotFlush == t.doNotFlush
    && (k.doNotFlush ==> IsHeld(held) && k.state == FieldsOf(held) && t.unread == held + k.queue && k.bomSeen == t.bomSeen)
  }

  /** One call of the method is one StandardCall. */
  lemma MethodIsStandardCall(fatal: bool, ignoreBOM: bool, k: Decoder, held: seq<Byte>, t: Stream, bytes: seq<Byte>, stream: bool)
    returns (held': seq<Byte>)
    requires IsShown(k, held, t)
    ensures DecodeMethod(fatal, ignoreBOM, k, bytes, stream).1 == StandardCall(fatal, ignoreBOM, t, bytes, stream).1
    ensures IsShown(DecodeMethod(fatal, ignoreBOM, k, bytes, stream).0, held', StandardCall(fatal, ignoreBOM, t, bytes, stream).0)
  {
    hide ReadQueue;
    hide Decompose;
    hide Held;
    hide Emitted;
    hide IsOpen;
    hide Spelled;
    hide FromPoints;
    var open, queue := if k.doNotFlush then held else [], if k.doNotFlush then k.queue else [];
    QueueReadsPieces(fatal, open, queue + bytes, stream);
    var m := Resumed(t);
    assert open + (queue + bytes) == m.held + bytes;
    var pieces := Answered(m.held, bytes, stream);
    assert Answered(open, queue + bytes, stream) == pieces;
    SpelledScalars(Strip(Meanings(pieces), !ignoreBOM && !m.bomSeen));
    var r := ReadQueue(fatal, FieldsOf(open), queue + bytes, stream);
    held' := if r.thrown then [] else Held(m.held + bytes);
    assert [] + r.queue == r.queue && held' + [] == held';
  }

  lemma {:induction false} MethodSessionsAgree(fatal: bool, ignoreBOM: bool, k: Decoder, held: seq<Byte>, t: Stream, calls: seq<Call>)
    requires IsShown(k, held, t)
    ensures MethodSession(fatal, ignoreBOM, k, calls) == StandardSession(fatal, ignoreBOM, t, calls)
    decreases |calls|
  {
    hide DecodeMethod;
    hide StandardCall;
    hide IsShown;
    if calls != [] {
      var bytes, stream := calls[0].bytes, calls[0].stream;
      var held' := MethodIsStandardCall(fatal, ignoreBOM, k, held, t, bytes, stream);
      var k', t' := DecodeMethod(fatal, ignoreBOM, k, bytes, stream).0, StandardCall(fatal, ignoreBOM, t, bytes, stream).0;
      MethodSessionsAgree(fatal, ignoreBOM, k', held', t', calls[1..]);
    }
  }

  /** After a throw, the exact condition of ThrowAgreesExactly is the one for the method too. */
  lemma ThrowFollowsTheStandard(ignoreBOM: bool, k: Decoder, held: seq<Byte>, t: Stream, bytes: seq<Byte>, stream: bool,
                                m': Memory, k': Decoder)
    requires IsShown(k, held, t) && DecodeCall(true, ignoreBOM, Resumed(t), bytes, stream) == (m', Malformed)
    requires DecodeMethod(true, ignoreBOM, k, bytes, stream) == (k', Malformed)
    ensures (forall calls :: Session(true, ignoreBOM, m', calls) == MethodSession(true, ignoreBOM, k', calls))
       <==> if stream then ReadsToTheEnd(Resumed(t).held, bytes) else ignoreBOM || !Resumed(t).bomSeen
  {
    hide *;
    var held' := MethodIsStandardCall(true, ignoreBOM, k, held, t, bytes, stream);
    var t' := StandardCall(true, ignoreBOM, t, bytes, stream).0;
    ThrowAgreesExactly(ignoreBOM, t, bytes, stream, m', t');
    forall calls: seq<Call>
      ensures MethodSession(true, ignoreBOM, k', calls) == StandardSession(true, ignoreBOM, t', calls)
    {
      MethodSessionsAgree(true, ignoreBOM, k', held', t', calls);
    }
  }

  /**
    Through any calls, streamed or not, up to and including the first throw, a
    new decoder of the code answers as a new decoder of the standard.
   */
  lemma CodeFollowsTheStandard(fatal: bool, ignoreBOM: bool, calls: seq<Call>)
    ensures Session(fatal, ignoreBOM, FRESH, calls) == MethodSession(fatal, ignoreBOM, NEW, calls)
  {
    hide Session;
    hide MethodSession;
    hide StandardSession;
    MethodSessionsAgree(fatal, ignoreBOM, NEW, [], BLANK, calls);
    SessionsAgree(fatal, ignoreBOM, BLANK, calls);
  }
}
