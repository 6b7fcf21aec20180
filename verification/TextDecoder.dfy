/**
  The streaming decoder of src/encoding.js: six private fields that survive
  between `stream` calls, and a loop that reads a malformed byte twice. It is
  proved against the decomposition of module Utf8, which knows no decoder.
 */
module TextDecoding {
  import opened Sequences
  import opened Unicode
  import opened Utf8

  /** What a call to `decode` gives back: text, or the TypeError of fatal mode. */
  datatype Outcome = Text(units: seq<Unit>) | Malformed

  /** What a decoder remembers between calls, and all it remembers. */
  datatype Memory = Memory(held: seq<Byte>, bomSeen: bool)

  const FRESH := Memory([], false)

  /** The code points left once a byte order mark that is due has been dropped. */
  function Strip(points: seq<Scalar>, due: bool): seq<Scalar> {
    if due && points != [] && points[0] == BOM then points[1..] else points
  }

  /** The pieces of `held + bytes` a call answers for. */
  function Answered(held: seq<Byte>, bytes: seq<Byte>, stream: bool): (pieces: seq<Piece>)
    ensures Sound(pieces)
  {
    DecompositionCovers(Decompose(held + bytes), held + bytes);
    if stream then Emitted(held + bytes) else Decompose(held + bytes)
  }

  /** A call that returns the text of `points` and keeps `held` for the next one. */
  function Answer(ignoreBOM: bool, m: Memory, points: seq<Scalar>, held: seq<Byte>, stream: bool): (Memory, Outcome) {
    var due := !ignoreBOM && !m.bomSeen;
    (Memory(held, stream && (m.bomSeen || (due && points != []))), Text(FromPoints(Strip(points, due))))
  }

  /** One call, said by decomposition. */
  function DecodeCall(fatal: bool, ignoreBOM: bool, m: Memory, bytes: seq<Byte>, stream: bool): (Memory, Outcome) {
    var pieces := Answered(m.held, bytes, stream);
    if fatal && !AllGood(pieces) then (Memory([], m.bomSeen), Malformed)
    else Answer(ignoreBOM, m, Meanings(pieces), if stream then Held(m.held + bytes) else [], stream)
  }

  /** The bits of a lead byte that belong to the code point. */
  function LeadBits(lead: Byte): nat {
    if Announced(lead) == 2 then lead % 0x20 else if Announced(lead) == 3 then lead % 0x10 else lead % 0x08
  }

  /** The bits gathered from an open sequence. */
  function Payload(s: seq<Byte>): nat
    requires s != []
  {
    if |s| == 1 then LeadBits(s[0]) else Payload(s[..|s| - 1]) * 0x40 + s[|s| - 1] % 0x40
  }

  /** The bits gathered from a whole sequence are its value. */
  lemma PayloadOfSequence(s: seq<Byte>)
    requires IsSequence(s) && 2 <= |s|
    ensures Payload(s) == ValueOf(s)
  {
    assert s[..|s|] == s;
    PayloadPrefix(s, 2);
    if 3 <= |s| {
      PayloadPrefix(s, 3);
    }
    if 4 <= |s| {
      PayloadPrefix(s, 4);
    }
  }

  /** The bits gathered from a prefix of a sequence, digit by digit. */
  lemma {:induction false} PayloadPrefix(s: seq<Byte>, n: nat)
    requires IsSequence(s) && 2 <= n <= |s|
    ensures Payload(s[..n]) == Digits(s, n)
  {
    hide IsSequence;
    assert s[..n][..n - 1] == s[..n - 1];
    assert IsTail(s[n - 1]) by {
      TailsFollow(s, n - 1);
    }
    if n == 2 {
      assert LeadBits(s[0]) == s[0] as int - LeadBase(|s|) by {
        LeadOfSequence(s);
      }
    } else {
      PayloadPrefix(s, n - 1);
    }
  }

  lemma TailsFollow(s: seq<Byte>, i: nat)
    requires IsSequence(s) && 1 <= i < |s|
    ensures IsTail(s[i])
  {
  }

  lemma LeadOfSequence(s: seq<Byte>)
    requires IsSequence(s) && 2 <= |s|
    ensures LeadBits(s[0]) == s[0] as int - LeadBase(|s|)
  {
  }

  function LeadBase(length: nat): nat {
    if length == 2 then 0xC0 else if length == 3 then 0xE0 else 0xF0
  }

  /** The number the first `n` bytes of a sequence spell in base 0x40. */
  function Digits(s: seq<Byte>, n: nat): int
    requires 1 <= n <= |s|
  {
    if n == 1 then s[0] as int - LeadBase(|s|) else Digits(s, n - 1) * 0x40 + (s[n - 1] as int - 0x80)
  }

  lemma PayloadOfLead(b: Byte)
    ensures Payload([b]) == LeadBits(b)
    ensures b <= 0x7F ==> ValueOf([b]) == b
  {
  }

  lemma PayloadSnoc(s: seq<Byte>, b: Byte)
    requires s != []
    ensures Payload(s + [b]) == Payload(s) * 0x40 + b % 0x40
  {
    assert (s + [b])[..|s|] == s;
  }

  lemma AtStart(b: Byte, rest: seq<Byte>)
    ensures b <= 0x7F ==> Decompose([b] + rest) == [Good([b])] + Decompose(rest)
    ensures b > 0x7F && !(0xC2 <= b <= 0xF4)
        ==> Decompose([b] + rest) == [Bad([b])] + Decompose(rest) && !IsOpen([b])
    ensures 0xC2 <= b <= 0xF4 ==> IsOpen([b])
  {
    var input := [b] + rest;
    assert input[1..] == rest;
    if b <= 0x7F {
      DecomposeStep(Good([b]), input);
    } else if !(0xC2 <= b <= 0xF4) {
      forall n | 0 <= n <= |input|
        ensures !IsSequence(input[..n]) && !IsOpen(input[..n])
      {
      }
      DecomposeStep(Bad([b]), input);
    }
  }

  lemma AtOpen(held: seq<Byte>, b: Byte, rest: seq<Byte>)
    requires IsOpen(held)
    ensures !(Lowest(held) <= b <= Highest(held))
        ==> Decompose(held + ([b] + rest)) == [Bad(held)] + Decompose([b] + rest)
    ensures IsSequence(held + [b])
        ==> Decompose(held + ([b] + rest)) == [Good(held + [b])] + Decompose(rest)
  {
    var input := held + ([b] + rest);
    if !(Lowest(held) <= b <= Highest(held)) {
      OpenIsSubpart(held, b, rest);
      NextByte(held, b);
      assert input[|held|..] == [b] + rest;
      DecomposeStep(Bad(held), input);
    } else if IsSequence(held + [b]) {
      assert input == (held + [b]) + rest && input[|held| + 1..] == rest;
      DecomposeStep(Good(held + [b]), input);
    }
  }

  lemma OpenIsSubpart(held: seq<Byte>, b: Byte, rest: seq<Byte>)
    requires IsOpen(held) && !(Lowest(held) <= b <= Highest(held))
    ensures IsFirst(Bad(held), held + ([b] + rest))
  {
    NextByte(held, b);
    var input, cut := held + ([b] + rest), |held| + 1;
    assert input[..cut] == held + [b];
    forall n | 0 <= n <= |input|
      ensures !IsSequence(input[..n])
      ensures |held| < n ==> !IsOpen(input[..n])
    {
      if n < cut {
        assert input[..n] == held[..n];
        if n == |held| {
          assert held[..n] == held;
        }
        if IsSequence(input[..n]) {
          SequencesAreClosed(input[..n]);
        }
      } else if n > cut {
        assert input[..cut] < input[..n];
        if IsOpen(input[..n]) || IsSequence(input[..n]) {
          OpenPrefix(input[..n], input[..cut]);
        }
      }
    }
  }

  /**
    What the decode loop keeps: the pieces met so far, followed by those of the
    open sequence and the bytes still to read, decompose the whole input.
   */
  predicate Progress(input: seq<Byte>, pieces: seq<Piece>, points: seq<Scalar>,
                           held: seq<Byte>, todo: seq<Byte>)
  {
    && Decompose(input) == pieces + Decompose(held + todo)
    && Sound(pieces)
    && points == Meanings(pieces)
    && (held == [] && EndsOpen(pieces) ==> todo != [])
  }

  lemma Advance(input: seq<Byte>, pieces: seq<Piece>, points: seq<Scalar>, held: seq<Byte>, todo: seq<Byte>,
                p: Piece, rest: seq<Byte>)
    requires Progress(input, pieces, points, held, todo)
    requires Sound([p]) && Decompose(held + todo) == [p] + Decompose(rest)
    requires EndsOpen([p]) ==> rest != []
    ensures Progress(input, pieces + [p], points + [Meaning(p)], [], rest)
  {
    assert [] + rest == rest;
    Assoc(pieces, [p], Decompose(rest));
    MeaningsConcat(pieces, [p]);
  }

  class TextDecoder {
    const fatal: bool
    const ignoreBOM: bool
    var bomSeen: bool
    var needed: nat
    var seen: nat
    var codePoint: nat
    var lower: int
    var upper: int
    /** The bytes of the sequence the fields stand for. */
    ghost var held: seq<Byte>

    ghost predicate Valid()
      reads this
    {
      if held == [] then
        needed == 0 && seen == 0 && codePoint == 0 && lower == 0x80 && upper == 0xBF
      else
        && IsOpen(held)
        && needed == Announced(held[0]) - 1
        && seen == |held| - 1
        && codePoint == Payload(held)
        && lower == Lowest(held)
        && upper == Highest(held)
    }

    ghost function Remembers(): Memory
      reads this
    {
      Memory(held, bomSeen)
    }

    lemma NeededMeansHeld()
      requires Valid()
      ensures needed != 0 <==> held != []
      ensures held == [] || IsOpen(held)
    {
    }

    constructor (fatal: bool, ignoreBOM: bool)
      ensures Valid() && Remembers() == FRESH
      ensures this.fatal == fatal && this.ignoreBOM == ignoreBOM
    {
      this.fatal := fatal;
      this.ignoreBOM := ignoreBOM;
      bomSeen := false;
      needed, seen, codePoint, lower, upper := 0, 0, 0, 0x80, 0xBF;
      held := [];
    }

    method Start(needed: nat, codePoint: nat)
      modifies this`needed, this`seen, this`codePoint
      ensures this.needed == needed && this.seen == 0 && this.codePoint == codePoint
    {
      this.needed := needed;
      this.seen := 0;
      this.codePoint := codePoint;
    }

    method Reset()
      modifies this`needed, this`seen, this`codePoint, this`lower, this`upper, this`held
      ensures Valid() && held == []
    {
      needed := 0;
      seen := 0;
      codePoint := 0;
      lower := 0x80;
      upper := 0xBF;
      held := [];
    }

    /** One byte of the loop in `decode`, up to the point it pushes. */
    method Read(byte: Byte) returns (step: Step)
      requires Valid()
      modifies this`needed, this`seen, this`codePoint, this`lower, this`upper, this`held
      ensures Valid() && StepSays(step, old(held), byte, held)
    {
      hide Payload;
      hide ValueOf;

      if needed == 0 {
        assert held + [byte] == [byte];
        PayloadOfLead(byte);

        if byte <= 0x7F {
          return Push(byte);
        } else if 0xC2 <= byte <= 0xDF {
          Start(1, byte % 0x20);
          held := [byte];
        } else if 0xE0 <= byte <= 0xEF {
          Start(2, byte % 0x10);
          lower := if byte == 0xE0 then 0xA0 else 0x80;
          upper := if byte == 0xED then 0x9F else 0xBF;
          held := [byte];
        } else if 0xF0 <= byte <= 0xF4 {
          Start(3, byte % 0x08);
          lower := if byte == 0xF0 then 0x90 else 0x80;
          upper := if byte == 0xF4 then 0x8F else 0xBF;
          held := [byte];
        } else {
          return Broken(false);
        }

        return Silent;
      }

      if byte < lower || byte > upper {
        Reset();
        return Broken(true);
      }

      NextByte(held, byte);
      PayloadSnoc(held, byte);
      lower := 0x80;
      upper := 0xBF;
      codePoint := codePoint * 0x40 + byte % 0x40;
      seen := seen + 1;
      held := held + [byte];

      if seen == needed {
        PayloadOfSequence(held);
        step := Push(codePoint);
        Reset();
      } else {
        step := Silent;
      }
    }

    /** The loop of `decode`: the points of all bytes read, unless fatal mode throws. */
    method Scan(bytes: seq<Byte>) returns (thrown: bool, points: seq<Scalar>, ghost pieces: seq<Piece>, ghost todo: seq<Byte>)
      requires Valid()
      modifies this`needed, this`seen, this`codePoint, this`lower, this`upper, this`held
      ensures Valid() && Progress(old(held) + bytes, pieces, points, held, todo)
      ensures !thrown ==> todo == [] && (fatal ==> AllGood(pieces))
      ensures thrown ==> fatal && held == [] && pieces != [] && pieces[|pieces| - 1].Bad?
    {
      hide Decompose;
      hide IsOpen;
      hide IsSequence;
      hide Valid;
      points, pieces := [], [];
      ghost var input := held + bytes;
      var i := 0;
      assert bytes[0..] == bytes;

      while i < |bytes|
        invariant 0 <= i <= |bytes| && Valid()
        invariant Progress(input, pieces, points, held, bytes[i..]) && (fatal ==> AllGood(pieces))
        decreases |bytes| - i, |held|
      {
        ghost var before := held;
        assert bytes[i..] == [bytes[i]] + bytes[i + 1..];
        var step := Read(bytes[i]);
        ghost var p;
        p, todo := StepAdvances(input, pieces, points, before, bytes[i], bytes[i + 1..], step, held);

        match step {
          case Silent =>

          case Push(point) =>
            points := points + [point];
            pieces := pieces + [p];

          case Broken(again) =>
            points := points + [REPLACEMENT];
            pieces := pieces + [p];

            if fatal {
              return true, points, pieces, todo;
            }

            if again {
              // Read again, with nothing open.
              i := i - 1;
            }
        }

        i := i + 1;
      }

      thrown, todo := false, [];
    }

    /** A whole call; its answer and what it leaves behind are those of DecodeCall. */
    method Decode(bytes: seq<Byte>, stream: bool) returns (r: Outcome)
      requires Valid()
      modifies this
      ensures Valid()
      ensures (Remembers(), r) == DecodeCall(fatal, ignoreBOM, old(Remembers()), bytes, stream)
    {
      hide Decompose;
      hide IsOpen;
      hide DecodeCall;
      hide Progress;
      hide Valid;
      ghost var m := Remembers();
      var thrown, points, pieces, todo := Scan(bytes);

      if thrown {
        CallThrows(ignoreBOM, m, bytes, stream, pieces, points, todo);
        return Malformed;
      }

      NeededMeansHeld();
      CallEnds(fatal, ignoreBOM, m, bytes, stream, pieces, points, held);

      if !stream && needed != 0 {
        Reset();

        if fatal {
          return Malformed;
        }

        points := points + [REPLACEMENT];
      }

      points := DropMark(points, stream);
      var text := Spell(points);
      r := Text(text);
    }

    /** The byte order mark goes from the first text of a stream. */
    method DropMark(points: seq<Scalar>, stream: bool) returns (kept: seq<Scalar>)
      requires Valid()
      modifies this`bomSeen
      ensures Valid()
      ensures kept == Strip(points, !ignoreBOM && !old(bomSeen))
      ensures bomSeen == (stream && (old(bomSeen) || (!ignoreBOM && points != [])))
    {
      kept := points;

      if !ignoreBOM && !bomSeen && |points| > 0 {
        bomSeen := true;

        if points[0] == BOM {
          kept := points[1..];
        }
      }

      if !stream {
        bomSeen := false;
      }
    }

    /** Slices of 1024 points, spelled one after the other. */
    static method Spell(points: seq<CodePoint>) returns (text: seq<Unit>)
      ensures text == FromPoints(points)
    {
      hide UnitsOf;
      text := [];
      var i := 0;
      assert points[0..] == points;

      while i < |points|
        invariant 0 <= i
        invariant text + FromPoints(From(points, i)) == FromPoints(points)
      {
        var slice := points[i..if i + 1024 <= |points| then i + 1024 else |points|];
        assert From(points, i) == slice + From(points, i + 1024);
        FromPointsConcat(slice, From(points, i + 1024));
        Assoc(text, FromPoints(slice), FromPoints(From(points, i + 1024)));
        text := text + FromPoints(slice);
        i := i + 1024;
      }
    }
  }

  function From<T>(s: seq<T>, i: nat): seq<T> {
    if i <= |s| then s[i..] else []
  }

  predicate EndsOpen(pieces: seq<Piece>) {
    pieces != [] && pieces[|pieces| - 1].Bad? && IsOpen(pieces[|pieces| - 1].bytes)
  }

  /** What one pass of the decode loop does: nothing yet, a code point, or a malformed sequence. */
  datatype Step = Silent | Push(point: Scalar) | Broken(again: bool)

  /** A pass said by the bytes held before and after it. */
  predicate StepSays(step: Step, held: seq<Byte>, b: Byte, held': seq<Byte>) {
    match step
    case Silent => held' == held + [b]
    case Push(c) => held' == [] && IsSequence(held + [b]) && ValueOf(held + [b]) == c && (held == [] || IsOpen(held))
    case Broken(again) =>
      && held' == []
      && if again then IsOpen(held) && !(Lowest(held) <= b <= Highest(held))
         else held == [] && b > 0x7F && !(0xC2 <= b <= 0xF4)
  }

  lemma StepAdvances(input: seq<Byte>, pieces: seq<Piece>, points: seq<Scalar>, held: seq<Byte>,
                     b: Byte, rest: seq<Byte>, step: Step, held': seq<Byte>)
    returns (p: Piece, todo: seq<Byte>)
    requires Progress(input, pieces, points, held, [b] + rest)
    requires StepSays(step, held, b, held')
    ensures todo == if step == Broken(true) then [b] + rest else rest
    ensures step.Silent? ==> Progress(input, pieces, points, held', todo)
    ensures !step.Silent? ==> p.Good? == step.Push?
    ensures step.Push? ==> Progress(input, pieces + [p], points + [step.point], held', todo)
    ensures step.Broken? ==> Progress(input, pieces + [p], points + [REPLACEMENT], held', todo)
  {
    hide Decompose;
    hide IsOpen;
    todo := if step == Broken(true) then [b] + rest else rest;
    p := if step.Push? then Good(held + [b]) else if step == Broken(true) then Bad(held) else Bad([b]);
    if step.Silent? {
      assert held + ([b] + rest) == (held + [b]) + rest;
    } else {
      StepFindsPiece(held, b, rest, step, held', p, todo);
      Advance(input, pieces, points, held, [b] + rest, p, todo);
    }
  }

  lemma StepFindsPiece(held: seq<Byte>, b: Byte, rest: seq<Byte>, step: Step, held': seq<Byte>,
                       p: Piece, todo: seq<Byte>)
    requires StepSays(step, held, b, held') && !step.Silent?
    requires p == if step.Push? then Good(held + [b]) else if step == Broken(true) then Bad(held) else Bad([b])
    requires todo == if step == Broken(true) then [b] + rest else rest
    ensures Sound([p]) && Decompose(held + ([b] + rest)) == [p] + Decompose(todo)
    ensures EndsOpen([p]) ==> todo != []
    ensures step.Push? ==> Meaning(p) == step.point
  {
    if held == [] {
      assert held + [b] == [b] && held + ([b] + rest) == [b] + rest;
      AtStart(b, rest);
    } else {
      AtOpen(held, b, rest);
    }
  }

  /** An ill-formed piece the loop has met is one the call answers for, so fatal mode throws. */
  lemma CallThrows(ignoreBOM: bool, m: Memory, bytes: seq<Byte>, stream: bool,
                   pieces: seq<Piece>, points: seq<Scalar>, todo: seq<Byte>)
    requires Progress(m.held + bytes, pieces, points, [], todo)
    requires pieces != [] && pieces[|pieces| - 1].Bad?
    ensures DecodeCall(true, ignoreBOM, m, bytes, stream) == (Memory([], m.bomSeen), Malformed)
  {
    var input, k := m.held + bytes, |pieces| - 1;
    assert Decompose(input)[k] == pieces[k];
    assert [] + todo == todo;
    if todo == [] {
      assert Decompose(input) == pieces;
    } else {
      assert Decompose(todo) != [];
    }
    assert Answered(m.held, bytes, stream)[k].Bad?;
  }

  /** The loop has read everything: what is left is to flush, to drop the mark, and to answer. */
  lemma CallEnds(fatal: bool, ignoreBOM: bool, m: Memory, bytes: seq<Byte>, stream: bool,
                 pieces: seq<Piece>, points: seq<Scalar>, held: seq<Byte>)
    requires held == [] || IsOpen(held)
    requires Progress(m.held + bytes, pieces, points, held, []) && (fatal ==> AllGood(pieces))
    ensures !stream && held != [] && fatal
        ==> DecodeCall(fatal, ignoreBOM, m, bytes, stream) == (Memory([], m.bomSeen), Malformed)
    ensures !stream && held != [] && !fatal
        ==> DecodeCall(fatal, ignoreBOM, m, bytes, stream) == Answer(ignoreBOM, m, points + [REPLACEMENT], [], false)
    ensures stream || held == []
        ==> DecodeCall(fatal, ignoreBOM, m, bytes, stream) == Answer(ignoreBOM, m, points, held, stream)
  {
    hide Decompose;
    hide IsSequence;
    hide IsOpen;
    LoopEnds(m.held + bytes, pieces, points, held);
    if !stream && held != [] {
      var last := [Bad(held)];
      MeaningsConcat(pieces, last);
      assert Meanings(last) == [REPLACEMENT];
      assert (pieces + last)[|pieces|].Bad?;
    }
  }

  lemma LoopEnds(input: seq<Byte>, pieces: seq<Piece>, points: seq<Scalar>, held: seq<Byte>)
    requires held == [] || IsOpen(held)
    requires Progress(input, pieces, points, held, [])
    ensures Decompose(input) == if held == [] then pieces else pieces + [Bad(held)]
    ensures Held(input) == held && Emitted(input) == pieces
  {
    hide IsSequence;
    hide IsOpen;
    hide First;
    assert held + [] == held;
    OpenDecomposes(held);
    assert held == [] ==> pieces + Flush(held) == pieces;
    assert held != [] ==> Decompose(input)[|pieces|] == Bad(held);
  }
}
