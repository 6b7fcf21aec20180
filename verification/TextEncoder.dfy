/**
  The encoder of src/encoding.js: a loop over code points that pushes bytes,
  and `encodeInto`, which writes a destination in place and never cuts a
  code point.
 */
module TextEncoding {
  import opened Sequences
  import opened Unicode
  import opened Utf8

  /** The bytes a string encodes to; each lone surrogate becomes U+FFFD. */
  function EncodeText(text: seq<Unit>): seq<Byte> {
    EncodeScalars(RepairAll(Points(text)))
  }

  lemma EncodeTextConcat(a: seq<Unit>, b: seq<Unit>)
    requires IsBoundary(a + b, |a|)
    ensures EncodeText(a + b) == EncodeText(a) + EncodeText(b)
  {
    PointsConcat(a, b);
    RepairAllConcat(Points(a), Points(b));
    EncodeScalarsConcat(RepairAll(Points(a)), RepairAll(Points(b)));
  }

  lemma EncodeTextHead(text: seq<Unit>, i: nat)
    requires i < |text|
    ensures EncodeText(text[i..])
         == EncodeScalar(Repair(CodePointAt(text, i))) + EncodeText(text[i + CharLength(text, i)..])
  {
    var s := text[i..];
    assert CharLength(s, 0) == CharLength(text, i) && CodePointAt(s, 0) == CodePointAt(text, i);
    assert s[CharLength(s, 0)..] == text[i + CharLength(text, i)..];
    assert RepairAll(Points(s))[1..] == RepairAll(Points(s)[1..]);
  }

  lemma EncodeNothing()
    ensures EncodeText([]) == []
  {
  }

  /** What the first `i` units encode to. */
  function EncodedTo(text: seq<Unit>, i: nat): seq<Byte>
    requires i <= |text|
  {
    EncodeText(text[..i])
  }

  /** A boundary splits the encoding as it splits the text. */
  lemma EncodedToCut(text: seq<Unit>, i: nat, j: nat)
    requires i <= j <= |text| && IsBoundary(text, i)
    ensures EncodedTo(text, j) == EncodedTo(text, i) + EncodeText(text[i..j])
  {
    hide EncodeText;
    var a, b := text[..i], text[i..j];
    assert text[..j] == a + b;
    assert IsBoundary(a + b, |a|) by {
      assert forall k :: 0 <= k < j ==> (a + b)[k] == text[k];
    }
    EncodeTextConcat(a, b);
  }

  lemma NextBoundary(text: seq<Unit>, i: nat, n: nat)
    requires i < |text| && IsBoundary(text, i) && n == CharLength(text, i)
    ensures i + n <= |text| && IsBoundary(text, i + n)
    ensures forall r :: i < r <= |text| && IsBoundary(text, r) ==> i + n <= r
  {
  }

  /** Every longer cut of the text encodes to more than `room` bytes. */
  predicate NoMoreFits(text: seq<Unit>, read: nat, room: nat)
    requires read <= |text|
  {
    forall r :: read < r <= |text| && IsBoundary(text, r) ==> |EncodedTo(text, r)| > room
  }

  lemma NextDoesNotFit(text: seq<Unit>, read: nat, n: nat, room: nat)
    requires read < |text| && IsBoundary(text, read) && n == CharLength(text, read)
    requires |EncodedTo(text, read + n)| > room
    ensures NoMoreFits(text, read, room)
  {
    hide EncodedTo;
    NextBoundary(text, read, n);
    forall r | read < r <= |text| && IsBoundary(text, r)
      ensures |EncodedTo(text, r)| > room
    {
      EncodedToCut(text, read + n, r);
    }
  }

  class TextEncoder {
    constructor () {
    }

    method Encode(text: seq<Unit>) returns (bytes: seq<Byte>)
      ensures bytes == EncodeText(text)
    {
      hide EncodeText;
      hide EncodeScalar;
      hide CodePointAt;
      hide CharLength;
      EncodeNothing();
      assert text[0..] == text;
      bytes := [];
      var i := 0;

      while i < |text|
        invariant 0 <= i <= |text|
        invariant bytes + EncodeText(text[i..]) == EncodeText(text)
      {
        var code := CodePointAt(text, i);
        EncodeTextHead(text, i);
        UnitsOfCharacter(text, i);

        if 0xD800 <= code <= 0xDFFF {
          code := REPLACEMENT;
        }

        var pushed := Push(code);
        Assoc(bytes, pushed, EncodeText(text[i + CharLength(text, i)..]));
        bytes := bytes + pushed;
        i := i + CharLength(text, i);
      }

      assert text[i..] == [];
    }

    /** The bytes one code point pushes. */
    method Push(code: Scalar) returns (pushed: seq<Byte>)
      ensures pushed == EncodeScalar(code)
    {
      assert code / 0x1000 == code / 0x40 / 0x40 && code / 0x40000 == code / 0x40 / 0x40 / 0x40;

      if code <= 0x7F {
        pushed := [code];
      } else if code <= 0x7FF {
        pushed := [0xC0 + code / 0x40, 0x80 + code % 0x40];
      } else if code <= 0xFFFF {
        pushed := [0xE0 + code / 0x1000, 0x80 + code / 0x40 % 0x40, 0x80 + code % 0x40];
      } else {
        pushed := [0xF0 + code / 0x40000, 0x80 + code / 0x1000 % 0x40,
                   0x80 + code / 0x40 % 0x40, 0x80 + code % 0x40];
      }
    }

    /**
      `read` is the greatest cut of the text, between two code points, whose
      encoding fits; the destination is that encoding and then what it was.
     */
    method EncodeInto(text: seq<Unit>, destination: array<Byte>) returns (read: nat, written: nat)
      modifies destination
      ensures read <= |text| && NoMoreFits(text, read, destination.Length)
      ensures Wrote(text, read, written, destination, old(destination[..]))
    {
      hide *;
      NothingWrote(text, destination);
      read, written := 0, 0;
      var fits := true;

      while read < |text| && fits
        invariant read <= |text| && Wrote(text, read, written, destination, old(destination[..]))
        invariant !fits ==> NoMoreFits(text, read, destination.Length)
        decreases |text| - read, fits
      {
        fits, read, written := EncodeNext(text, destination, read, written, old(destination[..]));
      }

      if fits {
        AllWasRead(text, destination.Length);
      }
    }

    /** One code point, or nothing when the destination is too short for it. */
    method EncodeNext(text: seq<Unit>, destination: array<Byte>, read: nat, written: nat, ghost original: seq<Byte>)
      returns (fits: bool, read': nat, written': nat)
      requires read < |text| && Wrote(text, read, written, destination, original)
      modifies destination
      ensures read' <= |text| && Wrote(text, read', written', destination, original)
      ensures if fits then read < read' else read' == read && NoMoreFits(text, read, destination.Length)
    {
      hide EncodedTo;
      hide EncodeText;
      hide IsOverwritten;
      hide IsBoundary;
      hide NoMoreFits;
      hide CharLength;
      UnitsOfCharacter(text, read);
      var n := CharLength(text, read);
      NextBoundary(text, read, n);
      EncodedToCut(text, read, read + n);
      var encoded := Encode(text[read..read + n]);

      if written + |encoded| > destination.Length {
        NextDoesNotFit(text, read, n, destination.Length);
        return false, read, written;
      }

      SetAt(destination, encoded, written, EncodedTo(text, read), original);
      return true, read + n, written + |encoded|;
    }

    /** Uint8Array.prototype.set, just past what has been written. */
    static method SetAt(destination: array<Byte>, source: seq<Byte>, offset: nat,
                        ghost done: seq<Byte>, ghost original: seq<Byte>)
      requires offset == |done| && |done| + |source| <= destination.Length
      requires IsOverwritten(destination, done, original)
      modifies destination
      ensures IsOverwritten(destination, done + source, original)
    {
      forall k | 0 <= k < |source| {
        destination[offset + k] := source[k];
      }
    }
  }

  /** The array starts with `done` and is otherwise still `original`. */
  predicate IsOverwritten(destination: array<Byte>, done: seq<Byte>, original: seq<Byte>)
    reads destination
  {
    |done| <= |original| && destination[..] == done + original[|done|..]
  }

  /** The encoding of the text up to a cut between code points, `written` bytes, has been put in place. */
  predicate Wrote(text: seq<Unit>, read: nat, written: nat, destination: array<Byte>, original: seq<Byte>)
    requires read <= |text|
    reads destination
  {
    && IsBoundary(text, read)
    && written == |EncodedTo(text, read)| <= destination.Length
    && IsOverwritten(destination, EncodedTo(text, read), original)
  }

  lemma NothingWrote(text: seq<Unit>, destination: array<Byte>)
    ensures Wrote(text, 0, 0, destination, destination[..])
  {
  }

  lemma AllWasRead(text: seq<Unit>, room: nat)
    ensures NoMoreFits(text, |text|, room)
  {
  }
}
