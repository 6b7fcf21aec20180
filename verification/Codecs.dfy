/**
  The table of compression streams (src/compression.rs): from ids to stateful
  codecs. What a codec computes is left abstract; that each stream sees its own
  bytes, all of them, in order, and nobody else's, is not.
 */
module Codecs {
  import opened Sequences
  import opened Unicode
  import opened Options

  /** A family of codecs with states S: None is an error of the codec, or a format it does not know. */
  datatype Family<!S> = Family(
    open: (string, bool) -> Option<S>,
    push: (S, seq<Byte>) -> Option<(S, seq<Byte>)>,
    finish: S -> Option<seq<Byte>>)

  /** What the surface asked for; a push names a buffer and a range of it. */
  datatype Request =
    | Start(format: string, decompress: bool)
    | Push(id: nat, buffer: Option<seq<Byte>>, offset: nat, length: nat)
    | Finish(id: nat)
    | Drop(id: nat)

  datatype Table<S> = Table(open: map<nat, S>, next: nat)

  /** What the surface gets: an id, bytes, null, or undefined. */
  datatype Reply = Id(id: nat) | Bytes(bytes: seq<Byte>) | NullReply | Undefined

  /** The part of a buffer a push names; None when there is no buffer, or no such part. */
  function BytesOf(buffer: Option<seq<Byte>>, offset: nat, length: nat): Option<seq<Byte>> {
    if buffer.Some? && offset + length <= |buffer.value| then Some(buffer.value[offset..offset + length]) else None
  }

  class CodecTable<S> {
    const family: Family<S>
    var open: map<nat, S>
    var next: nat
    ghost var log: seq<Request>

    ghost predicate Valid()
      reads this
    {
      Table(open, next) == TableAfter(family, log)
    }

    constructor (family: Family<S>)
      ensures Valid() && log == [] && this.family == family
    {
      this.family := family;
      open, next, log := map[], 0, [];
    }

    method Start(format: string, decompress: bool) returns (r: Reply)
      requires Valid()
      modifies this
      ensures Valid() && log == old(log) + [Request.Start(format, decompress)]
      ensures r == ReplyTo(family, TableAfter(family, old(log)), Request.Start(format, decompress))
    {
      hide TableAfter;
      TableAfterOne(family, log, Request.Start(format, decompress));
      log := log + [Request.Start(format, decompress)];

      match family.open(format, decompress) {
        case None => return NullReply;
        case Some(codec) =>
          var id := next + 1;
          next := id;
          open := open[id := codec];
          return Id(id);
      }
    }

    method Push(id: nat, buffer: Option<seq<Byte>>, offset: nat, length: nat) returns (r: Reply)
      requires Valid()
      modifies this
      ensures Valid() && log == old(log) + [Request.Push(id, buffer, offset, length)]
      ensures r == ReplyTo(family, TableAfter(family, old(log)), Request.Push(id, buffer, offset, length))
    {
      hide TableAfter;
      TableAfterOne(family, log, Request.Push(id, buffer, offset, length));
      log := log + [Request.Push(id, buffer, offset, length)];

      match BytesOf(buffer, offset, length) {
        case None => return NullReply;
        case Some(input) =>
          if id !in open {
            return NullReply;
          }

          match family.push(open[id], input) {
            case Some((codec, out)) =>
              open := open[id := codec];
              return Bytes(out);
            case None =>
              // A failure closes the stream.
              open := open - {id};
              return NullReply;
          }
      }
    }

    method Finish(id: nat) returns (r: Reply)
      requires Valid()
      modifies this
      ensures Valid() && log == old(log) + [Request.Finish(id)]
      ensures r == ReplyTo(family, TableAfter(family, old(log)), Request.Finish(id))
    {
      hide TableAfter;
      TableAfterOne(family, log, Request.Finish(id));
      log := log + [Request.Finish(id)];
      r := NullReply;

      if id in open {
        match family.finish(open[id]) {
          case Some(out) => r := Bytes(out);
          case None =>
        }
      }

      open := open - {id};
    }

    method Drop(id: nat) returns (r: Reply)
      requires Valid()
      modifies this
      ensures Valid() && log == old(log) + [Request.Drop(id)] && r == Undefined
    {
      hide TableAfter;
      TableAfterOne(family, log, Request.Drop(id));
      log := log + [Request.Drop(id)];
      open := open - {id};
      r := Undefined;
    }
  }

  function Next<S>(f: Family<S>, t: Table<S>, q: Request): Table<S> {
    match q
    case Start(format, decompress) =>
      var codec := f.open(format, decompress);
      if codec.Some? then Table(t.open[t.next + 1 := codec.value], t.next + 1) else t
    case Push(id, buffer, offset, length) =>
      var input := BytesOf(buffer, offset, length);
      if input.None? || id !in t.open then t
      else
        var pushed := f.push(t.open[id], input.value);
        t.(open := if pushed.Some? then t.open[id := pushed.value.0] else t.open - {id})
    case Finish(id) => t.(open := t.open - {id})
    case Drop(id) => t.(open := t.open - {id})
  }

  function ReplyTo<S>(f: Family<S>, t: Table<S>, q: Request): Reply {
    match q
    case Start(format, decompress) => if f.open(format, decompress).Some? then Id(t.next + 1) else NullReply
    case Push(id, buffer, offset, length) =>
      var input := BytesOf(buffer, offset, length);
      if input.None? || id !in t.open || f.push(t.open[id], input.value).None? then NullReply
      else Bytes(f.push(t.open[id], input.value).value.1)
    case Finish(id) =>
      if id !in t.open || f.finish(t.open[id]).None? then NullReply else Bytes(f.finish(t.open[id]).value)
    case Drop(_) => Undefined
  }

  function TableAfter<S>(f: Family<S>, log: seq<Request>): Table<S> {
    if log == [] then Table(map[], 0) else Next(f, TableAfter(f, log[..|log| - 1]), log[|log| - 1])
  }

  lemma TableAfterOne<S>(f: Family<S>, log: seq<Request>, q: Request)
    ensures TableAfter(f, log + [q]) == Next(f, TableAfter(f, log), q)
  {
    assert (log + [q])[..|log|] == log;
  }

  /** The life of one codec on its own: opened, fed, and at some point gone for good. */
  datatype Life<S> = Unborn | Alive(codec: S) | Gone

  predicate Concerns(q: Request, id: nat) {
    !q.Start? && q.id == id
  }

  function Live<S>(f: Family<S>, life: Life<S>, q: Request): Life<S> {
    if !life.Alive? then life
    else
      match q
      case Push(_, buffer, offset, length) =>
        var input := BytesOf(buffer, offset, length);
        if input.None? then life
        else
          var pushed := f.push(life.codec, input.value);
          if pushed.Some? then Alive(pushed.value.0) else Gone
      case Finish(_) => Gone
      case Drop(_) => Gone
      case Start(_, _) => life
  }

  /** How many codecs have been opened. */
  function Opened<S>(f: Family<S>, log: seq<Request>): nat {
    if log == [] then 0
    else
      var q := log[|log| - 1];
      Opened(f, log[..|log| - 1]) + (if q.Start? && f.open(q.format, q.decompress).Some? then 1 else 0)
  }

  /**
    Codec number `id` read off the log by itself: born with the id-th start that
    succeeds, and after that moved only by the requests that name it.
   */
  function LifeOf<S>(f: Family<S>, log: seq<Request>, id: nat): Life<S> {
    if log == [] then Unborn
    else
      var past, q := log[..|log| - 1], log[|log| - 1];
      if q.Start? && f.open(q.format, q.decompress).Some? && Opened(f, log) == id then
        Alive(f.open(q.format, q.decompress).value)
      else if Concerns(q, id) then Live(f, LifeOf(f, past, id), q)
      else LifeOf(f, past, id)
  }

  /**
    Isolation: whatever the interleaving, the table holds for each id exactly
    the codec that saw its own requests and no others; ids count up and are
    never reused.
   */
  lemma {:induction false} TableIsItsLives<S>(f: Family<S>, log: seq<Request>, id: nat)
    ensures TableAfter(f, log).next == Opened(f, log)
    ensures id in TableAfter(f, log).open <==> LifeOf(f, log, id).Alive?
    ensures id in TableAfter(f, log).open ==> TableAfter(f, log).open[id] == LifeOf(f, log, id).codec
    ensures LifeOf(f, log, id).Unborn? <==> id == 0 || Opened(f, log) < id
  {
    if log != [] {
      TableIsItsLives(f, log[..|log| - 1], id);
    }
  }

  /** A codec that was finished, dropped, or failed stays dead: its id answers null from then on. */
  lemma {:induction false} GoneStaysGone<S>(f: Family<S>, log: seq<Request>, k: nat, id: nat)
    requires k <= |log| && LifeOf(f, log[..k], id).Gone?
    ensures LifeOf(f, log, id).Gone?
  {
    if k == |log| {
      assert log[..k] == log;
    } else {
      var past := log[..|log| - 1];
      assert past[..k] == log[..k];
      GoneStaysGone(f, past, k, id);
      TableIsItsLives(f, past, id);
    }
  }

  lemma DeadIdsAnswerNull<S>(f: Family<S>, log: seq<Request>, k: nat, q: Request)
    requires k <= |log| && (q.Push? || q.Finish?) && LifeOf(f, log[..k], q.id).Gone?
    ensures ReplyTo(f, TableAfter(f, log), q) == NullReply
  {
    GoneStaysGone(f, log, k, q.id);
    TableIsItsLives(f, log, q.id);
  }

  /** What a request feeds to stream `id`: one input, or none. */
  function Fed(q: Request, id: nat): seq<seq<Byte>> {
    if q.Push? && q.id == id && BytesOf(q.buffer, q.offset, q.length).Some?
    then [BytesOf(q.buffer, q.offset, q.length).value]
    else []
  }

  predicate IsBirth<S>(f: Family<S>, log: seq<Request>, id: nat)
    requires log != []
  {
    var q := log[|log| - 1];
    q.Start? && f.open(q.format, q.decompress).Some? && Opened(f, log) == id
  }

  /** The start that gave out `id`. */
  function Birth<S>(f: Family<S>, log: seq<Request>, id: nat): Option<Request> {
    if log == [] then None
    else if IsBirth(f, log, id) then Some(log[|log| - 1])
    else Birth(f, log[..|log| - 1], id)
  }

  /** The inputs pushed to an id since it was given out, in order. */
  function Inputs<S>(f: Family<S>, log: seq<Request>, id: nat): seq<seq<Byte>> {
    if log == [] || IsBirth(f, log, id) then []
    else Inputs(f, log[..|log| - 1], id) + Fed(log[|log| - 1], id)
  }

  /** A codec on its own, fed one input after the other; None once it has failed. */
  function Feed<S>(f: Family<S>, codec: S, inputs: seq<seq<Byte>>): Option<S> {
    if inputs == [] then Some(codec)
    else
      match Feed(f, codec, Past(inputs))
      case None => None
      case Some(fed) =>
        var pushed := f.push(fed, Last(inputs));
        if pushed.Some? then Some(pushed.value.0) else None
  }

  lemma FeedOne<S>(f: Family<S>, codec: S, inputs: seq<seq<Byte>>, input: seq<Byte>)
    requires Feed(f, codec, inputs).Some? && f.push(Feed(f, codec, inputs).value, input).Some?
    ensures Feed(f, codec, inputs + [input]) == Some(f.push(Feed(f, codec, inputs).value, input).value.0)
  {
    assert Past(inputs + [input]) == inputs;
  }

  /**
    The codec of an open id is the one its start asked for, fed that id's own
    inputs and nothing else, each as it was pushed, however the requests of
    other streams fall between them.
   */
  lemma CodecSeesItsOwnPushes<S>(f: Family<S>, log: seq<Request>, id: nat)
    requires id in TableAfter(f, log).open
    ensures Birth(f, log, id).Some? && OpenedBy(f, Birth(f, log, id).value).Some?
    ensures Feed(f, OpenedBy(f, Birth(f, log, id).value).value, Inputs(f, log, id)) == Some(TableAfter(f, log).open[id])
  {
    TableIsItsLives(f, log, id);
    LifeIsFed(f, log, id);
  }

  function OpenedBy<S>(f: Family<S>, q: Request): Option<S> {
    if q.Start? then f.open(q.format, q.decompress) else None
  }

  lemma {:induction false} LifeIsFed<S>(f: Family<S>, log: seq<Request>, id: nat)
    requires LifeOf(f, log, id).Alive?
    ensures Birth(f, log, id).Some? && OpenedBy(f, Birth(f, log, id).value).Some?
    ensures Feed(f, OpenedBy(f, Birth(f, log, id).value).value, Inputs(f, log, id)) == Some(LifeOf(f, log, id).codec)
  {
    var past, q := log[..|log| - 1], log[|log| - 1];
    if !IsBirth(f, log, id) {
      LifeIsFed(f, past, id);
      var codec, inputs := OpenedBy(f, Birth(f, past, id).value).value, Inputs(f, past, id);
      if Fed(q, id) == [] {
        assert inputs + [] == inputs;
      } else {
        FeedOne(f, codec, inputs, Fed(q, id)[0]);
      }
    }
  }

  /** What a codec on its own answers to a request. */
  function AloneReply<S>(f: Family<S>, codec: S, q: Request): Reply
    requires !q.Start?
  {
    match q
    case Push(_, buffer, offset, length) =>
      var input := BytesOf(buffer, offset, length);
      if input.None? || f.push(codec, input.value).None? then NullReply else Bytes(f.push(codec, input.value).value.1)
    case Finish(_) => if f.finish(codec).None? then NullReply else Bytes(f.finish(codec).value)
    case Drop(_) => Undefined
  }

  /** What the pushes of an id were answered with since it was given out, in order. */
  function Replies<S>(f: Family<S>, log: seq<Request>, id: nat): seq<Reply> {
    if log == [] || IsBirth(f, log, id) then []
    else
      var past, q := log[..|log| - 1], log[|log| - 1];
      Replies(f, past, id) + (if Fed(q, id) == [] then [] else [ReplyTo(f, TableAfter(f, past), q)])
  }

  /** What a codec on its own puts out for one input after the other. */
  function Outputs<S>(f: Family<S>, codec: S, inputs: seq<seq<Byte>>): seq<Reply>
    requires Feed(f, codec, inputs).Some?
  {
    if inputs == [] then []
    else Outputs(f, codec, Past(inputs)) + [Bytes(f.push(Feed(f, codec, Past(inputs)).value, Last(inputs)).value.1)]
  }

  /**
    Isolation as the guest sees it: what an open id has been answered is what
    its codec puts out for its own inputs alone, and so is what the next request
    to it will be answered, be it a push, the finish, or one that fails.
   */
  lemma RepliesAreItsOwn<S>(f: Family<S>, log: seq<Request>, q: Request)
    requires !q.Start? && q.id in TableAfter(f, log).open
    ensures Birth(f, log, q.id).Some? && OpenedBy(f, Birth(f, log, q.id).value).Some?
    ensures Feed(f, OpenedBy(f, Birth(f, log, q.id).value).value, Inputs(f, log, q.id)).Some?
    ensures Replies(f, log, q.id) == Outputs(f, OpenedBy(f, Birth(f, log, q.id).value).value, Inputs(f, log, q.id))
    ensures ReplyTo(f, TableAfter(f, log), q)
         == AloneReply(f, Feed(f, OpenedBy(f, Birth(f, log, q.id).value).value, Inputs(f, log, q.id)).value, q)
  {
    CodecSeesItsOwnPushes(f, log, q.id);
    TableIsItsLives(f, log, q.id);
    RepliesAreOutputs(f, log, q.id);
  }

  lemma {:induction false} RepliesAreOutputs<S>(f: Family<S>, log: seq<Request>, id: nat)
    requires LifeOf(f, log, id).Alive?
    ensures Birth(f, log, id).Some? && OpenedBy(f, Birth(f, log, id).value).Some?
    ensures Feed(f, OpenedBy(f, Birth(f, log, id).value).value, Inputs(f, log, id)).Some?
    ensures Replies(f, log, id) == Outputs(f, OpenedBy(f, Birth(f, log, id).value).value, Inputs(f, log, id))
  {
    LifeIsFed(f, log, id);
    var past, q := log[..|log| - 1], log[|log| - 1];
    if !IsBirth(f, log, id) {
      RepliesAreOutputs(f, past, id);
      LifeIsFed(f, past, id);
      TableIsItsLives(f, past, id);
      var inputs := Inputs(f, past, id);
      if Fed(q, id) == [] {
        assert inputs + [] == inputs && Replies(f, past, id) + [] == Replies(f, past, id);
      } else {
        assert Past(inputs + Fed(q, id)) == inputs && Last(inputs + Fed(q, id)) == Fed(q, id)[0];
      }
    }
  }

  /** The codec a request opens, after it has read some bytes. */
  type Reading<!S> = (string, bool, seq<Byte>) -> S

  /** Codecs for which only the bytes count, not where they were cut. */
  ghost predicate IsStream<S(!new)>(f: Family<S>, state: Reading<S>) {
    && (forall format, decompress :: f.open(format, decompress).Some?
          ==> f.open(format, decompress).value == state(format, decompress, []))
    && (forall format, decompress, seen: seq<Byte>, more: seq<Byte> :: f.push(state(format, decompress, seen), more).Some?
          ==> f.push(state(format, decompress, seen), more).value.0 == state(format, decompress, seen + more))
  }

  /** For those, an open codec is where the concatenation of its own pushes leads. */
  lemma CodecSeesItsOwnBytes<S(!new)>(f: Family<S>, state: Reading<S>, log: seq<Request>, id: nat)
    requires IsStream(f, state) && id in TableAfter(f, log).open
    ensures Birth(f, log, id).Some? && Birth(f, log, id).value.Start?
    ensures TableAfter(f, log).open[id]
         == state(Birth(f, log, id).value.format, Birth(f, log, id).value.decompress, Join(Inputs(f, log, id)))
  {
    hide IsStream;
    CodecSeesItsOwnPushes(f, log, id);
    FedIsReading(f, state, Birth(f, log, id).value, Inputs(f, log, id));
  }

  lemma {:induction false} FedIsReading<S(!new)>(f: Family<S>, state: Reading<S>, birth: Request, inputs: seq<seq<Byte>>)
    requires IsStream(f, state) && OpenedBy(f, birth).Some?
    ensures Feed(f, OpenedBy(f, birth).value, inputs).Some?
        ==> Feed(f, OpenedBy(f, birth).value, inputs).value == state(birth.format, birth.decompress, Join(inputs))
  {
    if inputs != [] {
      FedIsReading(f, state, birth, Past(inputs));
      JoinSnoc(Past(inputs), Last(inputs));
      assert Past(inputs) + [Last(inputs)] == inputs;
    }
  }

  /** What a request carries: the named bytes, one by one from the offset, or nothing when they are not all there. */
  lemma FedByteByByte(q: Request, id: nat)
    ensures Fed(q, id) != [] <==> q.Push? && q.id == id && q.buffer.Some? && q.offset + q.length <= |q.buffer.value|
    ensures Fed(q, id) != [] ==> Fed(q, id) == [Fed(q, id)[0]] && |Fed(q, id)[0]| == q.length
    ensures Fed(q, id) != [] ==> forall k :: 0 <= k < q.length ==> Fed(q, id)[0][k] == q.buffer.value[q.offset + k]
  {
  }

  /**
    A start answers an id exactly when the codec opens, and the id it answers is
    new, names that codec from then on, and changes nothing for the others.
   */
  lemma StartSays<S>(f: Family<S>, log: seq<Request>, q: Request)
    requires q.Start?
    ensures ReplyTo(f, TableAfter(f, log), q).Id? <==> f.open(q.format, q.decompress).Some?
    ensures !ReplyTo(f, TableAfter(f, log), q).Id?
        ==> ReplyTo(f, TableAfter(f, log), q) == NullReply && TableAfter(f, log + [q]) == TableAfter(f, log)
    ensures ReplyTo(f, TableAfter(f, log), q).Id?
        ==> var id := ReplyTo(f, TableAfter(f, log), q).id;
            && LifeOf(f, log, id).Unborn? && id != 0
            && LifeOf(f, log + [q], id) == Alive(f.open(q.format, q.decompress).value)
            && TableAfter(f, log + [q]).open == TableAfter(f, log).open[id := f.open(q.format, q.decompress).value]
  {
    TableAfterOne(f, log, q);
    TableIsItsLives(f, log, TableAfter(f, log).next + 1);
    TableIsItsLives(f, log + [q], TableAfter(f, log).next + 1);
  }

  /** A request that closes stream `id`: its finish, its drop, or a push its codec refuses. */
  predicate Closes<S>(f: Family<S>, codec: S, q: Request, id: nat) {
    && Concerns(q, id)
    && (q.Push? ==> Fed(q, id) != [] && f.push(codec, Fed(q, id)[0]).None?)
  }

  /** An open stream is closed by such a request and by no other. */
  lemma ClosesExactly<S>(f: Family<S>, log: seq<Request>, q: Request, id: nat)
    requires id in TableAfter(f, log).open
    ensures id !in TableAfter(f, log + [q]).open <==> Closes(f, TableAfter(f, log).open[id], q, id)
    ensures Closes(f, TableAfter(f, log).open[id], q, id) ==> LifeOf(f, log + [q], id).Gone?
  {
    TableAfterOne(f, log, q);
    TableIsItsLives(f, log, id);
    TableIsItsLives(f, log + [q], id);
  }

  /** What a request to a stream is answered: bytes, or null for one that is closed, refuses, or is fed nothing. */
  lemma RequestSays<S>(f: Family<S>, log: seq<Request>, q: Request)
    requires q.Push? || q.Finish?
    ensures q.id !in TableAfter(f, log).open
        ==> ReplyTo(f, TableAfter(f, log), q) == NullReply && TableAfter(f, log + [q]) == TableAfter(f, log)
    ensures q.id in TableAfter(f, log).open
        ==> forall bytes :: ReplyTo(f, TableAfter(f, log), q) == Bytes(bytes) <==> PutsOut(f, TableAfter(f, log).open[q.id], q, bytes)
    ensures ReplyTo(f, TableAfter(f, log), q) == NullReply || ReplyTo(f, TableAfter(f, log), q).Bytes?
  {
    TableAfterOne(f, log, q);
    if q.Finish? && q.id !in TableAfter(f, log).open {
      assert TableAfter(f, log).open - {q.id} == TableAfter(f, log).open;
    }
  }

  predicate PutsOut<S>(f: Family<S>, codec: S, q: Request, bytes: seq<Byte>)
    requires q.Push? || q.Finish?
  {
    if q.Finish? then f.finish(codec) == Some(bytes)
    else
      && Fed(q, q.id) != []
      && var pushed := f.push(codec, Fed(q, q.id)[0]);
         pushed.Some? && pushed.value.1 == bytes
  }
}
