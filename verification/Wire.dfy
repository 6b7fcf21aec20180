/**
  The wire form of guest values: the rewrite JSON.stringify makes through
  `wireJson`, which replaces lone surrogates in strings and in property names.
 */
module Wire {
  import opened Unicode

  type Text = seq<Unit>

  datatype Field = Field(key: Text, value: Json)

  /** A value JSON.stringify can write; an object is its own properties, in order. */
  datatype Json =
    | Null
    | Bool(b: bool)
    | Num(n: int)
    | Str(text: Text)
    | Arr(items: seq<Json>)
    | Obj(fields: seq<Field>)

  /** "__proto__": assigning it sets the prototype and makes no property. */
  const PROTO: Text := [0x5F, 0x5F, 0x70, 0x72, 0x6F, 0x74, 0x6F, 0x5F, 0x5F]

  function WireText(text: Text): Text {
    ToWellFormed(text)
  }

  /** `clean[key] = value` on a plain object. */
  function Assign(fields: seq<Field>, key: Text, value: Json): seq<Field> {
    if key == PROTO then fields
    else if fields == [] then [Field(key, value)]
    else if fields[0].key == key then [Field(key, value)] + fields[1..]
    else [fields[0]] + Assign(fields[1..], key, value)
  }

  /** The object built by assigning every property under its rewritten name, in order. */
  function Rebuild(fields: seq<Field>): seq<Field> {
    if fields == [] then []
    else
      var last := fields[|fields| - 1];
      Assign(Rebuild(fields[..|fields| - 1]), WireText(last.key), last.value)
  }

  /** The replacer, on one value: `wireJson`. */
  method WireJson(value: Json) returns (r: Json)
    ensures r == Replaced(value)
  {
    if value.Str? {
      return Str(WireText(value.text));
    }

    if !value.Obj? {
      return value;
    }

    var clean: seq<Field> := [];
    var i := 0;

    while i < |value.fields|
      invariant 0 <= i <= |value.fields| && clean == Rebuild(value.fields[..i])
    {
      assert value.fields[..i + 1][..i] == value.fields[..i];
      clean := Assign(clean, WireText(value.fields[i].key), value.fields[i].value);
      i := i + 1;
    }

    assert value.fields[..i] == value.fields;
    r := Obj(clean);
  }

  /** What the replacer makes of one value, before JSON.stringify descends into it. */
  function Replaced(value: Json): Json {
    match value
    case Str(text) => Str(WireText(text))
    case Obj(fields) => Obj(Rebuild(fields))
    case _ => value
  }

  function WireItems(items: seq<Json>): (r: seq<Json>)
    ensures |r| == |items|
    decreases items
  {
    if items == [] then [] else [Wire(items[0])] + WireItems(items[1..])
  }

  function WireFields(fields: seq<Field>): (r: seq<Field>)
    ensures |r| == |fields|
    decreases fields
  {
    if fields == [] then []
    else [Field(fields[0].key, Wire(fields[0].value))] + WireFields(fields[1..])
  }

  /** The whole rewrite; WireDescends says it is the replacer applied on the way down. */
  function Wire(value: Json): Json
    decreases value
  {
    match value
    case Str(text) => Str(WireText(text))
    case Arr(items) => Arr(WireItems(items))
    case Obj(fields) => Obj(Rebuild(WireFields(fields)))
    case _ => value
  }

  lemma {:induction false} AssignCommutes(fields: seq<Field>, key: Text, value: Json)
    ensures WireFields(Assign(fields, key, value)) == Assign(WireFields(fields), key, Wire(value))
  {
    if key != PROTO && fields != [] && fields[0].key != key {
      AssignCommutes(fields[1..], key, value);
      assert Assign(fields, key, value)[1..] == Assign(fields[1..], key, value);
    }
  }

  lemma {:induction false} WireFieldsSnoc(fields: seq<Field>, f: Field)
    ensures WireFields(fields + [f]) == WireFields(fields) + [Field(f.key, Wire(f.value))]
  {
    if fields == [] {
      assert fields + [f] == [f];
    } else {
      assert (fields + [f])[1..] == fields[1..] + [f];
      WireFieldsSnoc(fields[1..], f);
    }
  }

  lemma {:induction false} RebuildCommutes(fields: seq<Field>)
    ensures WireFields(Rebuild(fields)) == Rebuild(WireFields(fields))
  {
    if fields != [] {
      var init, last := fields[..|fields| - 1], fields[|fields| - 1];
      RebuildCommutes(init);
      AssignCommutes(Rebuild(init), WireText(last.key), last.value);
      assert fields == init + [last];
      WireFieldsSnoc(init, last);
      assert WireFields(fields)[..|fields| - 1] == WireFields(init);
    }
  }

  /** JSON.stringify replaces a value first and then descends into what it got. */
  lemma WireDescends(value: Json)
    ensures Wire(value)
         == match Replaced(value)
            case Arr(items) => Arr(WireItems(items))
            case Obj(fields) => Obj(WireFields(fields))
            case other => other
  {
    if value.Obj? {
      RebuildCommutes(value.fields);
    }
  }

  predicate HasKey(fields: seq<Field>, key: Text) {
    exists i :: 0 <= i < |fields| && fields[i].key == key
  }

  predicate Keyed(fields: seq<Field>) {
    && (forall i :: 0 <= i < |fields| ==> IsWellFormed(fields[i].key) && fields[i].key != PROTO)
    && (forall i, j :: 0 <= i < j < |fields| ==> fields[i].key != fields[j].key)
  }

  /** No lone surrogate in any string or name, and names that stand for themselves. */
  predicate IsClean(value: Json)
    decreases value
  {
    match value
    case Str(text) => IsWellFormed(text)
    case Arr(items) => forall i :: 0 <= i < |items| ==> IsClean(items[i])
    case Obj(fields) => Keyed(fields) && forall i :: 0 <= i < |fields| ==> IsClean(fields[i].value)
    case _ => true
  }

  lemma {:induction false} AssignKeys(fields: seq<Field>, key: Text, value: Json, k: Text)
    ensures HasKey(Assign(fields, key, value), k) <==> HasKey(fields, k) || (key != PROTO && k == key)
  {
    if key != PROTO {
      if fields == [] {
        assert Assign(fields, key, value)[0].key == key;
      } else {
        var r := Assign(fields, key, value);
        HeadOrTail(fields, k);
        HeadOrTail(r, k);
        if fields[0].key == key {
          assert r[1..] == fields[1..];
        } else {
          AssignKeys(fields[1..], key, value, k);
          assert r[1..] == Assign(fields[1..], key, value);
        }
      }
    }
  }

  lemma HeadOrTail(fields: seq<Field>, k: Text)
    requires fields != []
    ensures HasKey(fields, k) <==> fields[0].key == k || HasKey(fields[1..], k)
  {
    if HasKey(fields[1..], k) {
      var i :| 0 <= i < |fields[1..]| && fields[1..][i].key == k;
      assert fields[i + 1].key == k;
    }
    if HasKey(fields, k) && fields[0].key != k {
      var i :| 0 <= i < |fields| && fields[i].key == k;
      assert fields[1..][i - 1].key == k;
    }
  }

  lemma ConsKeyed(f: Field, rest: seq<Field>)
    requires Keyed(rest) && IsWellFormed(f.key) && f.key != PROTO && !HasKey(rest, f.key)
    ensures Keyed([f] + rest)
  {
    hide IsWellFormed;
  }

  lemma TailKeyed(fields: seq<Field>)
    requires Keyed(fields) && fields != []
    ensures Keyed(fields[1..]) && !HasKey(fields[1..], fields[0].key)
    ensures IsWellFormed(fields[0].key) && fields[0].key != PROTO
  {
    hide IsWellFormed;
  }

  lemma {:induction false} AssignKeyed(fields: seq<Field>, key: Text, value: Json)
    requires Keyed(fields) && IsWellFormed(key)
    ensures Keyed(Assign(fields, key, value))
  {
    hide IsWellFormed;
    hide Keyed;
    hide HasKey;
    if key != PROTO && fields == [] {
      NoKeys();
      ConsKeyed(Field(key, value), []);
      assert [Field(key, value)] + [] == [Field(key, value)];
    } else if key != PROTO {
      TailKeyed(fields);
      var rest := if fields[0].key == key then fields[1..] else Assign(fields[1..], key, value);
      if fields[0].key != key {
        AssignKeyed(fields[1..], key, value);
        AssignKeys(fields[1..], key, value, fields[0].key);
      }
      ConsKeyed(Field(fields[0].key, if fields[0].key == key then value else fields[0].value), rest);
    }
  }

  lemma NoKeys()
    ensures Keyed([]) && forall k :: !HasKey([], k)
  {
  }

  lemma {:induction false} RebuildKeyed(fields: seq<Field>)
    ensures Keyed(Rebuild(fields))
  {
    if fields != [] {
      var last := fields[|fields| - 1];
      RebuildKeyed(fields[..|fields| - 1]);
      ToWellFormedIsWellFormed(WireText(last.key));
      ToWellFormedIsWellFormed(last.key);
      AssignKeyed(Rebuild(fields[..|fields| - 1]), WireText(last.key), last.value);
    }
  }

  /** The names on the wire are the images of the names that were there, all but `__proto__`. */
  lemma {:induction false} NamesAreImages(fields: seq<Field>, k: Text)
    ensures HasKey(Rebuild(fields), k)
       <==> exists i :: 0 <= i < |fields| && WireText(fields[i].key) == k && k != PROTO
  {
    if fields != [] {
      var init, last := fields[..|fields| - 1], fields[|fields| - 1];
      NamesAreImages(init, k);
      AssignKeys(Rebuild(init), WireText(last.key), last.value, k);
      assert forall i :: 0 <= i < |init| ==> init[i] == fields[i];
      if i :| 0 <= i < |fields| && WireText(fields[i].key) == k && k != PROTO {
        if i < |init| {
          assert WireText(init[i].key) == k;
        }
      }
    }
  }

  predicate AllClean(fields: seq<Field>) {
    forall i :: 0 <= i < |fields| ==> IsClean(fields[i].value)
  }

  lemma {:induction false} AssignClean(fields: seq<Field>, key: Text, value: Json)
    requires AllClean(fields) && IsClean(value)
    ensures AllClean(Assign(fields, key, value))
  {
    if key != PROTO && fields != [] && fields[0].key != key {
      AssignClean(fields[1..], key, value);
    }
  }

  lemma {:induction false} RebuildClean(fields: seq<Field>)
    requires AllClean(fields)
    ensures AllClean(Rebuild(fields))
  {
    if fields != [] {
      RebuildClean(fields[..|fields| - 1]);
      AssignClean(Rebuild(fields[..|fields| - 1]), WireText(fields[|fields| - 1].key), fields[|fields| - 1].value);
    }
  }

  /** Whatever the guest returns, no lone surrogate reaches the host's JSON parser, at any depth. */
  lemma {:induction false} WireIsClean(value: Json)
    ensures IsClean(Wire(value))
    decreases value, 1
  {
    match value {
      case Str(text) => ToWellFormedIsWellFormed(text);
      case Arr(items) => WireItemsAreClean(items);
      case Obj(fields) =>
        WireFieldsAreClean(fields);
        RebuildClean(WireFields(fields));
        RebuildKeyed(WireFields(fields));
      case _ =>
    }
  }

  lemma {:induction false} WireItemsAreClean(items: seq<Json>)
    ensures forall i :: 0 <= i < |items| ==> IsClean(WireItems(items)[i])
    decreases items, 0
  {
    if items != [] {
      WireIsClean(items[0]);
      WireItemsAreClean(items[1..]);
    }
  }

  lemma {:induction false} WireFieldsAreClean(fields: seq<Field>)
    ensures AllClean(WireFields(fields))
    decreases fields, 0
  {
    if fields != [] {
      WireIsClean(fields[0].value);
      WireFieldsAreClean(fields[1..]);
    }
  }

  lemma {:induction false} AssignFresh(fields: seq<Field>, key: Text, value: Json)
    requires key != PROTO && !HasKey(fields, key)
    ensures Assign(fields, key, value) == fields + [Field(key, value)]
  {
    if fields != [] {
      assert fields[0].key != key;
      HeadOrTail(fields, key);
      AssignFresh(fields[1..], key, value);
    }
  }

  lemma InitKeyed(fields: seq<Field>)
    requires Keyed(fields) && fields != []
    ensures Keyed(fields[..|fields| - 1]) && !HasKey(fields[..|fields| - 1], fields[|fields| - 1].key)
    ensures IsWellFormed(fields[|fields| - 1].key) && fields[|fields| - 1].key != PROTO
  {
    hide IsWellFormed;
  }

  lemma {:induction false} RebuildKeeps(fields: seq<Field>)
    requires Keyed(fields)
    ensures Rebuild(fields) == fields
  {
    hide IsWellFormed;
    hide Keyed;
    hide HasKey;
    hide Assign;
    if fields != [] {
      var init, last := fields[..|fields| - 1], fields[|fields| - 1];
      InitKeyed(fields);
      RebuildKeeps(init);
      ToWellFormedIsWellFormed(last.key);
      AssignFresh(init, last.key, last.value);
    }
  }

  /** A clean value is left alone. */
  lemma {:induction false} WireKeepsClean(value: Json)
    requires IsClean(value)
    ensures Wire(value) == value
    decreases value, 1
  {
    match value {
      case Str(text) => ToWellFormedIsWellFormed(text);
      case Arr(items) => WireKeepsItems(items);
      case Obj(fields) =>
        WireKeepsFields(fields);
        RebuildKeeps(fields);
      case _ =>
    }
  }

  lemma {:induction false} WireKeepsItems(items: seq<Json>)
    requires forall i :: 0 <= i < |items| ==> IsClean(items[i])
    ensures WireItems(items) == items
    decreases items, 0
  {
    if items != [] {
      assert IsClean(items[0]);
      WireKeepsClean(items[0]);
      WireKeepsItems(items[1..]);
    }
  }

  lemma {:induction false} WireKeepsFields(fields: seq<Field>)
    requires AllClean(fields)
    ensures WireFields(fields) == fields
    decreases fields, 0
  {
    if fields != [] {
      assert IsClean(fields[0].value);
      WireKeepsClean(fields[0].value);
      WireKeepsFields(fields[1..]);
    }
  }

  /** The rewrite leaves a value alone exactly when it is clean, so doing it twice is doing it once. */
  lemma WireIsIdempotent(value: Json)
    ensures Wire(value) == value <==> IsClean(value)
    ensures Wire(Wire(value)) == Wire(value)
  {
    WireIsClean(value);
    WireKeepsClean(Wire(value));
    if IsClean(value) {
      WireKeepsClean(value);
    }
  }

  /** The value the last property of that rewritten name had, if any. */
  function LastImage(fields: seq<Field>, k: Text): seq<Json> {
    if fields == [] then []
    else if WireText(fields[|fields| - 1].key) == k then [fields[|fields| - 1].value]
    else LastImage(fields[..|fields| - 1], k)
  }

  function Lookup(fields: seq<Field>, k: Text): seq<Json> {
    if fields == [] then [] else if fields[0].key == k then [fields[0].value] else Lookup(fields[1..], k)
  }

  lemma {:induction false} AssignLookup(fields: seq<Field>, key: Text, value: Json, k: Text)
    requires key != PROTO
    ensures Lookup(Assign(fields, key, value), k) == if k == key then [value] else Lookup(fields, k)
  {
    if fields != [] && fields[0].key != key {
      AssignLookup(fields[1..], key, value, k);
      assert Assign(fields, key, value)[1..] == Assign(fields[1..], key, value);
    } else if fields != [] {
      assert Assign(fields, key, value)[1..] == fields[1..];
    }
  }

  /** Two names that collide on the wire: the later property wins. */
  lemma {:induction false} LaterNameWins(fields: seq<Field>, k: Text)
    requires k != PROTO
    ensures Lookup(Rebuild(fields), k) == LastImage(fields, k)
  {
    if fields != [] {
      var init, last := fields[..|fields| - 1], fields[|fields| - 1];
      LaterNameWins(init, k);
      if WireText(last.key) != PROTO {
        AssignLookup(Rebuild(init), WireText(last.key), last.value, k);
      }
    }
  }

  /** The names a list of properties ends up with: the first of each, in order, without `__proto__`. */
  function Firsts(keys: seq<Text>): seq<Text> {
    if keys == [] then []
    else
      var rest, last := Firsts(keys[..|keys| - 1]), keys[|keys| - 1];
      if last == PROTO || last in rest then rest else rest + [last]
  }

  function Names(fields: seq<Field>): (r: seq<Text>)
    ensures |r| == |fields|
    ensures forall i :: 0 <= i < |fields| ==> r[i] == fields[i].key
  {
    if fields == [] then [] else [fields[0].key] + Names(fields[1..])
  }

  function Images(fields: seq<Field>): (r: seq<Text>)
    ensures |r| == |fields|
    ensures forall i :: 0 <= i < |fields| ==> r[i] == WireText(fields[i].key)
  {
    seq(|fields|, i requires 0 <= i < |fields| => WireText(fields[i].key))
  }

  lemma {:induction false} AssignNames(fields: seq<Field>, key: Text, value: Json)
    ensures Names(Assign(fields, key, value))
         == if key == PROTO || key in Names(fields) then Names(fields) else Names(fields) + [key]
  {
    if key != PROTO {
      if fields == [] {
        NamesCons(Field(key, value), []);
        assert [Field(key, value)] + [] == [Field(key, value)];
      } else if fields[0].key == key {
        NamesCons(Field(key, value), fields[1..]);
      } else {
        AssignNames(fields[1..], key, value);
        NamesCons(fields[0], Assign(fields[1..], key, value));
      }
    }
  }

  lemma NamesCons(f: Field, rest: seq<Field>)
    ensures Names([f] + rest) == [f.key] + Names(rest)
  {
  }

  /** The names on the wire, in the order in which the names they stand for come first. */
  lemma {:induction false} NamesKeepOrder(fields: seq<Field>)
    ensures Names(Rebuild(fields)) == Firsts(Images(fields))
  {
    if fields != [] {
      var init, last := fields[..|fields| - 1], fields[|fields| - 1];
      NamesKeepOrder(init);
      AssignNames(Rebuild(init), WireText(last.key), last.value);
      assert Images(fields)[..|fields| - 1] == Images(init);
    }
  }

  /** Unit by unit: each surrogate that stands alone has become U+FFFD, and nothing else has changed. */
  predicate IsRepaired(text: Text, r: Text) {
    |r| == |text| && forall i :: 0 <= i < |text| ==> r[i] == if IsAlone(text, i) then 0xFFFD else text[i]
  }

  lemma WireTextSays(text: Text)
    ensures IsRepaired(text, WireText(text))
  {
    forall i | 0 <= i < |text|
      ensures WireText(text)[i] == if IsAlone(text, i) then 0xFFFD else text[i]
    {
      ToWellFormedSays(text, i);
    }
  }

  /** Property `i` is the last of those whose name has the image `k`. */
  predicate IsLastOf(fields: seq<Field>, k: Text, i: nat) {
    i < |fields| && WireText(fields[i].key) == k && forall j :: i < j < |fields| ==> WireText(fields[j].key) != k
  }

  /** What the wire form of a value is, without saying how it is made. */
  predicate IsWireOf(value: Json, r: Json)
    decreases value
  {
    match value
    case Str(text) => r.Str? && IsRepaired(text, r.text)
    case Arr(items) => r.Arr? && |r.items| == |items| && forall i :: 0 <= i < |items| ==> IsWireOf(items[i], r.items[i])
    case Obj(fields) =>
      && r.Obj?
      && Names(r.fields) == Firsts(Images(fields))
      && forall i, j :: 0 <= i < |fields| && 0 <= j < |r.fields| && IsLastOf(fields, r.fields[j].key, i)
                 ==> IsWireOf(fields[i].value, r.fields[j].value)
    case _ => r == value
  }

  lemma {:induction false} WireItemsAt(items: seq<Json>, i: nat)
    requires i < |items|
    ensures WireItems(items)[i] == Wire(items[i])
  {
    if i > 0 {
      WireItemsAt(items[1..], i - 1);
    }
  }

  lemma {:induction false} WireFieldsAt(fields: seq<Field>, i: nat)
    requires i < |fields|
    ensures WireFields(fields)[i] == Field(fields[i].key, Wire(fields[i].value))
  {
    if i > 0 {
      WireFieldsAt(fields[1..], i - 1);
    }
  }

  lemma {:induction false} LastImageAt(fields: seq<Field>, k: Text, i: nat)
    requires IsLastOf(fields, k, i)
    ensures LastImage(fields, k) == [fields[i].value]
  {
    if i < |fields| - 1 {
      LastImageAt(fields[..|fields| - 1], k, i);
    }
  }

  lemma {:induction false} LookupAt(fields: seq<Field>, j: nat)
    requires j < |fields| && forall i, k :: 0 <= i < k < |fields| ==> fields[i].key != fields[k].key
    ensures Lookup(fields, fields[j].key) == [fields[j].value]
  {
    if j > 0 {
      LookupAt(fields[1..], j - 1);
    }
  }

  lemma ObjectSays(fields: seq<Field>, i: nat, j: nat)
    requires j < |Rebuild(WireFields(fields))| && IsLastOf(fields, Rebuild(WireFields(fields))[j].key, i)
    ensures Rebuild(WireFields(fields))[j].value == Wire(fields[i].value)
  {
    hide IsWellFormed;
    hide Rebuild;
    hide Wire;
    var wired := WireFields(fields);
    var r := Rebuild(wired);
    var k := r[j].key;
    RebuildKeyed(wired);
    forall n | 0 <= n < |fields|
      ensures wired[n] == Field(fields[n].key, Wire(fields[n].value))
    {
      WireFieldsAt(fields, n);
    }
    LookupAt(r, j);
    LaterNameWins(wired, k);
    LastImageAt(wired, k, i);
  }

  /** The rewrite is that wire form, at every depth. */
  lemma {:induction false} WireSays(value: Json)
    ensures IsWireOf(value, Wire(value))
    decreases value
  {
    match value {
      case Str(text) => WireTextSays(text);
      case Arr(items) =>
        forall i | 0 <= i < |items|
          ensures IsWireOf(items[i], WireItems(items)[i])
        {
          WireItemsAt(items, i);
          WireSays(items[i]);
        }
      case Obj(fields) =>
        var r := Rebuild(WireFields(fields));
        NamesKeepOrder(WireFields(fields));
        SameImages(fields);
        forall i, j | 0 <= i < |fields| && 0 <= j < |r| && IsLastOf(fields, r[j].key, i)
          ensures IsWireOf(fields[i].value, r[j].value)
        {
          ObjectSays(fields, i, j);
          WireSays(fields[i].value);
        }
      case _ =>
    }
  }

  lemma SameImages(fields: seq<Field>)
    ensures Images(WireFields(fields)) == Images(fields)
  {
    forall i | 0 <= i < |fields|
      ensures WireFields(fields)[i].key == fields[i].key
    {
      WireFieldsAt(fields, i);
    }
  }
}
