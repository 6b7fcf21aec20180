/** Sequences: read from the end, as logs are, and joined. */
module Sequences {
  function Last<T>(s: seq<T>): T
    requires s != []
  {
    s[|s| - 1]
  }

  function Past<T>(s: seq<T>): seq<T>
    requires s != []
  {
    s[..|s| - 1]
  }

  function Join<T>(s: seq<seq<T>>): seq<T> {
    if s == [] then [] else s[0] + Join(s[1..])
  }

  lemma {:induction false} JoinSnoc<T>(s: seq<seq<T>>, last: seq<T>)
    ensures Join(s + [last]) == Join(s) + last
  {
    if s == [] {
      assert s + [last] == [last] && Join([last][1..]) == [];
    } else {
      assert (s + [last])[1..] == s[1..] + [last];
      JoinSnoc(s[1..], last);
      Assoc(s[0], Join(s[1..]), last);
    }
  }

  lemma Assoc<T>(r: seq<T>, s: seq<T>, t: seq<T>)
    ensures r + (s + t) == (r + s) + t
  {
  }

  lemma LastOfCons<T>(x: T, s: seq<T>)
    requires s != []
    ensures Last([x] + s) == Last(s) && Past([x] + s) == [x] + Past(s)
  {
  }
}
