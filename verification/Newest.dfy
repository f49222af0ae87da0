// Newest-first ordering by a timestamp key.
module Newest {
  ghost predicate Ordered<T(!new)>(s: seq<T>, at: T -> int) {
    forall i, j :: 0 <= i < j < |s| ==> at(s[i]) >= at(s[j])
  }

  function Insert<T>(x: T, s: seq<T>, at: T -> int): seq<T> {
    if s == [] || at(x) >= at(s[0]) then [x] + s else [s[0]] + Insert(x, s[1..], at)
  }

  function Sort<T>(s: seq<T>, at: T -> int): seq<T> {
    if s == [] then [] else Insert(s[0], Sort(s[1..], at), at)
  }

  lemma {:induction false} InsertAdds<T>(x: T, s: seq<T>, at: T -> int)
    ensures multiset(Insert(x, s, at)) == multiset(s) + multiset{x}
    ensures forall y :: y in Insert(x, s, at) <==> y == x || y in s
  {
    if s != [] && at(x) < at(s[0]) {
      InsertAdds(x, s[1..], at);
      assert s == [s[0]] + s[1..];
    }
  }

  lemma {:induction false} InsertOrders<T(!new)>(x: T, s: seq<T>, at: T -> int)
    requires Ordered(s, at)
    ensures Ordered(Insert(x, s, at), at)
  {
    if s != [] && at(x) < at(s[0]) {
      InsertOrders(x, s[1..], at);
      InsertAdds(x, s[1..], at);
      var rest := Insert(x, s[1..], at);
      forall j | 0 <= j < |rest| ensures at(s[0]) >= at(rest[j]) {
        assert rest[j] in rest;
      }
    }
  }

  lemma {:induction false} InsertKeepsDistinct<T(!new)>(x: T, s: seq<T>, at: T -> int)
    requires x !in s
    requires forall i, j :: 0 <= i < j < |s| ==> s[i] != s[j]
    ensures forall i, j :: 0 <= i < j < |Insert(x, s, at)| ==> Insert(x, s, at)[i] != Insert(x, s, at)[j]
  {
    if s != [] && at(x) < at(s[0]) {
      InsertKeepsDistinct(x, s[1..], at);
      InsertAdds(x, s[1..], at);
      var rest := Insert(x, s[1..], at);
      forall j | 0 <= j < |rest| ensures s[0] != rest[j] {
        assert rest[j] in rest;
      }
    }
  }

  lemma {:induction false} SortOrders<T(!new)>(s: seq<T>, at: T -> int)
    ensures Ordered(Sort(s, at), at)
    ensures multiset(Sort(s, at)) == multiset(s)
  {
    if s != [] {
      SortOrders(s[1..], at);
      InsertOrders(s[0], Sort(s[1..], at), at);
      InsertAdds(s[0], Sort(s[1..], at), at);
      assert s == [s[0]] + s[1..];
    }
  }

  ghost predicate StrictlyOrdered<T(!new)>(s: seq<T>, at: T -> int) {
    forall i, j :: 0 <= i < j < |s| ==> at(s[i]) > at(s[j])
  }

  lemma {:induction false} StrictOrderIsUnique<T(!new)>(a: seq<T>, b: seq<T>, at: T -> int)
    requires StrictlyOrdered(a, at) && StrictlyOrdered(b, at)
    requires forall x :: x in a <==> x in b
    ensures a == b
  {
    if a == [] {
      assert forall i :: 0 <= i < |b| ==> b[i] in b;
    } else {
      assert a[0] in a;
      assert b[0] in b && b[0] in a;
      assert a[0] == b[0];
      forall x ensures x in a[1..] <==> x in b[1..] {
        assert x in a[1..] <==> x in a && x != a[0];
        assert x in b[1..] <==> x in b && x != b[0];
      }
      StrictOrderIsUnique(a[1..], b[1..], at);
      assert a == [a[0]] + a[1..] && b == [b[0]] + b[1..];
    }
  }
}
