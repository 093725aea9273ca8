/**
 `range` over a Go map visits every key once, in an order the language leaves open.
 Loops over maps are modelled as loops over such an order, and proved for all of them.
 */
module Iteration {

  ghost predicate Distinct<T>(s: seq<T>) {
    forall i, j :: 0 <= i < j < |s| ==> s[i] != s[j]
  }

  /** `order` lists the elements of `keys`, each once. */
  ghost predicate Visits<T(!new)>(order: seq<T>, keys: set<T>) {
    Distinct(order) && forall k :: k in order <==> k in keys
  }

  lemma VisitsRest<T(!new)>(order: seq<T>, keys: set<T>)
    requires Visits(order, keys) && order != []
    ensures order[0] in keys && Visits(order[1..], keys - {order[0]})
  {
    forall k ensures k in order[1..] <==> k in keys - {order[0]} {
      if k in keys && k != order[0] {
        var i :| 0 <= i < |order| && order[i] == k;
        assert order[1..][i - 1] == k;
      }
      if k in order[1..] {
        var i :| 0 <= i < |order[1..]| && order[1..][i] == k;
        assert order[i + 1] == k;
      }
    }
  }

  lemma VisitsNothing<T(!new)>(order: seq<T>, keys: set<T>)
    requires Visits(order, keys)
    ensures order == [] <==> keys == {}
  {
    if order != [] {
      assert order[0] in order;
    }
  }

  /** Some order; callers know nothing more about it. */
  method AnyOrder<T(==,!new)>(keys: set<T>) returns (order: seq<T>)
    ensures Visits(order, keys)
  {
    order := [];
    var rest := keys;
    while rest != {}
      invariant rest <= keys
      invariant Visits(order, keys - rest)
      decreases |rest|
    {
      var k :| k in rest;
      assert k !in order;
      Append(order, keys - rest, k);
      assert keys - (rest - {k}) == (keys - rest) + {k};
      order, rest := order + [k], rest - {k};
    }
    assert keys - rest == keys;
  }

  lemma Append<T(!new)>(order: seq<T>, keys: set<T>, k: T)
    requires Visits(order, keys) && k !in keys
    ensures Visits(order + [k], keys + {k})
  {
    assert k !in order;
    assert forall x :: x in order + [k] <==> x in order || x == k;
  }

  /** Every finite set of keys can be visited. */
  lemma {:induction false} SomeOrder<T(!new)>(keys: set<T>) returns (order: seq<T>)
    ensures Visits(order, keys)
    decreases |keys|
  {
    if keys == {} {
      order := [];
    } else {
      var k :| k in keys;
      var rest := SomeOrder(keys - {k});
      Append(rest, keys - {k}, k);
      assert keys - {k} + {k} == keys;
      order := rest + [k];
    }
  }

  /** Some visit ends with a given key. */
  lemma OrderEndingIn<T(!new)>(keys: set<T>, k: T) returns (order: seq<T>)
    requires k in keys
    ensures Visits(order + [k], keys)
  {
    order := SomeOrder(keys - {k});
    Append(order, keys - {k}, k);
    assert keys - {k} + {k} == keys;
  }

  /** How many of the visited keys lie in `chosen`. */
  ghost function CountIn<T>(order: seq<T>, chosen: set<T>): nat
    decreases |order|
  {
    if order == [] then 0 else (if order[0] in chosen then 1 else 0) + CountIn(order[1..], chosen)
  }

  lemma {:induction false} CountInResult<T(!new)>(order: seq<T>, keys: set<T>, chosen: set<T>)
    requires Visits(order, keys)
    ensures CountIn(order, chosen) == |chosen * keys|
    decreases |order|
  {
    if order == [] {
      assert chosen * keys == {};
    } else {
      var k := order[0];
      VisitsRest(order, keys);
      CountInResult(order[1..], keys - {k}, chosen);
      AddOne(keys, chosen, k);
    }
  }

  lemma AddOne<T(!new)>(keys: set<T>, chosen: set<T>, k: T)
    requires k in keys
    ensures |chosen * keys| == |chosen * (keys - {k})| + if k in chosen then 1 else 0
  {
    if k in chosen {
      assert chosen * keys == chosen * (keys - {k}) + {k};
    } else {
      assert chosen * keys == chosen * (keys - {k});
    }
  }

  /** What the visits add up to, one list per key. */
  ghost function Collect<T, U>(order: seq<T>, f: T -> seq<U>): seq<U>
    decreases |order|
  {
    if order == [] then [] else f(order[0]) + Collect(order[1..], f)
  }

  lemma {:induction false} CollectAround<T, U>(a: seq<T>, k: T, b: seq<T>, f: T -> seq<U>)
    ensures multiset(Collect(a + [k] + b, f)) == multiset(f(k)) + multiset(Collect(a + b, f))
    decreases |a|
  {
    if a == [] {
      assert a + [k] + b == [k] + b && a + b == b;
      assert ([k] + b)[1..] == b;
    } else {
      CollectAround(a[1..], k, b, f);
      assert (a + [k] + b)[1..] == a[1..] + [k] + b && (a + b)[1..] == a[1..] + b;
    }
  }

  lemma VisitsWithout<T(!new)>(order: seq<T>, keys: set<T>, i: nat)
    requires Visits(order, keys) && i < |order|
    ensures Visits(order[..i] + order[i + 1..], keys - {order[i]})
  {
    var rest := order[..i] + order[i + 1..];
    assert forall j :: 0 <= j < |rest| ==> rest[j] == order[if j < i then j else j + 1];
    forall k ensures k in rest <==> k in keys - {order[i]} {
      if k in keys && k != order[i] {
        var j :| 0 <= j < |order| && order[j] == k;
        assert rest[if j < i then j else j - 1] == k;
      }
    }
  }

  /** The order of the visits does not change what is collected, repetitions included. */
  lemma {:induction false} CollectAnyOrder<T(!new), U>(p: seq<T>, q: seq<T>, keys: set<T>, f: T -> seq<U>)
    requires Visits(p, keys) && Visits(q, keys)
    ensures multiset(Collect(p, f)) == multiset(Collect(q, f))
    decreases |p|
  {
    VisitsNothing(p, keys);
    VisitsNothing(q, keys);
    if p != [] {
      var k := p[0];
      assert k in q;
      var i :| 0 <= i < |q| && q[i] == k;
      VisitsRest(p, keys);
      VisitsWithout(q, keys, i);
      CollectAnyOrder(p[1..], q[..i] + q[i + 1..], keys - {k}, f);
      CollectAround(q[..i], k, q[i + 1..], f);
      assert q == q[..i] + [k] + q[i + 1..];
    }
  }
}
