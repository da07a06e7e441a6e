/** The observer pattern of appes6.js: `EventObserver` keeps an ordered list of
    callbacks, `subsribe` appends to it, `unsubsribe` filters a callback out of
    it and `fire` calls every entry in turn.

    A callback is modelled by its identity alone: the type parameter `F` with
    equality stands for JavaScript's `!==` on function objects, and `fire`
    returns the sequence of callbacks it invoked. */
module ObserverPattern {

  /** `s` with every entry equal to `fn` dropped and the others kept in their
      order: the `filter` that `unsubsribe` applies to the list. */
  function Without<F(==)>(s: seq<F>, fn: F): (r: seq<F>)
    ensures |r| <= |s|
    ensures fn !in r
    ensures forall x :: x in r ==> x in s
  {
    if s == [] then []
    else if s[0] == fn then Without(s[1..], fn)
    else [s[0]] + Without(s[1..], fn)
  }

  /** `t` can be obtained from `s` by deleting entries: the order reference
      against which `Without` is checked. */
  ghost predicate IsSubsequence<F>(t: seq<F>, s: seq<F>)
    decreases |s|
  {
    if t == [] then true
    else if s == [] then false
    else (t[0] == s[0] && IsSubsequence(t[1..], s[1..])) || IsSubsequence(t, s[1..])
  }

  /** Contents: each entry other than `fn` keeps its multiplicity, `fn` has
      none left, so membership changes for `fn` alone. */
  lemma {:induction false} WithoutMultiset<F>(s: seq<F>, fn: F)
    ensures multiset(Without(s, fn)) == multiset(s)[fn := 0]
    ensures fn !in Without(s, fn)
    ensures forall x :: x in Without(s, fn) <==> x in s && x != fn
  {
    if s != [] {
      WithoutMultiset(s[1..], fn);
      assert s == [s[0]] + s[1..];
      assert multiset(s) == multiset([s[0]]) + multiset(s[1..]);
    }
  }

  /** Order: what `Without` keeps appears in `s` in the same order. */
  lemma {:induction false} WithoutIsSubsequence<F>(s: seq<F>, fn: F)
    ensures IsSubsequence(Without(s, fn), s)
  {
    if s != [] {
      WithoutIsSubsequence(s[1..], fn);
      if s[0] != fn {
        assert ([s[0]] + Without(s[1..], fn))[1..] == Without(s[1..], fn);
      }
    }
  }

  /** A subsequence has no more of any entry than the sequence it comes from. */
  lemma {:induction false} SubsequenceMultiset<F>(t: seq<F>, s: seq<F>)
    requires IsSubsequence(t, s)
    ensures multiset(t) <= multiset(s)
    decreases |s|
  {
    if t != [] {
      assert s == [s[0]] + s[1..];
      if t[0] == s[0] && IsSubsequence(t[1..], s[1..]) {
        SubsequenceMultiset(t[1..], s[1..]);
        assert t == [t[0]] + t[1..];
      } else {
        SubsequenceMultiset(t, s[1..]);
      }
    }
  }

  /** The two properties above pin the result down: the only subsequence of
      `s` holding exactly the entries other than `fn` is `Without(s, fn)`. */
  lemma {:induction false} WithoutUnique<F>(s: seq<F>, fn: F, t: seq<F>)
    requires IsSubsequence(t, s)
    requires multiset(t) == multiset(s)[fn := 0]
    ensures t == Without(s, fn)
    decreases |s|
  {
    if s == [] {
      assert |multiset(t)| == 0;
    } else if s[0] == fn {
      UniqueDroppedHead(s, fn, t);
      WithoutUnique(s[1..], fn, t);
    } else {
      UniqueKeptHead(s, fn, t);
      WithoutUnique(s[1..], fn, t[1..]);
      assert t == [t[0]] + t[1..];
    }
  }

  /** In `WithoutUnique`, a leading `fn` of `s` cannot be matched by `t`. */
  lemma UniqueDroppedHead<F>(s: seq<F>, fn: F, t: seq<F>)
    requires s != [] && s[0] == fn
    requires IsSubsequence(t, s)
    requires multiset(t) == multiset(s)[fn := 0]
    ensures IsSubsequence(t, s[1..])
    ensures multiset(t) == multiset(s[1..])[fn := 0]
  {
    assert s == [s[0]] + s[1..];
    assert multiset(s) == multiset{s[0]} + multiset(s[1..]);
    assert multiset(s)[fn := 0] == multiset(s[1..])[fn := 0];
    assert t != [] ==> t[0] in multiset(t);
  }

  /** In `WithoutUnique`, a leading entry of `s` other than `fn` must be
      matched by the first entry of `t`. */
  lemma UniqueKeptHead<F>(s: seq<F>, fn: F, t: seq<F>)
    requires s != [] && s[0] != fn
    requires IsSubsequence(t, s)
    requires multiset(t) == multiset(s)[fn := 0]
    ensures t != [] && t[0] == s[0]
    ensures IsSubsequence(t[1..], s[1..])
    ensures multiset(t[1..]) == multiset(s[1..])[fn := 0]
  {
    assert s == [s[0]] + s[1..];
    assert multiset(s) == multiset{s[0]} + multiset(s[1..]);
    assert multiset(t)[s[0]] == multiset(s[1..])[s[0]] + 1;
    if !(t[0] == s[0] && IsSubsequence(t[1..], s[1..])) {
      SubsequenceMultiset(t, s[1..]);
    }
    assert t == [t[0]] + t[1..];
    assert multiset(t) == multiset{s[0]} + multiset(t[1..]);
    Cancel(s[0], multiset(t[1..]), multiset(s[1..])[fn := 0]);
  }

  /** A common element can be taken off both sides of a multiset equation. */
  lemma Cancel<F>(x: F, a: multiset<F>, b: multiset<F>)
    requires multiset{x} + a == multiset{x} + b
    ensures a == b
  {
    assert a == (multiset{x} + a) - multiset{x};
    assert b == (multiset{x} + b) - multiset{x};
  }

  /** Filtering distributes over concatenation. */
  lemma {:induction false} WithoutAppend<F>(s: seq<F>, t: seq<F>, fn: F)
    ensures Without(s + t, fn) == Without(s, fn) + Without(t, fn)
  {
    if s == [] {
      assert s + t == t;
    } else {
      assert (s + t)[1..] == s[1..] + t;
      WithoutAppend(s[1..], t, fn);
    }
  }

  /** Unsubscribing a callback that is not on the list leaves the list
      unchanged. */
  lemma {:induction false} WithoutAbsent<F>(s: seq<F>, fn: F)
    requires fn !in s
    ensures Without(s, fn) == s
  {
    if s != [] {
      assert fn !in s[1..];
      WithoutAbsent(s[1..], fn);
      assert s == [s[0]] + s[1..];
    }
  }

  /** Unsubscribing twice is unsubscribing once. */
  lemma WithoutIdempotent<F>(s: seq<F>, fn: F)
    ensures Without(Without(s, fn), fn) == Without(s, fn)
  {
    WithoutMultiset(s, fn);
    WithoutAbsent(Without(s, fn), fn);
  }

  /** Unsubscribing right after a subscription removes that entry and every
      earlier one of the same callback; any other callback just added stays,
      at the end. */
  lemma SubscribeThenUnsubscribe<F>(s: seq<F>, g: F, fn: F)
    ensures Without(s + [g], fn) == if g == fn then Without(s, fn) else Without(s, fn) + [g]
  {
    WithoutAppend(s, [g], fn);
    assert [g][1..] == [];
  }

  class EventObserver<F(==)> {
    /** The registered callbacks, in subscription order, duplicates allowed. */
    var observers: seq<F>

    constructor ()
      ensures observers == []
    {
      observers := [];
    }

    /** `subsribe`: append without checking for an earlier registration. */
    method Subscribe(fn: F)
      modifies this
      ensures observers == old(observers) + [fn]
      ensures multiset(observers)[fn] == multiset(old(observers))[fn] + 1
    {
      observers := observers + [fn];
    }

    /** `unsubsribe`: replace the list by its filtered copy. Afterwards no
        entry is `fn`, every other entry keeps its multiplicity and order. */
    method Unsubscribe(fn: F)
      modifies this
      ensures observers == Without(old(observers), fn)
      ensures fn !in observers
      ensures multiset(observers) == multiset(old(observers))[fn := 0]
      ensures IsSubsequence(observers, old(observers))
      ensures fn !in old(observers) ==> observers == old(observers)
    {
      WithoutMultiset(observers, fn);
      WithoutIsSubsequence(observers, fn);
      if fn !in observers {
        WithoutAbsent(observers, fn);
      }
      observers := Without(observers, fn);
    }

    /** `fire`: call each registered callback once per occurrence, in list
        order; the list itself is not changed. */
    method Fire() returns (calls: seq<F>)
      ensures calls == observers
    {
      calls := [];
      var i := 0;
      while i < |observers|
        invariant 0 <= i <= |observers|
        invariant calls == observers[..i]
      {
        calls := calls + [observers[i]];
        i := i + 1;
      }
    }
  }

  /** Subscribing `a`, `b`, `a` fires `a, b, a`; unsubscribing `a` removes
      both of its entries; unsubscribing `a` once more, when it is no longer
      on the list, changes nothing. The page's two callbacks and its
      subscribe, unsubscribe and fire buttons produce exactly these calls. */
  method ClickScenario<F(==)>(a: F, b: F) returns (first: seq<F>, second: seq<F>, third: seq<F>)
    requires a != b
    ensures first == [a, b, a]
    ensures second == [b]
    ensures third == [b]
  {
    var click := new EventObserver<F>();
    click.Subscribe(a);
    click.Subscribe(b);
    click.Subscribe(a);
    first := click.Fire();
    click.Unsubscribe(a);
    second := click.Fire();
    click.Unsubscribe(a);
    third := click.Fire();
  }
}
