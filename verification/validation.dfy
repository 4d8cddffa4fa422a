/**
  What every validator of the front end has in common: it runs its checks in a fixed order and
  pushes one message per failed check, so its error list follows the order of the checks.
*/
module Validation {

  /**
    The errors follow the checks' order: `pos` gives the position of the check that produces
    each error, and each error comes from a strictly later check than the one before it. Checks
    that can never fail together may share a position.
  */
  predicate InOrder<E>(errs: seq<E>, pos: E -> nat) {
    forall i :: 0 <= i < |errs| - 1 ==> pos(errs[i]) < pos(errs[i + 1])
  }

  /** Every error comes from a later check than every error before it. */
  lemma {:induction false} InOrderPairs<E>(errs: seq<E>, pos: E -> nat)
    requires InOrder(errs, pos)
    ensures forall i, j :: 0 <= i < j < |errs| ==> pos(errs[i]) < pos(errs[j])
  {
    forall i, j | 0 <= i < j < |errs| ensures pos(errs[i]) < pos(errs[j]) {
      var k := i;
      while k < j - 1
        invariant i <= k < j
        invariant pos(errs[i]) <= pos(errs[k])
      {
        k := k + 1;
      }
    }
  }

  /** A list in check order has at most one error per position. */
  lemma {:induction false} InOrderBound<E>(errs: seq<E>, pos: E -> nat, n: nat)
    requires InOrder(errs, pos)
    requires forall e :: e in errs ==> pos(e) < n
    ensures |errs| <= n
  {
    if errs != [] {
      var init := errs[..|errs| - 1];
      var last := errs[|errs| - 1];
      InOrderPairs(errs, pos);
      forall e | e in init ensures pos(e) < pos(last) {
        var i :| 0 <= i < |init| && init[i] == e;
        assert errs[i] == e;
      }
      assert InOrder(init, pos) by {
        forall i | 0 <= i < |init| - 1 ensures pos(init[i]) < pos(init[i + 1]) {
          assert init[i] == errs[i] && init[i + 1] == errs[i + 1];
        }
      }
      InOrderBound(init, pos, pos(last));
    }
  }

  /** A list in check order never repeats an error. */
  lemma InOrderDistinct<E>(errs: seq<E>, pos: E -> nat)
    requires InOrder(errs, pos)
    ensures |set e | e in errs| == |errs|
  {
    InOrderPairs(errs, pos);
    DistinctCard(errs);
  }

  lemma {:induction false} DistinctCard<E>(errs: seq<E>)
    requires forall i, j :: 0 <= i < j < |errs| ==> errs[i] != errs[j]
    ensures |set e | e in errs| == |errs|
  {
    if errs != [] {
      var init := errs[..|errs| - 1];
      var last := errs[|errs| - 1];
      assert forall i, j :: 0 <= i < j < |init| ==> init[i] != init[j] by {
        forall i, j | 0 <= i < j < |init| ensures init[i] != init[j] {
          assert init[i] == errs[i] && init[j] == errs[j];
        }
      }
      DistinctCard(init);
      var before := set e | e in init;
      assert last !in init by {
        forall i | 0 <= i < |init| ensures init[i] != last {
          assert init[i] == errs[i];
        }
      }
      assert errs == init + [last];
      assert (set e | e in errs) == before + {last};
      assert |before + {last}| == |before| + 1;
    }
  }

  /** A list in check order whose errors all come from `kinds` is no longer than `kinds`. */
  lemma InOrderWithin<E>(errs: seq<E>, pos: E -> nat, kinds: seq<E>)
    requires InOrder(errs, pos)
    requires forall e :: e in errs ==> e in kinds
    ensures |errs| <= |kinds|
  {
    InOrderDistinct(errs, pos);
    SetOfSeqCard(kinds);
    SubsetCard(set e | e in errs, set e | e in kinds);
  }

  lemma {:induction false} SetOfSeqCard<E>(s: seq<E>)
    ensures |set e | e in s| <= |s|
  {
    if s != [] {
      SetOfSeqCard(s[1..]);
      assert (set e | e in s) == {s[0]} + (set e | e in s[1..]);
    }
  }

  lemma {:induction false} SubsetCard<E>(a: set<E>, b: set<E>)
    requires a <= b
    ensures |a| <= |b|
    decreases |a|
  {
    if a != {} {
      var x :| x in a;
      SubsetCard(a - {x}, b - {x});
    }
  }

  lemma SameLength<E>(a: seq<E>, b: seq<E>, pos: E -> nat)
    requires InOrder(a, pos) && InOrder(b, pos)
    requires forall e :: e in a <==> e in b
    ensures |a| == |b|
  {
    InOrderDistinct(a, pos);
    InOrderDistinct(b, pos);
    assert (set e | e in a) == (set e | e in b);
  }

  /** Two non-empty lists in check order with the same errors start alike and go on alike. */
  lemma SameHead<E>(a: seq<E>, b: seq<E>, pos: E -> nat)
    requires InOrder(a, pos) && InOrder(b, pos)
    requires forall e :: e in a <==> e in b
    requires a != [] && b != []
    ensures a[0] == b[0]
    ensures InOrder(a[1..], pos) && InOrder(b[1..], pos)
    ensures forall e :: e in a[1..] <==> e in b[1..]
  {
    InOrderPairs(a, pos);
    InOrderPairs(b, pos);
    assert a[0] in b && b[0] in a;
    forall e ensures e in a[1..] <==> e in b[1..] {
      if e in a[1..] {
        var i :| 0 <= i < |a[1..]| && a[1..][i] == e;
        assert a[i + 1] == e && pos(a[0]) < pos(e);
        assert e in a;
        var j :| 0 <= j < |b| && b[j] == e;
        assert j != 0;
        assert b[1..][j - 1] == e;
      }
      if e in b[1..] {
        var j :| 0 <= j < |b[1..]| && b[1..][j] == e;
        assert b[j + 1] == e && pos(b[0]) < pos(e);
        assert e in b;
        var i :| 0 <= i < |a| && a[i] == e;
        assert i != 0;
        assert a[1..][i - 1] == e;
      }
    }
  }

  /**
    Two lists in check order with the same errors are the same list: a validator's output is
    fully determined by which errors it contains.
  */
  lemma {:induction false} InOrderDetermined<E>(a: seq<E>, b: seq<E>, pos: E -> nat)
    requires InOrder(a, pos) && InOrder(b, pos)
    requires forall e :: e in a <==> e in b
    ensures a == b
    decreases |a|
  {
    SameLength(a, b, pos);
    if a != [] {
      SameHead(a, b, pos);
      InOrderDetermined(a[1..], b[1..], pos);
      assert a == [a[0]] + a[1..] && b == [b[0]] + b[1..];
    }
  }

  /**
    A validator part-way through: the errors pushed so far are exactly the failed checks before
    position n, in check order.
  */
  ghost predicate CheckedUpTo<E(!new)>(errs: seq<E>, violated: E -> bool, pos: E -> nat, n: nat) {
    (forall e :: e in errs <==> violated(e) && pos(e) < n) &&
    (forall i :: 0 <= i < |errs| ==> pos(errs[i]) < n) &&
    InOrder(errs, pos)
  }

  /**
    Running the check at position n, which pushes at most one error onto `errs` to give `next`,
    moves on to n + 1.
  */
  lemma CheckNext<E(!new)>(errs: seq<E>, next: seq<E>, violated: E -> bool, pos: E -> nat, n: nat)
    requires CheckedUpTo(errs, violated, pos, n)
    requires |errs| <= |next| <= |errs| + 1 && next[..|errs|] == errs
    requires forall e :: e in next[|errs|..] <==> violated(e) && pos(e) == n
    ensures CheckedUpTo(next, violated, pos, n + 1)
  {
    assert next == errs + next[|errs|..];
    if |next| > |errs| {
      assert next[|errs|] in next[|errs|..];
    }
  }

  /** The messages of a list of errors, in the same order. */
  function Messages<E>(errs: seq<E>, message: E -> string): (ms: seq<string>)
    ensures |ms| == |errs|
    ensures forall k :: 0 <= k < |errs| ==> ms[k] == message(errs[k])
  {
    if errs == [] then [] else [message(errs[0])] + Messages(errs[1..], message)
  }
}
