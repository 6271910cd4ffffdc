/**
 * The receives of one mailbox that have popped a payload and not ended yet
 * (src/core/mailbox-store.ts:131-168), numbered in the order of their pops.
 */
module Receives {
  import opened Options

  datatype InHand<T> = InHand(receive: nat, task: T)

  /** The payload receive k has in hand. */
  function TaskOf<T>(h: seq<InHand<T>>, k: nat): Option<T> {
    if h == [] then None else if h[0].receive == k then Some(h[0].task) else TaskOf(h[1..], k)
  }

  /** Receive k ends. */
  function Drop<T>(h: seq<InHand<T>>, k: nat): seq<InHand<T>> {
    if h == [] then [] else if h[0].receive == k then h[1..] else [h[0]] + Drop(h[1..], k)
  }

  function Tasks<T>(h: seq<InHand<T>>): multiset<T> {
    if h == [] then multiset{} else multiset{h[0].task} + Tasks(h[1..])
  }

  /** Numbered upwards from low, below high. */
  predicate InOrder<T>(h: seq<InHand<T>>, low: nat, high: nat) {
    h == [] || (low <= h[0].receive < high && InOrder(h[1..], h[0].receive + 1, high))
  }

  lemma {:induction false} DropTakesTask<T>(h: seq<InHand<T>>, k: nat)
    requires TaskOf(h, k).Some?
    ensures Tasks(h) == Tasks(Drop(h, k)) + multiset{TaskOf(h, k).value}
  {
    if h[0].receive != k {
      DropTakesTask(h[1..], k);
      assert ([h[0]] + Drop(h[1..], k))[1..] == Drop(h[1..], k);
    }
  }

  lemma {:induction false} Lower<T>(h: seq<InHand<T>>, low: nat, lower: nat, high: nat, higher: nat)
    requires InOrder(h, low, high) && lower <= low && high <= higher
    ensures InOrder(h, lower, higher)
  {
    if h != [] { Lower(h[1..], h[0].receive + 1, h[0].receive + 1, high, higher); }
  }

  lemma {:induction false} DropInOrder<T>(h: seq<InHand<T>>, k: nat, low: nat, high: nat)
    requires InOrder(h, low, high)
    ensures InOrder(Drop(h, k), low, high)
  {
    if h != [] {
      if h[0].receive == k {
        Lower(h[1..], k + 1, low, high, high);
      } else {
        DropInOrder(h[1..], k, h[0].receive + 1, high);
        assert ([h[0]] + Drop(h[1..], k))[1..] == Drop(h[1..], k);
      }
    }
  }

  lemma {:induction false} InOrderBounds<T>(h: seq<InHand<T>>, low: nat, high: nat, k: nat)
    requires InOrder(h, low, high)
    ensures TaskOf(h, k).Some? ==> low <= k < high
  {
    if h != [] { InOrderBounds(h[1..], h[0].receive + 1, high, k); }
  }

  lemma {:induction false} DropEnds<T>(h: seq<InHand<T>>, n: nat, k: nat, low: nat, high: nat)
    requires InOrder(h, low, high)
    ensures TaskOf(Drop(h, n), k).Some? <==> TaskOf(h, k).Some? && k != n
  {
    if h != [] {
      if h[0].receive == n {
        InOrderBounds(h[1..], n + 1, high, k);
      } else {
        DropEnds(h[1..], n, k, h[0].receive + 1, high);
        assert ([h[0]] + Drop(h[1..], n))[1..] == Drop(h[1..], n);
      }
    }
  }

  lemma {:induction false} BeginsInOrder<T>(h: seq<InHand<T>>, low: nat, n: nat, t: T)
    requires InOrder(h, low, n) && low <= n
    ensures InOrder(h + [InHand(n, t)], low, n + 1)
  {
    var x := [InHand(n, t)];
    if h == [] {
      assert h + x == x && x[1..] == [];
    } else {
      assert (h + x)[1..] == h[1..] + x;
      BeginsInOrder(h[1..], h[0].receive + 1, n, t);
    }
  }

  lemma {:induction false} BeginsTakesTask<T>(h: seq<InHand<T>>, n: nat, t: T)
    ensures Tasks(h + [InHand(n, t)]) == Tasks(h) + multiset{t}
  {
    var x := [InHand(n, t)];
    if h == [] {
      assert h + x == x && x[1..] == [];
    } else {
      assert (h + x)[1..] == h[1..] + x;
      BeginsTakesTask(h[1..], n, t);
    }
  }

  lemma {:induction false} BeginsIsUnderWay<T>(h: seq<InHand<T>>, n: nat, t: T, k: nat)
    ensures TaskOf(h + [InHand(n, t)], k).Some? <==> TaskOf(h, k).Some? || k == n
  {
    var x := [InHand(n, t)];
    if h == [] {
      assert h + x == x && x[1..] == [];
    } else {
      assert (h + x)[1..] == h[1..] + x;
      BeginsIsUnderWay(h[1..], n, t, k);
    }
  }

  lemma {:induction false} NewestTask<T>(h: seq<InHand<T>>, low: nat, n: nat, t: T)
    requires InOrder(h, low, n)
    ensures TaskOf(h + [InHand(n, t)], n) == Some(t) && Drop(h + [InHand(n, t)], n) == h
  {
    var x := [InHand(n, t)];
    if h == [] {
      assert h + x == x && x[1..] == [];
    } else {
      assert (h + x)[1..] == h[1..] + x;
      NewestTask(h[1..], h[0].receive + 1, n, t);
    }
  }
}
