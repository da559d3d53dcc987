/**
 The periodic health check: probes finish in whatever order the network allows, and the new
 live list is nevertheless the relays that answered, in configured order.

 A successful probe reports `(i, x)` with `x` the i-th configured relay; the index stands for both.
 */
module HealthCheck {
  import opened Sorting

  /** The relays whose index answered, in configured order. */
  function Answering(configured: seq<string>, answered: seq<nat>): seq<string> {
    if configured == [] then []
    else
      var n := |configured| - 1;
      Answering(configured[..n], answered) + if n in answered then [configured[n]] else []
  }

  predicate AtMost(x: nat, y: nat) { x <= y }

  /** `sort_by_key(|(i, _)| *i)`. */
  function SortByIndex(xs: seq<nat>): seq<nat> {
    Sort(AtMost, xs)
  }

  predicate Below(xs: seq<nat>, n: nat) {
    forall i :: 0 <= i < |xs| ==> xs[i] < n
  }

  function Relays(configured: seq<string>, xs: seq<nat>): seq<string>
    requires Below(xs, |configured|)
  {
    if xs == [] then [] else Relays(configured, xs[..|xs| - 1]) + [configured[xs[|xs| - 1]]]
  }

  predicate Increasing(xs: seq<nat>) {
    forall i, j :: 0 <= i < j < |xs| ==> xs[i] < xs[j]
  }

  predicate Distinct(xs: seq<nat>) {
    forall i, j :: 0 <= i < j < |xs| ==> xs[i] != xs[j]
  }

  lemma IndicesOrdered(xs: seq<nat>)
    requires Distinct(xs)
    ensures Increasing(SortByIndex(xs))
    ensures forall q :: q in SortByIndex(xs) <==> q in xs
  {
    hide Sort;
    assert IsOrder(AtMost);
    SortOrders(AtMost, xs);
    SortPermutes(AtMost, xs);
    var s := SortByIndex(xs);
    SameMembers(s, xs);
    ApartPermuted((x: nat, y: nat) => x == y, xs, s);
    forall i, j | 0 <= i < j < |s| ensures s[i] < s[j] {
      assert AtMost(s[i], s[j]);
    }
  }

  lemma {:induction false} SameAnswering(configured: seq<string>, a: seq<nat>, b: seq<nat>)
    requires forall i: nat :: i < |configured| ==> (i in a <==> i in b)
    ensures Answering(configured, a) == Answering(configured, b)
  {
    if configured != [] {
      SameAnswering(configured[..|configured| - 1], a, b);
    }
  }

  lemma {:induction false} RelaysOfPrefix(configured: seq<string>, xs: seq<nat>, n: nat)
    requires n <= |configured| && Below(xs, n)
    ensures Relays(configured[..n], xs) == Relays(configured, xs)
  {
    if xs != [] {
      RelaysOfPrefix(configured, xs[..|xs| - 1], n);
    }
  }

  /** Indices in increasing order name the answering relays in configured order. */
  lemma {:induction false} OrderedIsAnswering(configured: seq<string>, xs: seq<nat>)
    requires Below(xs, |configured|) && Increasing(xs)
    ensures Relays(configured, xs) == Answering(configured, xs)
  {
    if configured != [] {
      var n := |configured| - 1;
      if xs != [] && xs[|xs| - 1] == n {
        var front := xs[..|xs| - 1];
        OrderedIsAnswering(configured[..n], front);
        RelaysOfPrefix(configured, front, n);
        SameAnswering(configured[..n], front, xs);
      } else {
        OrderedIsAnswering(configured[..n], xs);
        RelaysOfPrefix(configured, xs, n);
      }
    }
  }

  /** `check_relay_servers`, told in what order the probes that succeeded finished, and what the
      server then does with the message: nothing is sent when none answered. */
  method CheckRelayServers(configured: seq<string>, finished: seq<nat>, live: seq<string>)
    returns (newLive: seq<string>)
    requires Below(finished, |configured|) && Distinct(finished)
    ensures newLive == if finished == [] then live else Answering(configured, finished)
  {
    IndicesOrdered(finished);
    var sorted := SortByIndex(finished);
    forall i | 0 <= i < |sorted| ensures sorted[i] < |configured| {
      assert sorted[i] in finished;
    }
    OrderedIsAnswering(configured, sorted);
    SameAnswering(configured, sorted, finished);
    var names := Relays(configured, sorted);
    if finished != [] { assert finished[0] in sorted; }
    newLive := if names == [] then live else names;
  }

  /** The finishing order does not matter, only which probes succeeded. */
  lemma FinishingOrderIrrelevant(configured: seq<string>, a: seq<nat>, b: seq<nat>)
    requires multiset(a) == multiset(b)
    ensures Answering(configured, a) == Answering(configured, b)
  {
    SameMembers(a, b);
    SameAnswering(configured, a, b);
  }

  /** The new list is exactly the configured relays that answered. */
  lemma {:induction false} AnsweringMembers(configured: seq<string>, answered: seq<nat>, x: string)
    ensures x in Answering(configured, answered) <==>
      exists i :: 0 <= i < |configured| && i in answered && configured[i] == x
  {
    if configured != [] {
      var n := |configured| - 1;
      AnsweringMembers(configured[..n], answered, x);
      if i :| 0 <= i < n && i in answered && configured[..n][i] == x {
        assert configured[i] == x;
      }
      if i :| 0 <= i < n && i in answered && configured[i] == x {
        assert configured[..n][i] == x;
      }
    }
  }
}
