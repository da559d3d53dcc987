/**
 Choosing among healthy relays by cost: the earliest of the cheapest, and how that answer
 responds to swapping the two ends and to relays coming and going.
 */
module Choose {
  import opened Basics
  import opened Text
  import opened RouteTable

  /** What a relay costs from an end whose line does not list it. */
  const UNLISTED_COST_MS: real := 1000.0

  /** The relay as configured, its total, and every healthy relay's total in the order given. */
  datatype Choice = Choice(relay: string, cost: real, totals: seq<real>)

  function LegCost(side: Costs, relay: string): real {
    if Normalize(relay) in side then side[Normalize(relay)] else UNLISTED_COST_MS
  }

  /** A session crosses one leg per known end. */
  function Total(sides: seq<Costs>, relay: string): real {
    if sides == [] then 0.0 else Total(sides[..|sides| - 1], relay) + LegCost(sides[|sides| - 1], relay)
  }

  function Totals(healthy: seq<string>, sides: seq<Costs>): (r: seq<real>)
    ensures |r| == |healthy|
    ensures forall i :: 0 <= i < |r| ==> r[i] == Total(sides, healthy[i])
  {
    if healthy == [] then [] else [Total(sides, healthy[0])] + Totals(healthy[1..], sides)
  }

  /** The least of the totals, the earliest on a tie. */
  ghost predicate IsBest(totals: seq<real>, b: nat) {
    && b < |totals|
    && (forall i :: 0 <= i < |totals| ==> totals[b] <= totals[i])
    && (forall i :: 0 <= i < b ==> totals[b] < totals[i])
  }

  function BestIndex(totals: seq<real>): (b: nat)
    requires totals != []
    ensures IsBest(totals, b)
  {
    var n := |totals| - 1;
    if n == 0 then 0
    else
      var b := BestIndex(totals[..n]);
      if totals[n] < totals[b] then n else b
  }

  function ChooseFrom(healthy: seq<string>, sides: seq<Costs>): Option<Choice> {
    if healthy == [] || sides == [] then None
    else
      var totals := Totals(healthy, sides);
      var b := BestIndex(totals);
      Some(Choice(healthy[b], totals[b], totals))
  }

  lemma BestInRange(totals: seq<real>, b: nat)
    requires IsBest(totals, b)
    ensures b < |totals|
  {
  }

  lemma BestUnique(totals: seq<real>, b: nat, c: nat)
    requires IsBest(totals, b) && IsBest(totals, c)
    ensures b == c
  {
    assert totals[b] == totals[c];
  }

  /** `choose_from`: price every healthy relay, then keep the first strictly cheaper one. */
  method ChooseBest(healthy: seq<string>, sides: seq<Costs>) returns (r: Option<Choice>)
    ensures r == ChooseFrom(healthy, sides)
  {
    hide Total, Totals;
    if healthy == [] || sides == [] { return None; }
    var totals := Totals(healthy, sides);
    var best := 0;
    for i := 0 to |totals|
      invariant 0 <= best < |totals|
      invariant forall k :: 0 <= k < i ==> totals[best] <= totals[k]
      invariant forall k :: 0 <= k < best ==> totals[best] < totals[k]
    {
      if totals[i] < totals[best] { best := i; }
    }
    BestUnique(totals, best, BestIndex(totals));
    return Some(Choice(healthy[best], totals[best], totals));
  }

  /** The choice made, in so many words: healthy, of least total, and before any other as cheap. */
  lemma ChosenIsEarliestCheapest(healthy: seq<string>, sides: seq<Costs>, b: nat)
    requires sides != []
    requires b < |healthy|
    requires forall i :: 0 <= i < |healthy| ==> Total(sides, healthy[b]) <= Total(sides, healthy[i])
    requires forall i :: 0 <= i < b ==> Total(sides, healthy[b]) < Total(sides, healthy[i])
    ensures ChooseFrom(healthy, sides) ==
      Some(Choice(healthy[b], Total(sides, healthy[b]), Totals(healthy, sides)))
  {
    hide Total;
    var totals := Totals(healthy, sides);
    assert IsBest(totals, b);
    BestUnique(totals, b, BestIndex(totals));
  }

  lemma TotalOne(a: Costs, relay: string)
    ensures Total([a], relay) == LegCost(a, relay)
  {
    assert [a][..0] == [];
  }

  lemma TotalTwo(a: Costs, b: Costs, relay: string)
    ensures Total([a, b], relay) == LegCost(a, relay) + LegCost(b, relay)
  {
    assert [a, b][..1] == [a];
    assert [a][..0] == [];
    assert Total([a], relay) == Total([a][..0], relay) + LegCost(a, relay);
  }

  /** Which end is the controller does not matter. */
  lemma SwappedEndsAgree(healthy: seq<string>, a: Costs, b: Costs)
    ensures ChooseFrom(healthy, [a, b]) == ChooseFrom(healthy, [b, a])
  {
    hide Total, LegCost;
    forall r ensures Total([a, b], r) == Total([b, a], r) {
      TotalTwo(a, b, r);
      TotalTwo(b, a, r);
    }
    assert Totals(healthy, [a, b]) == Totals(healthy, [b, a]);
  }

  /** Taking away a relay that was not chosen changes nothing. */
  lemma RemovingLoserKeepsChoice(healthy: seq<string>, sides: seq<Costs>, k: nat)
    requires k < |healthy| && sides != [] && k != BestIndex(Totals(healthy, sides))
    ensures var r := ChooseFrom(healthy[..k] + healthy[k + 1..], sides);
      r.Some? && r.value.relay == ChooseFrom(healthy, sides).value.relay
  {
    hide Total, Totals, BestIndex, IsBest;
    var totals := Totals(healthy, sides);
    var b := BestIndex(totals);
    assert b < |totals| by { BestInRange(totals, b); }
    var rest := healthy[..k] + healthy[k + 1..];
    var left := Totals(rest, sides);
    var c := if b < k then b else b - 1;
    TotalsRemoved(healthy, sides, k);
    RemovedBest(totals, b, k);
    BestUnique(left, c, BestIndex(left));
    assert rest[c] == healthy[b];
  }

  /** A relay put in anywhere wins if cheaper, or as cheap and earlier; otherwise nothing changes. */
  lemma AddedRelayWinsOrNothing(healthy: seq<string>, sides: seq<Costs>, k: nat, x: string)
    requires healthy != [] && sides != [] && k <= |healthy|
    ensures var b := BestIndex(Totals(healthy, sides));
      var wins := Total(sides, x) < Total(sides, healthy[b])
                  || (Total(sides, x) == Total(sides, healthy[b]) && k <= b);
      var r := ChooseFrom(healthy[..k] + [x] + healthy[k..], sides);
      r.Some? && r.value.relay == if wins then x else healthy[b]
  {
    hide Total, Totals, BestIndex;
    var totals := Totals(healthy, sides);
    var b := BestIndex(totals);
    var t := Total(sides, x);
    var more := healthy[..k] + [x] + healthy[k..];
    var right := Totals(more, sides);
    TotalsInserted(healthy, sides, k, x);
    var c := if t < totals[b] || (t == totals[b] && k <= b) then k else if b < k then b else b + 1;
    InsertedBest(totals, b, k, t);
    BestUnique(right, c, BestIndex(right));
    assert more[c] == if c == k then x else healthy[b];
  }

  lemma TotalsRemoved(healthy: seq<string>, sides: seq<Costs>, k: nat)
    requires k < |healthy|
    ensures var totals := Totals(healthy, sides);
      Totals(healthy[..k] + healthy[k + 1..], sides) == totals[..k] + totals[k + 1..]
  {
    hide Total, Totals;
  }

  lemma TotalsInserted(healthy: seq<string>, sides: seq<Costs>, k: nat, x: string)
    requires k <= |healthy|
    ensures var totals := Totals(healthy, sides);
      Totals(healthy[..k] + [x] + healthy[k..], sides) == totals[..k] + [Total(sides, x)] + totals[k..]
  {
    hide Total, Totals;
  }

  lemma RemovedBest(totals: seq<real>, b: nat, k: nat)
    requires IsBest(totals, b) && k < |totals| && k != b
    ensures IsBest(totals[..k] + totals[k + 1..], if b < k then b else b - 1)
  {
    var left := totals[..k] + totals[k + 1..];
    assert forall i :: 0 <= i < |left| ==> left[i] == if i < k then totals[i] else totals[i + 1];
  }

  lemma InsertedBest(totals: seq<real>, b: nat, k: nat, t: real)
    requires IsBest(totals, b) && k <= |totals|
    ensures IsBest(totals[..k] + [t] + totals[k..],
      if t < totals[b] || (t == totals[b] && k <= b) then k else if b < k then b else b + 1)
  {
    var right := totals[..k] + [t] + totals[k..];
    assert forall i :: 0 <= i < |right| ==>
      right[i] == if i < k then totals[i] else if i == k then t else totals[i - 1];
  }

  lemma {:induction false} UnlistedTotal(sides: seq<Costs>, relay: string)
    requires forall s :: s in sides ==> Normalize(relay) !in s
    ensures Total(sides, relay) == UNLISTED_COST_MS * |sides| as real
  {
    hide Normalize;
    if sides != [] {
      UnlistedTotal(sides[..|sides| - 1], relay);
    }
  }

  lemma {:induction false} ListedTotal(sides: seq<Costs>, relay: string)
    requires sides != []
    requires forall s :: s in sides ==> Normalize(relay) in s && s[Normalize(relay)] < UNLISTED_COST_MS
    ensures Total(sides, relay) < UNLISTED_COST_MS * |sides| as real
  {
    hide Normalize;
    var n := |sides| - 1;
    assert sides[n] in sides;
    if n > 0 {
      ListedTotal(sides[..n], relay);
    } else {
      assert Total(sides[..n], relay) == 0.0;
    }
  }

  /** While a relay listed on every known end below the unlisted cost is healthy,
      no relay listed on none of them is ever chosen. */
  lemma ListedBeatsUnlisted(healthy: seq<string>, sides: seq<Costs>, listed: string, unlisted: string)
    requires sides != [] && listed in healthy
    requires forall s :: s in sides ==> Normalize(listed) in s && s[Normalize(listed)] < 1000.0
    requires forall s :: s in sides ==> Normalize(unlisted) !in s
    ensures Total(sides, listed) < Total(sides, unlisted)
    ensures ChooseFrom(healthy, sides).value.relay != unlisted
  {
    hide Normalize, LegCost;
    ListedTotal(sides, listed);
    UnlistedTotal(sides, unlisted);
    var totals := Totals(healthy, sides);
    var i :| 0 <= i < |healthy| && healthy[i] == listed;
    var b := BestIndex(totals);
    assert totals[b] <= totals[i];
  }
}
