/**
 The rate limiters: a counter that restarts after a quiet period, used for requests from an
 address and for key registrations of a peer, and the set of ids an address has asked about.
 Times are milliseconds and never go back.
 */
module Limiters {
  import opened Basics

  const IP_BLOCK_DUR: nat := 60
  const DAY_SECONDS: nat := 3600 * 24
  const REG_PK_DUR: nat := 6
  const IP_LIMIT: nat := 30
  const REG_PK_LIMIT: nat := 2
  const ID_LIMIT: nat := 300

  /** `elapsed().as_secs()`: whole seconds. */
  function Seconds(from: nat, now: nat): nat {
    if now <= from then 0 else (now - from) / 1000
  }

  lemma SecondsAre(from: nat, secs: nat, ms: nat)
    requires ms < 1000
    ensures Seconds(from, from + 1000 * secs + ms) == secs
  {
  }

  /** How many requests were counted, and when the last one was; None is long before anything. */
  datatype Window = Window(count: nat, last: Option<nat>)

  predicate Quiet(w: Window, secs: nat, now: nat) {
    w.last.None? || Seconds(w.last.value, now) > secs
  }

  predicate Passes(w: Window, limit: nat, secs: nat, now: nat) {
    Quiet(w, secs, now) || w.count <= limit
  }

  function Counted(w: Window, limit: nat, secs: nat, now: nat): Window {
    if !Passes(w, limit, secs, now) then w
    else Window(if Quiet(w, secs, now) then 1 else w.count + 1, Some(now))
  }

  /** The times that were let through and counted, when asked at each of `ts` in turn. */
  function Accepted(w: Window, limit: nat, secs: nat, ts: seq<nat>): seq<nat> {
    if ts == [] then []
    else
      var n := |ts| - 1;
      Accepted(w, limit, secs, ts[..n])
      + if Passes(After(w, limit, secs, ts[..n]), limit, secs, ts[n]) then [ts[n]] else []
  }

  function After(w: Window, limit: nat, secs: nat, ts: seq<nat>): Window {
    if ts == [] then w
    else
      var n := |ts| - 1;
      Counted(After(w, limit, secs, ts[..n]), limit, secs, ts[n])
  }

  /** Consecutive times with no gap of more than `secs` whole seconds. */
  predicate Chain(ts: seq<nat>, secs: nat) {
    forall i :: 0 <= i < |ts| - 1 ==> Seconds(ts[i], ts[i + 1]) <= secs
  }

  /** How long the unbroken chain at the end of `ts` is. */
  function Tail(ts: seq<nat>, secs: nat): nat {
    if |ts| <= 1 then |ts|
    else
      var n := |ts| - 1;
      if Seconds(ts[n - 1], ts[n]) > secs then 1 else Tail(ts[..n], secs) + 1
  }

  lemma {:induction false} ChainWithinTail(ts: seq<nat>, i: nat, secs: nat)
    requires i <= |ts| && Chain(ts[i..], secs)
    ensures |ts| - i <= Tail(ts, secs)
  {
    var n := |ts| - 1;
    if n >= 1 && i < n {
      assert ts[i..][n - 1 - i] == ts[n - 1] && ts[i..][n - i] == ts[n];
      assert Chain(ts[..n][i..], secs) by {
        assert ts[..n][i..] == ts[i..][..n - i];
      }
      ChainWithinTail(ts[..n], i, secs);
    } else if n >= 1 && i == n {
      assert Tail(ts, secs) >= 1;
    }
  }

  lemma TailSnoc(ts: seq<nat>, t: nat, secs: nat)
    ensures Tail(ts + [t], secs) ==
      if ts == [] || Seconds(ts[|ts| - 1], t) > secs then 1 else Tail(ts, secs) + 1
  {
    assert (ts + [t])[..|ts|] == ts;
  }

  /** The counter is the length of the chain so far, give or take a first request not counted. */
  lemma {:induction false} CounterIsChain(w: Window, before: seq<nat>, limit: nat, secs: nat, ts: seq<nat>, extra: nat)
    requires w.count <= limit + 1
    requires if before == [] then w.last.None? else w.last == Some(before[|before| - 1])
    requires Tail(before, secs) <= w.count + extra
    ensures var acc := before + Accepted(w, limit, secs, ts);
      var v := After(w, limit, secs, ts);
      && v.count <= limit + 1
      && (if acc == [] then v.last.None? else v.last == Some(acc[|acc| - 1]))
      && Tail(acc, secs) <= v.count + extra
  {
    hide Tail, Seconds;
    if ts == [] {
      assert before + [] == before;
    } else {
      var n := |ts| - 1;
      CounterIsChain(w, before, limit, secs, ts[..n], extra);
      var acc := before + Accepted(w, limit, secs, ts[..n]);
      var v := After(w, limit, secs, ts[..n]);
      if Passes(v, limit, secs, ts[n]) {
        assert before + Accepted(w, limit, secs, ts) == acc + [ts[n]];
        TailSnoc(acc, ts[n], secs);
      } else {
        assert Accepted(w, limit, secs, ts) == Accepted(w, limit, secs, ts[..n]);
      }
    }
  }

  lemma {:induction false} PrefixAccepted(w: Window, limit: nat, secs: nat, ts: seq<nat>, m: nat)
    requires m <= |Accepted(w, limit, secs, ts)|
    ensures exists k :: 0 <= k <= |ts| && Accepted(w, limit, secs, ts[..k]) == Accepted(w, limit, secs, ts)[..m]
  {
    var acc := Accepted(w, limit, secs, ts);
    if m == |acc| {
      assert ts[..|ts|] == ts && acc[..m] == acc;
    } else {
      var n := |ts| - 1;
      var less := Accepted(w, limit, secs, ts[..n]);
      assert acc[..m] == less[..m];
      PrefixAccepted(w, limit, secs, ts[..n], m);
      var k :| 0 <= k <= n && Accepted(w, limit, secs, ts[..n][..k]) == less[..m];
      assert ts[..n][..k] == ts[..k];
    }
  }

  /** Over any run, no chain of counted requests is longer than the limit allows. */
  lemma ChainsAreShort(w: Window, before: seq<nat>, limit: nat, secs: nat, ts: seq<nat>, extra: nat, i: nat, j: nat)
    requires w.count <= limit + 1
    requires if before == [] then w.last.None? else w.last == Some(before[|before| - 1])
    requires Tail(before, secs) <= w.count + extra
    requires var acc := before + Accepted(w, limit, secs, ts);
      i <= j <= |acc| && |before| <= j && Chain(acc[i..j], secs)
    ensures j - i <= limit + 1 + extra
  {
    hide Chain, Tail;
    var acc := before + Accepted(w, limit, secs, ts);
    PrefixAccepted(w, limit, secs, ts, j - |before|);
    var k :| 0 <= k <= |ts|
      && Accepted(w, limit, secs, ts[..k]) == Accepted(w, limit, secs, ts)[..j - |before|];
    var upto := before + Accepted(w, limit, secs, ts[..k]);
    assert upto == acc[..j];
    CounterIsChain(w, before, limit, secs, ts[..k], extra);
    assert upto[i..] == acc[i..j];
    ChainWithinTail(upto, i, secs);
  }

  /** A peer: at most 3 key registrations go through in a chain with no gap over 6 seconds. */
  lemma RegistrationsLimited(ts: seq<nat>, i: nat, j: nat)
    requires var acc := Accepted(Window(0, None), REG_PK_LIMIT, REG_PK_DUR, ts);
      i <= j <= |acc| && Chain(acc[i..j], 6)
    ensures j - i <= 3
  {
    var acc := Accepted(Window(0, None), REG_PK_LIMIT, REG_PK_DUR, ts);
    assert [] + acc == acc;
    ChainsAreShort(Window(0, None), [], REG_PK_LIMIT, REG_PK_DUR, ts, 0, i, j);
  }

  /** An address: at most 32 counted requests in a chain with no gap over 60 seconds, the one that
      made the entry included. */
  lemma AddressRequestsLimited(first: nat, ts: seq<nat>, i: nat, j: nat)
    requires var acc := [first] + Accepted(Window(0, Some(first)), IP_LIMIT, IP_BLOCK_DUR, ts);
      1 <= j && i <= j <= |acc| && Chain(acc[i..j], 60)
    ensures j - i <= 32
  {
    ChainsAreShort(Window(0, Some(first)), [first], IP_LIMIT, IP_BLOCK_DUR, ts, 1, i, j);
  }

  function Repeat(t: nat, n: nat): (r: seq<nat>)
    ensures |r| == n && forall i :: 0 <= i < n ==> r[i] == t
  {
    if n == 0 then [] else Repeat(t, n - 1) + [t]
  }

  lemma {:induction false} Burst(w: Window, limit: nat, secs: nat, t: nat, n: nat)
    requires w.last == Some(t) && w.count + n <= limit + 1
    ensures After(w, limit, secs, Repeat(t, n)) == Window(w.count + n, Some(t))
    ensures Accepted(w, limit, secs, Repeat(t, n)) == Repeat(t, n)
  {
    if n > 0 {
      Burst(w, limit, secs, t, n - 1);
      assert Repeat(t, n)[..n - 1] == Repeat(t, n - 1);
    }
  }

  /** The bound of 32 is reached, and the next request in the same instant is refused. */
  lemma ThirtyTwoReached(t: nat)
    ensures |[t] + Accepted(Window(0, Some(t)), IP_LIMIT, IP_BLOCK_DUR, Repeat(t, 31))| == 32
    ensures !Passes(After(Window(0, Some(t)), IP_LIMIT, IP_BLOCK_DUR, Repeat(t, 31)), IP_LIMIT, IP_BLOCK_DUR, t)
  {
    Burst(Window(0, Some(t)), IP_LIMIT, IP_BLOCK_DUR, t, 31);
  }

  /* ---------------------------------------------------------------- the blocker */

  /** What is kept about one address. */
  datatype Entry = Entry(requests: Window, ids: set<string>, idsAt: nat)

  datatype Request = Request(ip: string, id: string, now: nat)

  function FirstEntry(now: nat): Entry {
    Entry(Window(0, Some(now)), {}, now)
  }

  function CheckEntry(e: Entry, id: string, now: nat): (Entry, bool) {
    if !Passes(e.requests, IP_LIMIT, IP_BLOCK_DUR, now) then (e, false)
    else
      var e1 := e.(requests := Counted(e.requests, IP_LIMIT, IP_BLOCK_DUR, now));
      var isNew := id !in e.ids;
      var stale := Seconds(e.idsAt, now) > DAY_SECONDS;
      if !stale && |e.ids| > ID_LIMIT then (e1, !isNew)
      else
        var kept := if stale then {} else e.ids;
        (e1.(ids := if isNew then kept + {id} else kept, idsAt := now), true)
  }

  function Check(entries: map<string, Entry>, r: Request): (map<string, Entry>, bool) {
    if r.ip in entries then
      var (e, ok) := CheckEntry(entries[r.ip], r.id, r.now);
      (entries[r.ip := e], ok)
    else (entries[r.ip := FirstEntry(r.now)], true)
  }

  class IpBlocker {
    var entries: map<string, Entry>

    constructor ()
      ensures entries == map[]
    {
      entries := map[];
    }

    /** `check_ip_blocker`. */
    method CheckIp(ip: string, id: string, now: nat) returns (ok: bool)
      modifies this
      ensures (entries, ok) == Check(old(entries), Request(ip, id, now))
    {
      if ip !in entries {
        entries := entries[ip := Entry(Window(0, Some(now)), {}, now)];
        return true;
      }
      var old' := entries[ip];
      var count := old'.requests.count;
      if Quiet(old'.requests, IP_BLOCK_DUR, now) {
        count := 0;
      } else if count > IP_LIMIT {
        assert entries[ip := old'] == entries;
        return false;
      }
      var requests := Window(count + 1, Some(now));
      var ids := old'.ids;
      var isNew := id !in ids;
      if Seconds(old'.idsAt, now) > DAY_SECONDS {
        ids := {};
      } else if |ids| > ID_LIMIT {
        entries := entries[ip := old'.(requests := requests)];
        return !isNew;
      }
      if isNew { ids := ids + {id}; }
      entries := entries[ip := Entry(requests, ids, now)];
      return true;
    }
  }

  function RunBlocker(entries: map<string, Entry>, rs: seq<Request>): map<string, Entry> {
    if rs == [] then entries
    else
      var n := |rs| - 1;
      Check(RunBlocker(entries, rs[..n]), rs[n]).0
  }

  /** The times at which one address asked, after the request that made its entry. */
  function TimesOf(ip: string, rs: seq<Request>): seq<nat> {
    if rs == [] then []
    else
      var n := |rs| - 1;
      TimesOf(ip, rs[..n]) + if rs[n].ip == ip then [rs[n].now] else []
  }

  /** Over every run, each address's counter is that of its own requests alone, however the
      addresses interleave, and its id set never exceeds 301. */
  lemma {:induction false} AddressesIndependent(ip: string, rs: seq<Request>)
    ensures ip in RunBlocker(map[], rs) <==> TimesOf(ip, rs) != []
    ensures TimesOf(ip, rs) != [] ==>
      var ts := TimesOf(ip, rs);
      var e := RunBlocker(map[], rs)[ip];
      e.requests == After(Window(0, Some(ts[0])), IP_LIMIT, IP_BLOCK_DUR, ts[1..]) && |e.ids| <= 301
  {
    hide After, Passes, Counted;
    if rs != [] {
      var n := |rs| - 1;
      AddressesIndependent(ip, rs[..n]);
      if rs[n].ip == ip {
        var ts, us := TimesOf(ip, rs[..n]), TimesOf(ip, rs);
        if ts == [] {
          assert us == [rs[n].now] && us[1..] == [];
          NothingAsked(Window(0, Some(us[0])), IP_LIMIT, IP_BLOCK_DUR);
        } else {
          assert us[1..] == ts[1..] + [rs[n].now];
          OneMore(Window(0, Some(ts[0])), IP_LIMIT, IP_BLOCK_DUR, ts[1..], rs[n].now);
          EntryStep(RunBlocker(map[], rs[..n])[ip], rs[n].id, rs[n].now);
        }
      } else {
        assert TimesOf(ip, rs) == TimesOf(ip, rs[..n]);
      }
    }
  }

  lemma NothingAsked(w: Window, limit: nat, secs: nat)
    ensures After(w, limit, secs, []) == w
  {
  }

  lemma OneMore(w: Window, limit: nat, secs: nat, ts: seq<nat>, t: nat)
    ensures After(w, limit, secs, ts + [t]) == Counted(After(w, limit, secs, ts), limit, secs, t)
  {
    assert (ts + [t])[..|ts|] == ts;
  }

  lemma EntryStep(e: Entry, id: string, now: nat)
    requires |e.ids| <= 301
    ensures CheckEntry(e, id, now).0.requests == Counted(e.requests, IP_LIMIT, IP_BLOCK_DUR, now)
    ensures |CheckEntry(e, id, now).0.ids| <= 301
  {
  }

  /** Does a request move its address's counter? Every one that is let through does. */
  predicate Counts(entries: map<string, Entry>, r: Request) {
    r.ip !in entries || Passes(entries[r.ip].requests, IP_LIMIT, IP_BLOCK_DUR, r.now)
  }

  /** When requests from one address were counted, the one that made its entry included. */
  function CountedTimes(ip: string, rs: seq<Request>): seq<nat> {
    if rs == [] then []
    else
      var n := |rs| - 1;
      CountedTimes(ip, rs[..n])
      + if rs[n].ip == ip && Counts(RunBlocker(map[], rs[..n]), rs[n]) then [rs[n].now] else []
  }

  lemma {:induction false} CountedAreAccepted(ip: string, rs: seq<Request>)
    ensures TimesOf(ip, rs) == [] ==> CountedTimes(ip, rs) == []
    ensures TimesOf(ip, rs) != [] ==>
      var ts := TimesOf(ip, rs);
      CountedTimes(ip, rs) == [ts[0]] + Accepted(Window(0, Some(ts[0])), IP_LIMIT, IP_BLOCK_DUR, ts[1..])
  {
    hide After, Passes, Counted, RunBlocker;
    if rs != [] {
      var n := |rs| - 1;
      CountedAreAccepted(ip, rs[..n]);
      AddressesIndependent(ip, rs[..n]);
      if rs[n].ip == ip {
        var ts, us := TimesOf(ip, rs[..n]), TimesOf(ip, rs);
        if ts == [] {
          assert us[1..] == [];
        } else {
          assert us[1..] == ts[1..] + [rs[n].now];
          AcceptedSnoc(Window(0, Some(ts[0])), IP_LIMIT, IP_BLOCK_DUR, ts[1..], rs[n].now);
        }
      } else {
        assert TimesOf(ip, rs) == TimesOf(ip, rs[..n]) && CountedTimes(ip, rs) == CountedTimes(ip, rs[..n]);
      }
    }
  }

  lemma AcceptedSnoc(w: Window, limit: nat, secs: nat, ts: seq<nat>, t: nat)
    ensures Accepted(w, limit, secs, ts + [t]) ==
      Accepted(w, limit, secs, ts) + if Passes(After(w, limit, secs, ts), limit, secs, t) then [t] else []
  {
    assert (ts + [t])[..|ts|] == ts;
  }

  /** Over every run of the blocker, however addresses interleave: no address has more than 32
      requests counted in a row with no gap over 60 whole seconds. */
  lemma BlockerLimitsEachAddress(ip: string, rs: seq<Request>, i: nat, j: nat)
    requires i <= j <= |CountedTimes(ip, rs)| && Chain(CountedTimes(ip, rs)[i..j], 60)
    ensures j - i <= 32
  {
    hide Chain, Accepted, After;
    CountedAreAccepted(ip, rs);
    if j >= 1 {
      var ts := TimesOf(ip, rs);
      AddressRequestsLimited(ts[0], ts[1..], i, j);
    }
  }

  /* ---------------------------------------------------------------- the verdict */

  /** A request is let through exactly when its address has no entry yet, or its counter is not over 30
      within the last 60 whole seconds and, unless the ids kept are over a day old, its id is among
      them or they are at most 300. */
  lemma VerdictExactly(entries: map<string, Entry>, r: Request)
    ensures Check(entries, r).1 <==>
      r.ip !in entries ||
      var e := entries[r.ip];
      && (e.requests.last.None? || Seconds(e.requests.last.value, r.now) > 60 || e.requests.count <= 30)
      && (Seconds(e.idsAt, r.now) > 86_400 || r.id in e.ids || |e.ids| <= 300)
    ensures Check(entries, r).1 ==> Counts(entries, r)
  {
    hide Seconds;
  }

  /** Which ids are kept: a new one is added to the set, or starts it again when it is over a day old, unless
      it is over 300; a known one adds nothing, and a request that is not counted changes nothing. */
  lemma IdsExactly(entries: map<string, Entry>, r: Request)
    ensures r.ip !in entries ==>
      r.ip in Check(entries, r).0 && Check(entries, r).0[r.ip].ids == {} && Check(entries, r).0[r.ip].idsAt == r.now
    ensures r.ip in entries ==>
      var e, after := entries[r.ip], Check(entries, r).0;
      var stale := Seconds(e.idsAt, r.now) > 86_400;
      && r.ip in after
      && (!Counts(entries, r) ==> after == entries)
      && (Counts(entries, r) ==>
            && after[r.ip].ids == (if stale then {r.id} - e.ids
                                   else if |e.ids| > 300 then e.ids else e.ids + {r.id})
            && after[r.ip].idsAt == if !stale && |e.ids| > 300 then e.idsAt else r.now)
  {
    hide Seconds;
    if r.ip in entries && !Counts(entries, r) { assert entries[r.ip := entries[r.ip]] == entries; }
    if r.ip in entries {
      var e := entries[r.ip];
      assert r.id in e.ids ==> e.ids + {r.id} == e.ids && {r.id} - e.ids == {};
      assert r.id !in e.ids ==> {r.id} - e.ids == {r.id};
    }
  }

  /** When requests from one address were let through. */
  function AnsweredTimes(ip: string, rs: seq<Request>): seq<nat> {
    if rs == [] then []
    else
      var n := |rs| - 1;
      AnsweredTimes(ip, rs[..n])
      + if rs[n].ip == ip && Check(RunBlocker(map[], rs[..n]), rs[n]).1 then [rs[n].now] else []
  }

  predicate Timed(rs: seq<Request>) {
    forall i, j :: 0 <= i < j < |rs| ==> rs[i].now <= rs[j].now
  }

  function LastTime(ts: seq<nat>): nat
    requires ts != []
  {
    ts[|ts| - 1]
  }

  /** Some of the times in `c`, up to its last: their chain at the end is no longer, or is broken. */
  predicate Among(a: seq<nat>, c: seq<nat>) {
    && (a != [] ==> c != [] && LastTime(a) <= LastTime(c))
    && (Tail(a, 60) <= Tail(c, 60) || (a != [] && Seconds(LastTime(a), LastTime(c)) > 60))
  }

  predicate Short(ts: seq<nat>) {
    forall j :: 0 <= j <= |ts| ==> Tail(ts[..j], 60) <= 32
  }

  lemma SecondsGrow(a: nat, b: nat, t: nat, u: nat)
    requires a <= b && t <= u
    ensures Seconds(b, t) <= Seconds(a, u)
  {
  }

  lemma BothMore(a: seq<nat>, c: seq<nat>, t: nat)
    requires Among(a, c) && (c != [] ==> LastTime(c) <= t)
    ensures Among(a + [t], c + [t]) && Tail(a + [t], 60) <= Tail(c + [t], 60)
  {
    hide Tail, Seconds;
    TailSnoc(a, t, 60);
    TailSnoc(c, t, 60);
    if a != [] {
      SecondsGrow(LastTime(a), LastTime(c), t, t);
      SecondsGrow(LastTime(a), LastTime(a), LastTime(c), t);
    }
  }

  lemma CountedMore(a: seq<nat>, c: seq<nat>, t: nat)
    requires Among(a, c) && (c != [] ==> LastTime(c) <= t)
    ensures Among(a, c + [t])
  {
    hide Tail, Seconds;
    TailSnoc(c, t, 60);
    if a != [] {
      SecondsGrow(LastTime(a), LastTime(c), t, t);
      SecondsGrow(LastTime(a), LastTime(a), LastTime(c), t);
    } else {
      NoTail();
    }
  }

  lemma NoTail()
    ensures Tail([], 60) == 0
  {
  }

  lemma ShortMore(a: seq<nat>, t: nat)
    requires Short(a) && Tail(a + [t], 60) <= 32
    ensures Short(a + [t])
  {
    hide Tail;
    var all := a + [t];
    forall j | 0 <= j <= |all| ensures Tail(all[..j], 60) <= 32 {
      if j <= |a| { assert all[..j] == a[..j]; } else { assert all[..j] == all; }
    }
  }

  lemma CountedTail(ip: string, rs: seq<Request>)
    ensures Tail(CountedTimes(ip, rs), 60) <= 32
  {
    hide Accepted, After, CountedTimes;
    CountedAreAccepted(ip, rs);
    var ts := TimesOf(ip, rs);
    if ts == [] {
      NoTail();
    } else {
      CounterIsChain(Window(0, Some(ts[0])), [ts[0]], IP_LIMIT, IP_BLOCK_DUR, ts[1..], 1);
    }
  }

  lemma {:induction false} AnsweredAmongCounted(ip: string, rs: seq<Request>, now: nat)
    requires Timed(rs) && forall i :: 0 <= i < |rs| ==> rs[i].now <= now
    ensures var a, c := AnsweredTimes(ip, rs), CountedTimes(ip, rs);
      Among(a, c) && Short(a) && (c != [] ==> LastTime(c) <= now)
  {
    hide Tail, Seconds, Check, Counts, RunBlocker, Among, Short, AnsweredTimes, CountedTimes;
    NextAnswered(ip, rs);
    if rs == [] {
      NothingAnswered();
    } else {
      var n := |rs| - 1;
      var a, c := AnsweredTimes(ip, rs[..n]), CountedTimes(ip, rs[..n]);
      AnsweredAmongCounted(ip, rs[..n], rs[n].now);
      CountedTail(ip, rs);
      BothMore(a, c, rs[n].now);
      CountedMore(a, c, rs[n].now);
      if AnsweredTimes(ip, rs) != a { ShortMore(a, rs[n].now); }
    }
  }

  /** What the last request adds: nothing, a counted time, or one that is let through as well. */
  lemma NextAnswered(ip: string, rs: seq<Request>)
    ensures rs == [] ==> AnsweredTimes(ip, rs) == [] == CountedTimes(ip, rs)
    ensures rs != [] ==>
      var n := |rs| - 1;
      var a, c := AnsweredTimes(ip, rs[..n]), CountedTimes(ip, rs[..n]);
      || (AnsweredTimes(ip, rs) == a && CountedTimes(ip, rs) == c)
      || (AnsweredTimes(ip, rs) == a && CountedTimes(ip, rs) == c + [rs[n].now])
      || (AnsweredTimes(ip, rs) == a + [rs[n].now] && CountedTimes(ip, rs) == c + [rs[n].now])
  {
    hide Check, Counts, RunBlocker;
    if rs != [] {
      var n := |rs| - 1;
      var a, c := AnsweredTimes(ip, rs[..n]), CountedTimes(ip, rs[..n]);
      VerdictExactly(RunBlocker(map[], rs[..n]), rs[n]);
      assert a + [] == a && c + [] == c;
    }
  }

  lemma NothingAnswered()
    ensures Among([], []) && Short([])
  {
  }

  /** Over every timed run, however addresses interleave: no address has more than 32 requests let through in
      a row with no gap over 60 whole seconds. */
  lemma AnsweredLimited(ip: string, rs: seq<Request>, i: nat, j: nat)
    requires Timed(rs) && i <= j <= |AnsweredTimes(ip, rs)| && Chain(AnsweredTimes(ip, rs)[i..j], 60)
    ensures j - i <= 32
  {
    hide Tail, AnsweredTimes, CountedTimes, Chain;
    var a := AnsweredTimes(ip, rs);
    AnsweredAmongCounted(ip, rs, if rs == [] then 0 else rs[|rs| - 1].now);
    assert a[..j][i..] == a[i..j];
    ChainWithinTail(a[..j], i, 60);
  }

  /** Requests from one address in one instant. */
  predicate AtOnce(rs: seq<Request>, ip: string, t: nat) {
    forall i :: 0 <= i < |rs| ==> rs[i].ip == ip && rs[i].now == t
  }

  lemma {:induction false} TimesAtOnce(rs: seq<Request>, ip: string, t: nat)
    requires AtOnce(rs, ip, t)
    ensures TimesOf(ip, rs) == Repeat(t, |rs|)
  {
    if rs != [] { TimesAtOnce(rs[..|rs| - 1], ip, t); }
  }

  lemma {:induction false} FewIds(ip: string, rs: seq<Request>)
    ensures ip in RunBlocker(map[], rs) ==> |RunBlocker(map[], rs)[ip].ids| < |rs|
  {
    hide Passes, Counted, Seconds;
    if rs != [] { FewIds(ip, rs[..|rs| - 1]); }
  }

  lemma CounterAtOnce(rs: seq<Request>, ip: string, t: nat)
    requires AtOnce(rs, ip, t) && 1 <= |rs| <= 32
    ensures ip in RunBlocker(map[], rs)
    ensures RunBlocker(map[], rs)[ip].requests == Window(|rs| - 1, Some(t))
  {
    hide RunBlocker, After, Accepted;
    TimesAtOnce(rs, ip, t);
    AddressesIndependent(ip, rs);
    var n := |rs| - 1;
    assert Repeat(t, |rs|)[1..] == Repeat(t, n);
    Burst(Window(0, Some(t)), IP_LIMIT, IP_BLOCK_DUR, t, n);
  }

  /** And the bound is met: of requests from one address in one instant, whatever their ids, the first 32 are
      let through and the 33rd is refused. */
  lemma ThirtyThirdRefused(rs: seq<Request>, ip: string, t: nat, k: nat)
    requires AtOnce(rs, ip, t) && k < |rs| && k <= 32
    ensures Check(RunBlocker(map[], rs[..k]), rs[k]).1 <==> k < 32
  {
    hide RunBlocker, Check;
    VerdictExactly(RunBlocker(map[], rs[..k]), rs[k]);
    if k > 0 {
      CounterAtOnce(rs[..k], ip, t);
      FewIds(ip, rs[..k]);
    } else {
      AddressesIndependent(ip, rs[..0]);
    }
  }

  /** Three registrations in one instant pass, a fourth does not. */
  lemma ThreeReached(t: nat)
    ensures |Accepted(Window(0, None), REG_PK_LIMIT, REG_PK_DUR, Repeat(t, 3))| == 3
    ensures !Passes(After(Window(0, None), REG_PK_LIMIT, REG_PK_DUR, Repeat(t, 3)), REG_PK_LIMIT, REG_PK_DUR, t)
  {
    var one := Window(1, Some(t));
    assert Repeat(t, 3) == [t, t, t] && [t, t, t][..2] == [t, t] && [t, t][..1] == [t] && [t][..0] == [];
    assert After(Window(0, None), REG_PK_LIMIT, REG_PK_DUR, [t]) == one;
    assert After(Window(0, None), REG_PK_LIMIT, REG_PK_DUR, [t, t]) == Window(2, Some(t));
    assert |Accepted(Window(0, None), REG_PK_LIMIT, REG_PK_DUR, [t])| == 1;
    assert |Accepted(Window(0, None), REG_PK_LIMIT, REG_PK_DUR, [t, t])| == 2;
  }
}
