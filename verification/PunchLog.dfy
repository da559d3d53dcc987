/**
 The bounded log of punch-hole requests: repeats within a minute are dropped, but only the last
 30 entries are searched for them.  Times are milliseconds and never go back.
 */
module PunchLog {
  import opened Basics
  import opened Limiters

  const PUNCH_REQ_DEDUPE_SEC: nat := 60
  const TAIL: nat := 30

  datatype PunchReq = PunchReq(tm: nat, fromIp: string, toIp: string, toId: string)

  datatype Cmd = Req(now: nat, fromIp: string, toIp: string, toId: string) | Clear

  predicate Same(e: PunchReq, fromIp: string, toId: string) {
    e.fromIp == fromIp && e.toId == toId
  }

  /** The latest entry for this source and target among the last `k`. */
  function Latest(log: seq<PunchReq>, k: nat, fromIp: string, toId: string): Option<PunchReq> {
    if log == [] || k == 0 then None
    else if Same(log[|log| - 1], fromIp, toId) then Some(log[|log| - 1])
    else Latest(log[..|log| - 1], k - 1, fromIp, toId)
  }

  predicate Repeats(log: seq<PunchReq>, fromIp: string, toId: string, now: nat) {
    var e := Latest(log, TAIL, fromIp, toId);
    e.Some? && Seconds(e.value.tm, now) < PUNCH_REQ_DEDUPE_SEC
  }

  /** With no bound on how much is kept. */
  function RecordFull(log: seq<PunchReq>, c: Cmd): seq<PunchReq> {
    match c
    case Clear => []
    case Req(now, fromIp, toIp, toId) =>
      if Repeats(log, fromIp, toId, now) then log else log + [PunchReq(now, fromIp, toIp, toId)]
  }

  function RecordBounded(log: seq<PunchReq>, max: nat, c: Cmd): seq<PunchReq> {
    match c
    case Clear => []
    case Req(now, fromIp, toIp, toId) =>
      if max == 0 || Repeats(log, fromIp, toId, now) then log
      else (if |log| >= max && log != [] then log[1..] else log) + [PunchReq(now, fromIp, toIp, toId)]
  }

  function Full(cs: seq<Cmd>): seq<PunchReq> {
    if cs == [] then [] else RecordFull(Full(cs[..|cs| - 1]), cs[|cs| - 1])
  }

  function Bounded(max: nat, cs: seq<Cmd>): seq<PunchReq> {
    if cs == [] then [] else RecordBounded(Bounded(max, cs[..|cs| - 1]), max, cs[|cs| - 1])
  }

  function Last(log: seq<PunchReq>, n: nat): seq<PunchReq> {
    if |log| <= n then log else log[|log| - n..]
  }

  /** The log as the server holds it. */
  class PunchRequests {
    var entries: seq<PunchReq>
    const max: nat

    constructor (max: nat)
      ensures entries == [] && this.max == max
    {
      entries := [];
      this.max := max;
    }

    /** `record_punch_req`: search back through the tail, stop at the first match. */
    method Record(now: nat, fromIp: string, toIp: string, toId: string)
      modifies this`entries
      ensures entries == RecordBounded(old(entries), max, Req(now, fromIp, toIp, toId))
    {
      if max == 0 { return; }
      var dup := false;
      var k := 0;
      assert entries[..|entries|] == entries;
      while k < TAIL && k < |entries|
        invariant 0 <= k <= TAIL && k <= |entries|
        invariant !dup
        invariant Latest(entries, TAIL, fromIp, toId) == Latest(entries[..|entries| - k], TAIL - k, fromIp, toId)
      {
        var e := entries[|entries| - 1 - k];
        ghost var front := entries[..|entries| - k];
        assert front[|front| - 1] == e && front[..|front| - 1] == entries[..|entries| - k - 1];
        if Same(e, fromIp, toId) {
          if Seconds(e.tm, now) < PUNCH_REQ_DEDUPE_SEC { dup := true; }
          break;
        }
        k := k + 1;
      }
      if !dup {
        if |entries| >= max { entries := entries[1..]; }
        entries := entries + [PunchReq(now, fromIp, toIp, toId)];
      }
    }

    /** `punch-requests -`. */
    method Forget()
      modifies this`entries
      ensures entries == RecordBounded(old(entries), max, Clear)
    {
      entries := [];
    }
  }

  /* ---------------------------------------------------------------- bounded against unbounded */

  lemma {:induction false} LatestOfLast(log: seq<PunchReq>, m: nat, k: nat, fromIp: string, toId: string)
    requires k <= m
    ensures Latest(Last(log, m), k, fromIp, toId) == Latest(log, k, fromIp, toId)
    decreases k
  {
    if k > 0 && |log| > m {
      var n := |log| - 1;
      var t := Last(log, m);
      assert t[|t| - 1] == log[n];
      assert t[..|t| - 1] == Last(log[..n], m - 1);
      LatestOfLast(log[..n], m - 1, k - 1, fromIp, toId);
    }
  }

  /** From 30 up (and with no log at all) the bounded log is the end of the unbounded one. */
  lemma {:induction false} BoundedIsEndOfFull(max: nat, cs: seq<Cmd>)
    requires max == 0 || max >= TAIL
    ensures Bounded(max, cs) == Last(Full(cs), max)
  {
    hide Latest;
    if cs != [] {
      var n := |cs| - 1;
      BoundedIsEndOfFull(max, cs[..n]);
      var full := Full(cs[..n]);
      if max > 0 && cs[n].Req? {
        LatestOfLast(full, max, TAIL, cs[n].fromIp, cs[n].toId);
        LastSnoc(full, PunchReq(cs[n].now, cs[n].fromIp, cs[n].toIp, cs[n].toId), max);
      }
    }
  }

  /** Keeping the end of a longer log is dropping the oldest of the end kept so far, if it is full. */
  lemma LastSnoc(log: seq<PunchReq>, e: PunchReq, n: nat)
    requires n >= 1
    ensures var t := Last(log, n);
      Last(log + [e], n) == (if |t| >= n && t != [] then t[1..] else t) + [e]
  {
  }

  lemma FullSnoc(cs: seq<Cmd>, c: Cmd)
    ensures Full(cs + [c]) == RecordFull(Full(cs), c)
  {
    hide RecordFull;
    assert (cs + [c])[..|cs|] == cs;
  }

  lemma BoundedSnoc(max: nat, cs: seq<Cmd>, c: Cmd)
    ensures Bounded(max, cs + [c]) == RecordBounded(Bounded(max, cs), max, c)
  {
    hide RecordBounded;
    assert (cs + [c])[..|cs|] == cs;
  }

  /* A caller that asks for one peer after another, and then for the first again. */

  const CALLER: string := "203.0.113.7"
  const CALLEE: string := "198.51.100.9"

  function Stars(n: nat): (s: string)
    ensures |s| == n
  {
    if n == 0 then "" else Stars(n - 1) + "*"
  }

  /** Ids of peers, no shorter than an id may be, and no two alike. */
  function Target(k: nat): (id: string)
    ensures |id| == k + 6
  {
    Stars(k + 6)
  }

  function Ask(k: nat): Cmd { Req(0, CALLER, CALLEE, Target(k)) }

  function Asked(k: nat): PunchReq { PunchReq(0, CALLER, CALLEE, Target(k)) }

  /** Requests for `k` peers, all at once. */
  function Spread(k: nat): (cs: seq<Cmd>)
    ensures |cs| == k
  {
    if k == 0 then [] else Spread(k - 1) + [Ask(k - 1)]
  }

  function SpreadLog(k: nat): (log: seq<PunchReq>)
    ensures |log| == k && forall i :: 0 <= i < k ==> log[i] == Asked(i)
  {
    if k == 0 then [] else SpreadLog(k - 1) + [Asked(k - 1)]
  }

  lemma {:induction false} NoneSame(log: seq<PunchReq>, k: nat, fromIp: string, toId: string)
    requires forall i :: 0 <= i < |log| ==> log[i].toId != toId
    ensures Latest(log, k, fromIp, toId) == None
  {
    if log != [] && k > 0 { NoneSame(log[..|log| - 1], k - 1, fromIp, toId); }
  }

  /** Which peers the end of the log names, by the length of their ids. */
  lemma SpreadLength(k: nat, m: nat, i: nat)
    requires i < |Last(SpreadLog(k), m)|
    ensures |Last(SpreadLog(k), m)| == if k <= m then k else m
    ensures |Last(SpreadLog(k), m)[i].toId| == i + (if k <= m then 0 else k - m) + 6
  {
    hide SpreadLog, Target;
    var x := i + if k <= m then 0 else k - m;
    assert Last(SpreadLog(k), m)[i] == SpreadLog(k)[x] == Asked(x);
  }

  lemma NewTarget(k: nat, m: nat)
    ensures !Repeats(Last(SpreadLog(k), m), CALLER, Target(k), 0)
  {
    hide Latest, SpreadLog, Target, Last;
    var log := Last(SpreadLog(k), m);
    forall i | 0 <= i < |log| ensures log[i].toId != Target(k) {
      SpreadLength(k, m, i);
    }
    NoneSame(log, TAIL, CALLER, Target(k));
  }

  lemma RecordNew(log: seq<PunchReq>, max: nat, k: nat)
    requires max >= 1 && !Repeats(log, CALLER, Target(k), 0)
    ensures RecordFull(log, Ask(k)) == log + [Asked(k)]
    ensures RecordBounded(log, max, Ask(k)) == (if |log| >= max && log != [] then log[1..] else log) + [Asked(k)]
  {
    hide Repeats, Target;
  }

  lemma {:induction false} SpreadFull(k: nat)
    ensures Full(Spread(k)) == SpreadLog(k)
  {
    hide Repeats, RecordFull, RecordBounded, Full, Ask, Asked;
    if k == 0 {
      NothingLogged(1);
    } else {
      SpreadFull(k - 1);
      FullSnoc(Spread(k - 1), Ask(k - 1));
      NewTarget(k - 1, k - 1);
      assert Last(SpreadLog(k - 1), k - 1) == SpreadLog(k - 1);
      RecordNew(SpreadLog(k - 1), 1, k - 1);
    }
  }

  lemma NothingLogged(max: nat)
    ensures Full([]) == [] == Bounded(max, []) == Last([], max)
  {
  }

  lemma {:induction false} SpreadBounded(max: nat, k: nat)
    requires 1 <= max
    ensures Bounded(max, Spread(k)) == Last(SpreadLog(k), max)
  {
    hide Repeats, RecordFull, RecordBounded, Bounded, Last, Ask, Asked;
    if k == 0 {
      NothingLogged(max);
    } else {
      SpreadBounded(max, k - 1);
      BoundedSnoc(max, Spread(k - 1), Ask(k - 1));
      NewTarget(k - 1, max);
      RecordNew(Last(SpreadLog(k - 1), max), max, k - 1);
      LastSnoc(SpreadLog(k - 1), Asked(k - 1), max);
    }
  }

  lemma {:induction false} FirstFound(k: nat, j: nat)
    requires 1 <= j <= k <= TAIL
    ensures Latest(SpreadLog(k)[..j], TAIL - (k - j), CALLER, Target(0)) == Some(Asked(0))
  {
    hide SpreadLog, Target;
    var front := SpreadLog(k)[..j];
    assert front[j - 1] == Asked(j - 1);
    if j > 1 {
      assert |Target(j - 1)| != |Target(0)|;
      assert front[..j - 1] == SpreadLog(k)[..j - 1];
      FirstFound(k, j - 1);
    }
  }

  lemma FirstRemembered(max: nat)
    requires 1 <= max < TAIL
    ensures Repeats(SpreadLog(max + 1), CALLER, Target(0), 0)
  {
    hide Latest, SpreadLog, Target;
    FirstFound(max + 1, max + 1);
    assert SpreadLog(max + 1)[..max + 1] == SpreadLog(max + 1);
  }

  lemma FirstForgotten(max: nat)
    requires 1 <= max
    ensures !Repeats(Last(SpreadLog(max + 1), max), CALLER, Target(0), 0)
  {
    hide Latest, SpreadLog, Target, Last;
    var kept := Last(SpreadLog(max + 1), max);
    forall i | 0 <= i < |kept| ensures kept[i].toId != Target(0) {
      SpreadLength(max + 1, max, i);
    }
    NoneSame(kept, TAIL, CALLER, Target(0));
  }

  /** A bound from 1 to 29 is not enough: fill the log past the bound and ask again for the first
      peer. The bounded log has let go of it and records it again; the unbounded one finds it. */
  lemma SmallBoundDiffers(max: nat)
    requires 1 <= max < TAIL
    ensures var cs := Spread(max + 1) + [Ask(0)];
      Bounded(max, cs) != Last(Full(cs), max)
  {
    hide Repeats, RecordBounded, Spread, SpreadLog, Target;
    var full := SpreadLog(max + 1);
    SpreadFull(max + 1);
    SpreadBounded(max, max + 1);
    FirstRemembered(max);
    FirstForgotten(max);
    FullSnoc(Spread(max + 1), Ask(0));
    BoundedSnoc(max, Spread(max + 1), Ask(0));
    RecordNew(Last(full, max), max, 0);
    var cs := Spread(max + 1) + [Ask(0)];
    var b, f := Bounded(max, cs), Last(Full(cs), max);
    assert b[|b| - 1] == Asked(0);
    assert f[|f| - 1] == Asked(max);
    assert |Target(max)| != |Target(0)|;
  }

  /** So the bounded log is always the end of the unbounded one exactly when the bound is 0 or at least 30. */
  lemma BoundIsFaithfulExactlyWhen(max: nat)
    ensures (forall cs :: Bounded(max, cs) == Last(Full(cs), max)) <==> max == 0 || max >= 30
  {
    if max == 0 || max >= TAIL {
      forall cs ensures Bounded(max, cs) == Last(Full(cs), max) { BoundedIsEndOfFull(max, cs); }
    } else {
      SmallBoundDiffers(max);
    }
  }

  /* ---------------------------------------------------------------- spacing */

  predicate Timed(cs: seq<Cmd>) {
    forall i, j :: 0 <= i < j < |cs| && cs[i].Req? && cs[j].Req? ==> cs[i].now <= cs[j].now
  }

  /** Kept repeats less than a minute apart are at least 31 places apart. */
  predicate Spaced(log: seq<PunchReq>) {
    forall i, j :: 0 <= i < j < |log| && log[i].fromIp == log[j].fromIp && log[i].toId == log[j].toId ==>
      Seconds(log[i].tm, log[j].tm) >= 60 || j - i >= 31
  }

  predicate NoLaterThan(log: seq<PunchReq>, now: nat) {
    && (forall i :: 0 <= i < |log| ==> log[i].tm <= now)
    && (forall i, j :: 0 <= i < j < |log| ==> log[i].tm <= log[j].tm)
  }

  lemma {:induction false} LatestIsLater(log: seq<PunchReq>, k: nat, i: nat, fromIp: string, toId: string)
    requires i < |log| && |log| - i <= k && Same(log[i], fromIp, toId)
    requires forall i, j :: 0 <= i < j < |log| ==> log[i].tm <= log[j].tm
    ensures var e := Latest(log, k, fromIp, toId); e.Some? && e.value.tm >= log[i].tm
  {
    var n := |log| - 1;
    if i < n && !Same(log[n], fromIp, toId) {
      LatestIsLater(log[..n], k - 1, i, fromIp, toId);
    }
  }

  lemma AppendSpaced(log: seq<PunchReq>, c: Cmd)
    requires c.Req? && Spaced(log) && NoLaterThan(log, c.now)
    requires !Repeats(log, c.fromIp, c.toId, c.now)
    ensures var more := log + [PunchReq(c.now, c.fromIp, c.toIp, c.toId)];
      Spaced(more) && NoLaterThan(more, c.now)
  {
    hide Latest;
    forall i | 0 <= i < |log| && Same(log[i], c.fromIp, c.toId)
      ensures Seconds(log[i].tm, c.now) >= PUNCH_REQ_DEDUPE_SEC || |log| - i >= 31
    {
      if |log| - i <= TAIL {
        LatestIsLater(log, TAIL, i, c.fromIp, c.toId);
        LaterIsSooner(log[i].tm, Latest(log, TAIL, c.fromIp, c.toId).value.tm, c.now);
      }
    }
  }

  lemma LaterIsSooner(a: nat, b: nat, now: nat)
    requires a <= b
    ensures Seconds(b, now) <= Seconds(a, now)
  {
  }

  lemma DropFirstSpaced(log: seq<PunchReq>, now: nat)
    requires log != [] && Spaced(log) && NoLaterThan(log, now)
    ensures Spaced(log[1..]) && NoLaterThan(log[1..], now)
  {
    var rest := log[1..];
    forall i, j | 0 <= i < j < |rest| && Same(rest[i], rest[j].fromIp, rest[j].toId)
      ensures Seconds(rest[i].tm, rest[j].tm) >= PUNCH_REQ_DEDUPE_SEC || j - i >= 31
    {
      assert rest[i] == log[i + 1] && rest[j] == log[j + 1];
      assert (j + 1) - (i + 1) == j - i;
    }
  }

  lemma SpacedStep(log: seq<PunchReq>, max: nat, c: Cmd)
    requires Spaced(log)
    requires c.Req? ==> NoLaterThan(log, c.now)
    ensures Spaced(RecordBounded(log, max, c))
    ensures c.Req? ==> NoLaterThan(RecordBounded(log, max, c), c.now)
  {
    hide Repeats, Spaced, NoLaterThan;
    if c.Clear? {
      NothingToSpace();
    } else if max > 0 && !Repeats(log, c.fromIp, c.toId, c.now) {
      var more := log + [PunchReq(c.now, c.fromIp, c.toIp, c.toId)];
      AppendSpaced(log, c);
      if |log| >= max && log != [] {
        DropFirstSpaced(more, c.now);
        assert more[1..] == log[1..] + [PunchReq(c.now, c.fromIp, c.toIp, c.toId)];
      }
    }
  }

  /** For every capacity and every timed run, two kept entries with the same source and target less
      than 60 seconds apart are at least 31 positions apart. */
  lemma {:induction false} KeptRepeatsAreSpaced(max: nat, cs: seq<Cmd>, now: nat)
    requires Timed(cs)
    requires forall i :: 0 <= i < |cs| && cs[i].Req? ==> cs[i].now <= now
    ensures Spaced(Bounded(max, cs)) && NoLaterThan(Bounded(max, cs), now)
  {
    hide Spaced, RecordBounded;
    if cs == [] {
      assert Spaced([]) by { NothingToSpace(); }
    } else {
      var n := |cs| - 1;
      var upto := if cs[n].Req? then cs[n].now else now;
      KeptRepeatsAreSpaced(max, cs[..n], upto);
      SpacedStep(Bounded(max, cs[..n]), max, cs[n]);
      ClearedIsEmpty(Bounded(max, cs[..n]), max);
    }
  }

  lemma NothingToSpace()
    ensures Spaced([])
  {
  }

  lemma ClearedIsEmpty(log: seq<PunchReq>, max: nat)
    ensures RecordBounded(log, max, Clear) == []
  {
  }

  /* ---------------------------------------------------------------- what is dropped */

  /** Entry `i` is the latest of the last `k` with this source ip and target id. */
  predicate IsLatest(log: seq<PunchReq>, k: nat, i: nat, fromIp: string, toId: string) {
    && i < |log| && |log| - k <= i
    && log[i].fromIp == fromIp && log[i].toId == toId
    && forall j :: i < j < |log| ==> log[j].fromIp != fromIp || log[j].toId != toId
  }

  lemma {:induction false} LatestIs(log: seq<PunchReq>, k: nat, i: nat, fromIp: string, toId: string)
    requires IsLatest(log, k, i, fromIp, toId)
    ensures Latest(log, k, fromIp, toId) == Some(log[i])
  {
    var n := |log| - 1;
    if i < n { LatestIs(log[..n], k - 1, i, fromIp, toId); }
  }

  lemma {:induction false} LatestExists(log: seq<PunchReq>, k: nat, fromIp: string, toId: string) returns (i: nat)
    requires Latest(log, k, fromIp, toId).Some?
    ensures IsLatest(log, k, i, fromIp, toId)
  {
    var n := |log| - 1;
    if Same(log[n], fromIp, toId) { i := n; } else { i := LatestExists(log[..n], k - 1, fromIp, toId); }
  }

  /** The latest of the last 30 entries with this source ip and target id is less than 60 seconds old. */
  predicate RecentlyAsked(log: seq<PunchReq>, fromIp: string, toId: string, now: nat) {
    exists i :: 0 <= i < |log| && IsLatest(log, 30, i, fromIp, toId) && Seconds(log[i].tm, now) < 60
  }

  lemma RepeatsExactlyWhen(log: seq<PunchReq>, fromIp: string, toId: string, now: nat)
    ensures Repeats(log, fromIp, toId, now) <==> RecentlyAsked(log, fromIp, toId, now)
  {
    hide Latest, IsLatest, Seconds;
    if Latest(log, 30, fromIp, toId).Some? {
      var i := LatestExists(log, 30, fromIp, toId);
      LatestIs(log, 30, i, fromIp, toId);
      assert i < |log| by { LatestInRange(log, 30, i, fromIp, toId); }
    }
    if i :| 0 <= i < |log| && IsLatest(log, 30, i, fromIp, toId) && Seconds(log[i].tm, now) < 60 {
      LatestIs(log, 30, i, fromIp, toId);
    }
  }

  lemma LatestInRange(log: seq<PunchReq>, k: nat, i: nat, fromIp: string, toId: string)
    requires IsLatest(log, k, i, fromIp, toId)
    ensures i < |log|
  {
  }

  lemma {:induction false} NeverOverMax(max: nat, cs: seq<Cmd>)
    ensures |Bounded(max, cs)| <= max
  {
    hide Repeats;
    if cs != [] { NeverOverMax(max, cs[..|cs| - 1]); }
  }

  /** On every run, a request is dropped if and only if nothing is kept at all or it was asked recently; and
      otherwise it is put at the end, the oldest going if there were `max` already. */
  lemma DroppedExactlyWhen(max: nat, cs: seq<Cmd>, now: nat, fromIp: string, toIp: string, toId: string)
    ensures var log := Bounded(max, cs);
      Bounded(max, cs + [Req(now, fromIp, toIp, toId)]) ==
        if max == 0 || RecentlyAsked(log, fromIp, toId, now) then log
        else Last(log, max - 1) + [PunchReq(now, fromIp, toIp, toId)]
  {
    hide Repeats, RecentlyAsked, Bounded;
    var log := Bounded(max, cs);
    BoundedSnoc(max, cs, Req(now, fromIp, toIp, toId));
    RepeatsExactlyWhen(log, fromIp, toId, now);
    NeverOverMax(max, cs);
  }
}
