/**
 One relayed session in `hbbr`: forwarding both ways, accounting in windows of at least a
 second, and the downgrade of a session that is too busy for too long.
 */
module RelayLoop {
  type Frame = seq<nat>

  /** What ended a turn's wait: a frame (and whether it could be sent on), a closed end, or the timer. */
  datatype Wake =
    | FromPeer(frame: Frame, sent: bool)
    | FromStream(frame: Frame, sent: bool)
    | Closed
    | Timer(silent: bool)

  /** One turn of the loop: what woke it, how long the current window has lasted in ms, and whether
      the address is then on the block list or the black list, and after how many ms sessions are then
      checked for being too busy. */
  datatype Turn = Turn(wake: Wake, n: nat, blocked: bool, black: bool, startCheck: nat)

  /** Bits per ms above which a session is too busy. */
  datatype Config = Config(threshold: nat)

  datatype Usage = Usage(elapsed: nat, total: nat, highest: nat, speed: nat)

  datatype End = Going | Finished | SendFailed | TimedOut

  datatype Session = Session(
    total: nat, window: nat, elapsed: nat, highest: nat, downgrade: bool, blacked: bool,
    usage: Usage, end: End,
    fromPeer: seq<Frame>, fromStream: seq<Frame>, toStream: seq<Frame>, toPeer: seq<Frame>,
    fast: nat, slow: nat)   // bits charged to the session's own limiter and to the slow one

  const NEW_SESSION: Session :=
    Session(0, 0, 0, 0, false, false, Usage(0, 0, 0, 0), Going, [], [], [], [], 0, 0)

  function Charged(s: Session, bits: nat): Session {
    var t := s.(total := s.total + bits, window := s.window + bits);
    if s.blacked || s.downgrade then t.(slow := t.slow + bits) else t.(fast := t.fast + bits)
  }

  function NonEmptyFrames(fs: seq<Frame>): seq<Frame> {
    if fs == [] then [] else NonEmptyFrames(fs[..|fs| - 1]) + if fs[|fs| - 1] == [] then [] else [fs[|fs| - 1]]
  }

  function Woken(s: Session, w: Wake): Session {
    match w
    case FromPeer(f, sent) =>
      var t := Charged(s, |f| * 8).(fromPeer := s.fromPeer + [f]);
      if f == [] then t else if sent then t.(toStream := t.toStream + [f]) else t.(end := SendFailed)
    case FromStream(f, sent) =>
      var t := Charged(s, |f| * 8).(fromStream := s.fromStream + [f]);
      if f == [] then t else if sent then t.(toPeer := t.toPeer + [f]) else t.(end := SendFailed)
    case Closed => s.(end := Finished)
    case Timer(silent) => if silent then s.(end := TimedOut) else s
  }

  const WINDOW_MS: nat := 1000

  predicate TooBusy(cfg: Config, startCheck: nat, elapsed: nat, total: nat) {
    elapsed > startCheck && total > elapsed * cfg.threshold
  }

  /** The end of a window: report, and perhaps downgrade. */
  function WindowEnded(cfg: Config, s: Session, n: nat, black: bool, startCheck: nat): Session
    requires n > 0
  {
    var speed := s.window / n;
    var highest := if speed > s.highest then speed else s.highest;
    var elapsed := s.elapsed + n;
    s.(blacked := black, highest := highest, elapsed := elapsed, window := 0,
       usage := Usage(elapsed, s.total, highest, speed),
       downgrade := s.downgrade || TooBusy(cfg, startCheck, elapsed, s.total))
  }

  function Step(cfg: Config, s: Session, t: Turn): Session {
    if !s.end.Going? then s
    else
      var w := Woken(s, t.wake);
      if !w.end.Going? || t.n < WINDOW_MS then w
      else if t.blocked then w.(end := Finished)
      else WindowEnded(cfg, w, t.n, t.black, t.startCheck)
  }

  function Run(cfg: Config, ts: seq<Turn>): Session {
    if ts == [] then NEW_SESSION else Step(cfg, Run(cfg, ts[..|ts| - 1]), ts[|ts| - 1])
  }

  lemma {:induction false} EndedStays(cfg: Config, ts: seq<Turn>, us: seq<Turn>)
    requires !Run(cfg, ts).end.Going?
    ensures Run(cfg, ts + us) == Run(cfg, ts)
  {
    if us == [] {
      assert ts + us == ts;
    } else {
      var n := |us| - 1;
      EndedStays(cfg, ts, us[..n]);
      var all := ts + us;
      assert all[..|all| - 1] == ts + us[..n];
    }
  }

  /** `relay`: the loop, its local variables kept in one record, against the run above. */
  method Relay(cfg: Config, turns: seq<Turn>) returns (s: Session)
    ensures s == Run(cfg, turns)
  {
    hide Woken, WindowEnded;
    s := NEW_SESSION;
    var i := 0;
    while i < |turns|
      invariant 0 <= i <= |turns|
      invariant s == Run(cfg, turns[..i]) && s.end == Going
    {
      var t := turns[i];
      assert turns[..i + 1][..i] == turns[..i];
      assert turns[..i + 1] + turns[i + 1..] == turns;
      i := i + 1;
      s := Received(s, t.wake);
      if s.end == Going && t.n >= WINDOW_MS {
        if t.blocked {
          s := s.(end := Finished);
        } else {
          s := EndWindow(cfg, s, t.n, t.black, t.startCheck);
        }
      }
      assert s == Run(cfg, turns[..i]);
      if s.end != Going {
        EndedStays(cfg, turns[..i], turns[i..]);
        return;
      }
    }
    assert turns[..i] == turns;
  }

  method EndWindow(cfg: Config, before: Session, n: nat, black: bool, startCheck: nat) returns (s: Session)
    requires n > 0
    ensures s == WindowEnded(cfg, before, n, black, startCheck)
  {
    s := before.(blacked := black);
    var speed := s.window / n;
    if speed > s.highest { s := s.(highest := speed); }
    s := s.(elapsed := s.elapsed + n);
    s := s.(usage := Usage(s.elapsed, s.total, s.highest, speed), window := 0);
    if s.elapsed > startCheck && !s.downgrade && s.total > s.elapsed * cfg.threshold {
      s := s.(downgrade := true);
    }
  }

  method Charge(before: Session, nb: nat) returns (s: Session)
    ensures s == Charged(before, nb)
  {
    s := before;
    if s.blacked || s.downgrade { s := s.(slow := s.slow + nb); } else { s := s.(fast := s.fast + nb); }
    s := s.(total := s.total + nb, window := s.window + nb);
  }

  /** The select: a frame from one side is charged, counted and sent to the other. */
  method Received(before: Session, w: Wake) returns (s: Session)
    ensures s == Woken(before, w)
  {
    hide Charged;
    s := before;
    match w {
      case FromPeer(f, sent) =>
        var nb := |f| * 8;
        s := Charge(s, nb);
        s := s.(fromPeer := before.fromPeer + [f]);
        if f != [] {
          if sent { s := s.(toStream := s.toStream + [f]); } else { s := s.(end := SendFailed); }
        }
      case FromStream(f, sent) =>
        var nb := |f| * 8;
        s := Charge(s, nb);
        s := s.(fromStream := before.fromStream + [f]);
        if f != [] {
          if sent { s := s.(toPeer := s.toPeer + [f]); } else { s := s.(end := SendFailed); }
        }
      case Closed => s := s.(end := Finished);
      case Timer(silent) => if silent { s := s.(end := TimedOut); }
    }
  }

  /* ---------------------------------------------------------------- average and highest */

  /** What is reported fits under the highest window speed, and so does what has been counted so far. */
  predicate UnderHighest(s: Session) {
    && s.window <= s.total
    && s.total - s.window <= s.elapsed * (s.highest + 1)
    && (s.elapsed > 0 ==> s.total - s.window < s.elapsed * (s.highest + 1))
    && (s.usage.elapsed > 0 ==> s.usage.total < s.usage.elapsed * (s.usage.highest + 1))
  }

  lemma WindowUnder(w: nat, n: nat)
    requires n > 0
    ensures w < n * (w / n + 1)
  {
  }

  lemma MulMono(a: nat, b: nat, c: nat)
    requires b <= c
    ensures a * b <= a * c
  {
  }

  lemma WindowUnderHighest(cfg: Config, s: Session, n: nat, black: bool, startCheck: nat)
    requires UnderHighest(s) && n > 0
    ensures UnderHighest(WindowEnded(cfg, s, n, black, startCheck))
  {
    hide TooBusy;
    var h := WindowEnded(cfg, s, n, black, startCheck).highest;
    WindowAdds(s.window, s.total - s.window, n, s.elapsed, s.highest, h);
  }

  /** A window of `n` ms adds less than one more than the highest speed allows for it. */
  lemma WindowAdds(window: nat, before: nat, n: nat, elapsed: nat, highest: nat, h: nat)
    requires n > 0 && window / n <= h && highest <= h && before <= elapsed * (highest + 1)
    ensures window + before < (elapsed + n) * (h + 1)
  {
    WindowUnder(window, n);
    MulMono(n, window / n + 1, h + 1);
    MulMono(elapsed, highest + 1, h + 1);
    assert (elapsed + n) * (h + 1) == elapsed * (h + 1) + n * (h + 1);
  }

  lemma {:induction false} RunUnderHighest(cfg: Config, ts: seq<Turn>)
    ensures UnderHighest(Run(cfg, ts))
  {
    hide WindowEnded, UnderHighest;
    if ts == [] {
      NewUnderHighest();
    } else {
      var n := |ts| - 1;
      RunUnderHighest(cfg, ts[..n]);
      var s, t := Run(cfg, ts[..n]), ts[n];
      WokenUnderHighest(s, t.wake);
      var w := Woken(s, t.wake);
      if t.n >= WINDOW_MS { WindowUnderHighest(cfg, w, t.n, t.black, t.startCheck); }
      EndUnderHighest(w);
    }
  }

  lemma NewUnderHighest()
    ensures UnderHighest(NEW_SESSION)
  {
  }

  lemma WokenUnderHighest(s: Session, w: Wake)
    requires UnderHighest(s)
    ensures UnderHighest(Woken(s, w))
  {
  }

  lemma EndUnderHighest(s: Session)
    requires UnderHighest(s)
    ensures UnderHighest(s.(end := Finished))
  {
  }

  /** In every usage report, the average speed is at most the highest window speed. */
  lemma AverageAtMostHighest(cfg: Config, ts: seq<Turn>)
    ensures var u := Run(cfg, ts).usage;
      u.elapsed > 0 ==> u.total / u.elapsed <= u.highest
  {
    hide Run;
    RunUnderHighest(cfg, ts);
    var u := Run(cfg, ts).usage;
    if u.elapsed > 0 { QuotientBelow(u.total, u.elapsed, u.highest); }
  }

  lemma QuotientBelow(a: nat, n: nat, q: nat)
    requires n > 0 && a < n * (q + 1)
    ensures a / n <= q
  {
    var d := q + 1 - a / n;
    assert n * (a / n) <= a;
    assert n * d == n * (q + 1) - n * (a / n);
    assert n * d > 0;
  }

  /* ---------------------------------------------------------------- downgrade */

  /** Whether a turn ends a window. */
  predicate EndsWindow(s: Session, t: Turn) {
    s.end.Going? && Woken(s, t.wake).end.Going? && t.n >= 1000 && !t.blocked
  }

  function SpeedOf(window: nat, n: nat): nat
    requires n > 0
  {
    window / n
  }

  /** The bits a turn brings in. */
  function WakeBits(w: Wake): nat {
    if w.FromPeer? || w.FromStream? then |w.frame| * 8 else 0
  }

  /** The bits that came in since the last window ended. */
  function SinceWindow(cfg: Config, ts: seq<Turn>): nat {
    if ts == [] then 0
    else
      var n := |ts| - 1;
      var s := Run(cfg, ts[..n]);
      if EndsWindow(s, ts[n]) then 0
      else SinceWindow(cfg, ts[..n]) + if s.end.Going? then WakeBits(ts[n].wake) else 0
  }

  lemma WokenWindow(s: Session, w: Wake)
    ensures Woken(s, w).window == s.window + WakeBits(w)
  {
  }

  lemma {:induction false} WindowIsSince(cfg: Config, ts: seq<Turn>)
    ensures Run(cfg, ts).window == SinceWindow(cfg, ts)
  {
    hide Woken, WakeBits, TooBusy;
    if ts != [] {
      var n := |ts| - 1;
      WindowIsSince(cfg, ts[..n]);
      WokenWindow(Run(cfg, ts[..n]), ts[n].wake);
    }
  }

  /** The speed of each window, as it ended. */
  function Speeds(cfg: Config, ts: seq<Turn>): seq<nat> {
    if ts == [] then []
    else
      var n := |ts| - 1;
      var s, t := Run(cfg, ts[..n]), ts[n];
      Speeds(cfg, ts[..n])
      + if EndsWindow(s, t) then [SpeedOf(SinceWindow(cfg, ts[..n]) + WakeBits(t.wake), t.n)] else []
  }

  /** Nothing counted in finished windows exceeds the threshold, and the session is not downgraded. */
  predicate BelowThreshold(cfg: Config, s: Session) {
    s.window <= s.total && s.total - s.window <= s.elapsed * cfg.threshold && !s.downgrade
  }

  lemma SlowWindow(w: nat, n: nat, threshold: nat)
    requires n > 0 && w / n < threshold
    ensures w <= n * threshold
  {
    WindowUnder(w, n);
    MulMono(n, w / n + 1, threshold);
  }

  lemma SlowWindowStays(cfg: Config, s: Session, n: nat, black: bool, startCheck: nat)
    requires BelowThreshold(cfg, s) && n > 0 && s.window / n < cfg.threshold
    ensures BelowThreshold(cfg, WindowEnded(cfg, s, n, black, startCheck))
  {
    SlowWindow(s.window, n, cfg.threshold);
    assert (s.elapsed + n) * cfg.threshold == s.elapsed * cfg.threshold + n * cfg.threshold;
  }

  lemma NewBelow(cfg: Config)
    ensures BelowThreshold(cfg, NEW_SESSION)
  {
  }

  lemma WokenBelow(cfg: Config, s: Session, w: Wake)
    requires BelowThreshold(cfg, s)
    ensures BelowThreshold(cfg, Woken(s, w)) && BelowThreshold(cfg, Woken(s, w).(end := Finished))
  {
  }

  /** A session whose every window stayed below the threshold is never downgraded. */
  lemma {:induction false} SlowSessionNotDowngraded(cfg: Config, ts: seq<Turn>)
    requires forall i :: 0 <= i < |Speeds(cfg, ts)| ==> Speeds(cfg, ts)[i] < cfg.threshold
    ensures BelowThreshold(cfg, Run(cfg, ts))
  {
    hide WindowEnded, BelowThreshold, SinceWindow, WakeBits, Woken;
    if ts == [] {
      NewBelow(cfg);
    } else {
      var n := |ts| - 1;
      var less, all := Speeds(cfg, ts[..n]), Speeds(cfg, ts);
      forall i | 0 <= i < |less| ensures less[i] < cfg.threshold { assert all[i] == less[i]; }
      SlowSessionNotDowngraded(cfg, ts[..n]);
      var s, t := Run(cfg, ts[..n]), ts[n];
      var w := Woken(s, t.wake);
      WokenBelow(cfg, s, t.wake);
      if s.end.Going? && w.end.Going? && t.n >= WINDOW_MS && !t.blocked {
        WindowIsSince(cfg, ts[..n]);
        WokenWindow(s, t.wake);
        assert all[|all| - 1] == w.window / t.n;
        SlowWindowStays(cfg, w, t.n, t.black, t.startCheck);
      }
    }
  }

  lemma StepLatches(cfg: Config, s: Session, t: Turn)
    ensures s.downgrade ==> Step(cfg, s, t).downgrade
    ensures s.downgrade ==> Step(cfg, s, t).fast == s.fast
  {
  }

  /** Once set, the downgrade stays set, and every later bit is charged to the slow limiter. */
  lemma {:induction false} DowngradeLatches(cfg: Config, ts: seq<Turn>, us: seq<Turn>)
    requires Run(cfg, ts).downgrade
    ensures Run(cfg, ts + us).downgrade
    ensures Run(cfg, ts + us).fast == Run(cfg, ts).fast
  {
    hide Step;
    if us == [] {
      assert ts + us == ts;
    } else {
      var n := |us| - 1;
      DowngradeLatches(cfg, ts, us[..n]);
      var all := ts + us;
      assert all[..|all| - 1] == ts + us[..n];
      StepLatches(cfg, Run(cfg, ts + us[..n]), us[n]);
    }
  }

  /* ---------------------------------------------------------------- forwarding and charging */

  function Bits(fs: seq<Frame>): nat {
    if fs == [] then 0 else Bits(fs[..|fs| - 1]) + |fs[|fs| - 1]| * 8
  }

  /** What was to be forwarded: everything received, less the frame a failed send was carrying. */
  predicate Forwarded(received: seq<Frame>, sent: seq<Frame>, mayLackLast: bool) {
    || sent == NonEmptyFrames(received)
    || (mayLackLast && received != [] && sent == NonEmptyFrames(received[..|received| - 1]))
  }

  lemma NonEmptySnoc(fs: seq<Frame>, f: Frame)
    ensures NonEmptyFrames(fs + [f]) == NonEmptyFrames(fs) + if f == [] then [] else [f]
    ensures Bits(fs + [f]) == Bits(fs) + |f| * 8
  {
    assert (fs + [f])[..|fs|] == fs;
  }

  predicate FramesOk(s: Session) {
    && (!s.end.SendFailed? ==> s.toStream == NonEmptyFrames(s.fromPeer) && s.toPeer == NonEmptyFrames(s.fromStream))
    && Forwarded(s.fromPeer, s.toStream, s.end.SendFailed?)
    && Forwarded(s.fromStream, s.toPeer, s.end.SendFailed?)
    && s.total == Bits(s.fromPeer) + Bits(s.fromStream) == s.fast + s.slow
  }

  lemma WokenFramesOk(s: Session, w: Wake)
    requires FramesOk(s) && s.end.Going?
    ensures FramesOk(Woken(s, w))
  {
    hide NonEmptyFrames, Bits;
    if w.FromPeer? {
      NonEmptySnoc(s.fromPeer, w.frame);
      assert (s.fromPeer + [w.frame])[..|s.fromPeer|] == s.fromPeer;
      assert s.toStream + [] == s.toStream;
    } else if w.FromStream? {
      NonEmptySnoc(s.fromStream, w.frame);
      assert (s.fromStream + [w.frame])[..|s.fromStream|] == s.fromStream;
      assert s.toPeer + [] == s.toPeer;
    }
  }

  /** Each side is sent exactly the other side's non-empty frames, in order, up to a send that fails;
      every bit received is counted once and charged to exactly one limiter. */
  lemma {:induction false} ForwardsInOrder(cfg: Config, ts: seq<Turn>)
    ensures FramesOk(Run(cfg, ts))
  {
    hide NonEmptyFrames, Bits, Woken;
    if ts == [] {
      NoFrames();
    } else {
      var n := |ts| - 1;
      ForwardsInOrder(cfg, ts[..n]);
      var s := Run(cfg, ts[..n]);
      if s.end.Going? { WokenFramesOk(s, ts[n].wake); }
    }
  }

  lemma NoFrames()
    ensures NonEmptyFrames([]) == [] && Bits([]) == 0
  {
  }

  /* ---------------------------------------------------------------- exactly when a session is downgraded */

  /** How long the finished windows lasted, in ms. */
  function Lasted(cfg: Config, ts: seq<Turn>): nat {
    if ts == [] then 0
    else
      var n := |ts| - 1;
      Lasted(cfg, ts[..n]) + if EndsWindow(Run(cfg, ts[..n]), ts[n]) then ts[n].n else 0
  }

  lemma {:induction false} ElapsedIsLasted(cfg: Config, ts: seq<Turn>)
    ensures Run(cfg, ts).elapsed == Lasted(cfg, ts)
  {
    hide TooBusy, SpeedOf;
    if ts != [] {
      ElapsedIsLasted(cfg, ts[..|ts| - 1]);
      StepElapsed(cfg, Run(cfg, ts[..|ts| - 1]), ts[|ts| - 1]);
    }
  }

  lemma StepElapsed(cfg: Config, s: Session, t: Turn)
    ensures Step(cfg, s, t).elapsed == s.elapsed + if EndsWindow(s, t) then t.n else 0
    ensures Step(cfg, s, t).downgrade <==>
      s.downgrade || (EndsWindow(s, t) && TooBusy(cfg, t.startCheck, Step(cfg, s, t).elapsed, Step(cfg, s, t).total))
  {
    hide Woken, TooBusy;
    WokenKeeps(s, t.wake);
  }

  lemma WokenKeeps(s: Session, w: Wake)
    ensures var t := Woken(s, w);
      t.elapsed == s.elapsed && t.highest == s.highest && t.downgrade == s.downgrade && t.usage == s.usage
  {
  }

  /** The last turn ended a window, by then the session had lasted past that turn's start check, and more bits
      had come in from both sides than the threshold allows for that time. */
  predicate FoundTooBusy(cfg: Config, ts: seq<Turn>)
    requires ts != []
  {
    var n := |ts| - 1;
    var s := Run(cfg, ts);
    && EndsWindow(Run(cfg, ts[..n]), ts[n])
    && Lasted(cfg, ts) > ts[n].startCheck
    && Bits(s.fromPeer) + Bits(s.fromStream) > Lasted(cfg, ts) * cfg.threshold
  }

  lemma LastTurnDowngrades(cfg: Config, ts: seq<Turn>)
    requires ts != []
    ensures Run(cfg, ts).downgrade <==> Run(cfg, ts[..|ts| - 1]).downgrade || FoundTooBusy(cfg, ts)
  {
    hide Step, EndsWindow, Bits, NonEmptyFrames;
    StepElapsed(cfg, Run(cfg, ts[..|ts| - 1]), ts[|ts| - 1]);
    ElapsedIsLasted(cfg, ts);
    ForwardsInOrder(cfg, ts);
  }

  /** A session is downgraded exactly when at the end of some window it was found too busy. */
  lemma {:induction false} DowngradedExactlyWhen(cfg: Config, ts: seq<Turn>)
    ensures Run(cfg, ts).downgrade <==> exists i :: 1 <= i <= |ts| && FoundTooBusy(cfg, ts[..i])
  {
    hide Step, FoundTooBusy;
    if ts != [] {
      var n := |ts| - 1;
      DowngradedExactlyWhen(cfg, ts[..n]);
      LastTurnDowngrades(cfg, ts);
      assert ts[..n + 1] == ts;
      forall i | 1 <= i <= n ensures ts[..n][..i] == ts[..i] {}
      if i :| 1 <= i <= n && FoundTooBusy(cfg, ts[..n][..i]) {
        assert FoundTooBusy(cfg, ts[..i]);
      }
      if i :| 1 <= i <= |ts| && FoundTooBusy(cfg, ts[..i]) {
        if i <= n { assert FoundTooBusy(cfg, ts[..n][..i]); }
      }
    }
  }

  /* ---------------------------------------------------------------- the report, the frames and the ends */

  function Largest(xs: seq<nat>): (m: nat)
    ensures forall x :: x in xs ==> x <= m
    ensures xs != [] ==> m in xs
  {
    if xs == [] then 0
    else
      var n := |xs| - 1;
      assert xs == xs[..n] + [xs[n]];
      var m := Largest(xs[..n]);
      if xs[n] > m then xs[n] else m
  }

  /** What the usage line should say: since the last window ended, how long all windows lasted, the bits
      received by then from both sides, the largest speed of a window and the last one. */
  function Report(cfg: Config, ts: seq<Turn>): Usage {
    if ts == [] then Usage(0, 0, 0, 0)
    else
      var n := |ts| - 1;
      if EndsWindow(Run(cfg, ts[..n]), ts[n]) then
        var s, speeds := Run(cfg, ts), Speeds(cfg, ts);
        Usage(Lasted(cfg, ts), Bits(s.fromPeer) + Bits(s.fromStream), Largest(speeds), speeds[|speeds| - 1])
      else Report(cfg, ts[..n])
  }

  lemma StepReports(cfg: Config, s: Session, t: Turn)
    ensures var u := Step(cfg, s, t);
      if EndsWindow(s, t) then
        && u.highest == (var v := SpeedOf(Woken(s, t.wake).window, t.n); if v > s.highest then v else s.highest)
        && u.usage == Usage(u.elapsed, u.total, u.highest, SpeedOf(Woken(s, t.wake).window, t.n))
      else u.highest == s.highest && u.usage == s.usage
  {
    hide Woken, TooBusy;
    WokenKeeps(s, t.wake);
  }

  /** On every run, the usage line says exactly that. */
  lemma {:induction false} UsageIsReport(cfg: Config, ts: seq<Turn>)
    ensures Run(cfg, ts).highest == Largest(Speeds(cfg, ts))
    ensures Run(cfg, ts).usage == Report(cfg, ts)
  {
    hide Step, EndsWindow, Bits, NonEmptyFrames, SpeedOf, WakeBits, SinceWindow, Woken, Lasted;
    if ts != [] {
      var n := |ts| - 1;
      var s, t := Run(cfg, ts[..n]), ts[n];
      UsageIsReport(cfg, ts[..n]);
      StepReports(cfg, s, t);
      WindowIsSince(cfg, ts[..n]);
      WokenWindow(s, t.wake);
      ElapsedIsLasted(cfg, ts);
      ForwardsInOrder(cfg, ts);
      var less, all := Speeds(cfg, ts[..n]), Speeds(cfg, ts);
      if EndsWindow(s, t) { assert all[..|all| - 1] == less; } else { assert all == less; }
    }
  }

  /** The frames that came from one side while the session was going on. */
  function Arrived(cfg: Config, ts: seq<Turn>, peer: bool): seq<Frame> {
    if ts == [] then []
    else
      var n := |ts| - 1;
      var w := ts[n].wake;
      Arrived(cfg, ts[..n], peer)
      + if Run(cfg, ts[..n]).end.Going? && (if peer then w.FromPeer? else w.FromStream?) then [w.frame] else []
  }

  lemma StepArrives(cfg: Config, s: Session, t: Turn)
    ensures var u := Step(cfg, s, t);
      && u.fromPeer == s.fromPeer + (if s.end.Going? && t.wake.FromPeer? then [t.wake.frame] else [])
      && u.fromStream == s.fromStream + (if s.end.Going? && t.wake.FromStream? then [t.wake.frame] else [])
  {
    hide TooBusy, Woken;
    assert s.fromPeer + [] == s.fromPeer && s.fromStream + [] == s.fromStream;
    WokenArrives(s, t.wake);
  }

  lemma WokenArrives(s: Session, w: Wake)
    ensures var u := Woken(s, w);
      && u.fromPeer == (if w.FromPeer? then s.fromPeer + [w.frame] else s.fromPeer)
      && u.fromStream == (if w.FromStream? then s.fromStream + [w.frame] else s.fromStream)
  {
  }

  /** What counts as received is what arrived. */
  lemma {:induction false} ReceivedIsArrived(cfg: Config, ts: seq<Turn>)
    ensures Run(cfg, ts).fromPeer == Arrived(cfg, ts, true)
    ensures Run(cfg, ts).fromStream == Arrived(cfg, ts, false)
  {
    hide Step;
    if ts != [] {
      ReceivedIsArrived(cfg, ts[..|ts| - 1]);
      StepArrives(cfg, Run(cfg, ts[..|ts| - 1]), ts[|ts| - 1]);
    }
  }

  /** How a turn ends a session that was going on: a send that fails, 30 seconds of silence, a side that
      closed, or a window's end that finds the address blocked; and in no other way. */
  lemma EndsExactlyWhen(cfg: Config, s: Session, t: Turn)
    requires s.end.Going?
    ensures var end := Step(cfg, s, t).end; var w := t.wake;
      && (end == SendFailed <==> (w.FromPeer? || w.FromStream?) && w.frame != [] && !w.sent)
      && (end == TimedOut <==> w == Timer(true))
      && (end == Finished <==> w.Closed? || (Woken(s, w).end.Going? && t.n >= 1000 && t.blocked))
  {
    hide TooBusy;
  }

  /** Whether the address was on the black list when a window last ended. */
  function LastBlack(cfg: Config, ts: seq<Turn>): bool {
    if ts == [] then false
    else
      var n := |ts| - 1;
      if EndsWindow(Run(cfg, ts[..n]), ts[n]) then ts[n].black else LastBlack(cfg, ts[..n])
  }

  lemma StepCharges(cfg: Config, s: Session, t: Turn)
    ensures var u := Step(cfg, s, t); var bits := if s.end.Going? then WakeBits(t.wake) else 0;
      && u.blacked == (if EndsWindow(s, t) then t.black else s.blacked)
      && u.slow == s.slow + (if s.blacked || s.downgrade then bits else 0)
      && u.fast == s.fast + (if s.blacked || s.downgrade then 0 else bits)
  {
    hide TooBusy, Woken, WakeBits;
    WokenCharges(s, t.wake);
  }

  lemma WokenCharges(s: Session, w: Wake)
    ensures var u := Woken(s, w);
      && u.blacked == s.blacked
      && u.slow == s.slow + (if s.blacked || s.downgrade then WakeBits(w) else 0)
      && u.fast == s.fast + (if s.blacked || s.downgrade then 0 else WakeBits(w))
  {
  }

  lemma {:induction false} BlackedIsLastBlack(cfg: Config, ts: seq<Turn>)
    ensures Run(cfg, ts).blacked == LastBlack(cfg, ts)
  {
    hide Step, EndsWindow, WakeBits;
    if ts != [] {
      BlackedIsLastBlack(cfg, ts[..|ts| - 1]);
      StepCharges(cfg, Run(cfg, ts[..|ts| - 1]), ts[|ts| - 1]);
    }
  }

  /** Every bit is charged to the slow limiter if the session was downgraded or its address last seen on
      the black list, and to the session's own otherwise. */
  lemma ChargedExactly(cfg: Config, ts: seq<Turn>, t: Turn)
    ensures var s, u := Run(cfg, ts), Run(cfg, ts + [t]);
      var bits := if s.end.Going? then WakeBits(t.wake) else 0;
      && u.slow == s.slow + (if LastBlack(cfg, ts) || s.downgrade then bits else 0)
      && u.fast == s.fast + (if LastBlack(cfg, ts) || s.downgrade then 0 else bits)
  {
    hide Step, EndsWindow, WakeBits, LastBlack;
    assert (ts + [t])[..|ts|] == ts;
    BlackedIsLastBlack(cfg, ts);
    StepCharges(cfg, Run(cfg, ts), t);
  }
}
