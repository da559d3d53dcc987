/**
 Creating the server's key files.  Any number of `gen_sk` calls, in one process or several, race
 on `id_ed25519` and `id_ed25519.pub`, one file operation at a time, and may fail or be killed
 at any point.

 A file is named through a directory entry but read and written through what was opened, so the
 private key's file contents are kept by inode.
 */
module KeyFile {
  import opened Basics

  type SecretKey = nat

  /** The base64 text of the public half of a secret key. */
  datatype PublicKey = PublicOf(sk: SecretKey)

  /** A private key file as a reader sees it: all of a key, or something that does not decode. */
  datatype Private = Partial | Complete(sk: SecretKey)

  /** The text of a public key file. */
  datatype PublicText = Full(pk: PublicKey) | OtherText

  /** Where a call is, named by what it does next. */
  datatype Call =
    | Opening
    | Reading(inode: nat)
    | Generating
    | PreChecking(sk: SecretKey)
    | Creating(sk: SecretKey)
    | Writing(sk: SecretKey, inode: nat)
    | Removing(inode: nat)
    | Checking(sk: SecretKey, required: bool)
    | MakingTemp(sk: SecretKey, required: bool)
    | FillingTemp(sk: SecretKey)
    | Publishing(sk: SecretKey)
    | Rechecking(sk: SecretKey)
    | Returned(pk: PublicKey)
    | Failed

  datatype Folder = Folder(
    inodes: map<nat, Private>,
    private: Option<nat>,          // the directory entry `id_ed25519`
    public: Option<PublicText>,    // `id_ed25519.pub`
    temps: map<nat, PublicText>,   // each call's own temporary file
    nextInode: nat)

  datatype State = State(folder: Folder, calls: map<nat, Call>)

  datatype Action =
    | Call0                  // a new call of `gen_sk`
    | Open                   // `File::open(sk_file)`
    | Read
    | Generate(sk: SecretKey)
    | PreCheck               // `missing_public_key_path` before anything is created
    | Create                 // `create_new`
    | Write(ok: bool)
    | Remove                 // `remove_file` after a failed write
    | Check                  // `missing_public_key_path` in `write_public_key`
    | MakeTemp(ok: bool)
    | FillTemp(ok: bool)
    | Publish                // `persist_noclobber`
    | Recheck
    | Die                    // killed, or any other error

  function CreateIn(f: Folder): Folder {
    f.(inodes := f.inodes[f.nextInode := Partial], private := Some(f.nextInode), nextInode := f.nextInode + 1)
  }

  /** One file operation by one call. An action that is not the call's next one does nothing. */
  function Step(s: State, c: nat, a: Action): State {
    if a.Call0? then
      if c in s.calls then s else s.(calls := s.calls[c := Opening])
    else if c !in s.calls then s
    else
      var f := s.folder;
      var (f', call') := CallStep(f, s.calls[c], c, a);
      State(f', s.calls[c := call'])
  }

  function CallStep(f: Folder, call: Call, c: nat, a: Action): (Folder, Call) {
    match (call, a)
    case (Opening, Open) =>
      (f, if f.private.None? then Generating else Reading(f.private.value))
    case (Reading(i), Read) =>
      (f, if i in f.inodes && f.inodes[i].Complete? then Checking(f.inodes[i].sk, false) else Failed)
    case (Generating, Generate(sk)) => (f, PreChecking(sk))
    case (PreChecking(sk), PreCheck) =>
      (f, if f.public.None? || f.public == Some(Full(PublicOf(sk))) then Creating(sk) else Failed)
    case (Creating(sk), Create) =>
      if f.private.Some? then (f, Failed) else (CreateIn(f), Writing(sk, f.nextInode))
    case (Writing(sk, i), Write(ok)) =>
      if ok then (f.(inodes := f.inodes[i := Complete(sk)]), Checking(sk, true)) else (f, Removing(i))
    case (Removing(_), Remove) => (f.(private := None), Failed)
    case (Checking(sk, required), Check) =>
      (f, if f.public.None? then MakingTemp(sk, required)
          else if f.public == Some(Full(PublicOf(sk))) then Returned(PublicOf(sk))
          else Failed)
    case (MakingTemp(sk, required), MakeTemp(ok)) =>
      if ok then (f.(temps := f.temps[c := OtherText]), FillingTemp(sk))
      else (f, if required then Failed else Returned(PublicOf(sk)))
    case (FillingTemp(sk), FillTemp(ok)) =>
      if ok then (f.(temps := f.temps[c := Full(PublicOf(sk))]), Publishing(sk))
      else (f.(temps := f.temps - {c}), Failed)
    case (Publishing(sk), Publish) =>
      if f.public.None? && c in f.temps
      then (f.(public := Some(f.temps[c]), temps := f.temps - {c}), Returned(PublicOf(sk)))
      else (f.(temps := f.temps - {c}), Rechecking(sk))
    case (Rechecking(sk), Recheck) =>
      (f, if f.public == Some(Full(PublicOf(sk))) then Returned(PublicOf(sk)) else Failed)
    case (Returned(_), _) => (f, call)
    case (_, Die) => (f, Failed)
    case _ => (f, call)
  }

  /** Any interleaving. */
  function Run(s: State, steps: seq<(nat, Action)>): State {
    if steps == [] then s
    else
      var n := |steps| - 1;
      Step(Run(s, steps[..n]), steps[n].0, steps[n].1)
  }

  /** A folder before any call: whatever is or is not in it. */
  predicate Fresh(s: State) {
    && s.calls == map[] && s.folder.temps == map[]
    && (forall i :: i in s.folder.inodes ==> i < s.folder.nextInode)
    && (forall i :: i in s.folder.inodes ==> s.folder.private == Some(i))
    && (s.folder.private.Some? ==> s.folder.private.value in s.folder.inodes)
  }

  /** The key the folder holds, if it holds all of one. */
  predicate Holds(f: Folder, sk: SecretKey) {
    f.private.Some? && f.private.value in f.inodes && f.inodes[f.private.value] == Complete(sk)
  }

  /** A call between creating the private key file and having written or removed it. */
  predicate Busy(call: Call) { call.Writing? || call.Removing? }

  predicate CallOk(f: Folder, c: nat, call: Call) {
    match call
    case Writing(_, i) => f.private == Some(i) && i in f.inodes && f.inodes[i] == Partial
    case Removing(i) => f.private == Some(i) && i in f.inodes && f.inodes[i] == Partial
    case Checking(sk, _) => Holds(f, sk)
    case MakingTemp(sk, _) => Holds(f, sk)
    case FillingTemp(sk) => Holds(f, sk)
    case Publishing(sk) => Holds(f, sk) && c in f.temps && f.temps[c] == Full(PublicOf(sk))
    case Rechecking(sk) => Holds(f, sk)
    case Returned(pk) => Holds(f, pk.sk)
    case _ => true
  }

  predicate FolderOk(f: Folder, public0: Option<PublicText>) {
    && (forall i :: i in f.inodes ==> i < f.nextInode)
    && (forall i :: i in f.inodes && f.inodes[i].Complete? ==> f.private == Some(i))
    && (public0.Some? ==> f.public == public0)
    && (public0.None? && f.public.Some? ==> f.public.value.Full? && Holds(f, f.public.value.pk.sk))
  }

  /** What every step keeps. */
  ghost predicate Inv(s: State, public0: Option<PublicText>) {
    && FolderOk(s.folder, public0)
    && (forall c :: c in s.calls ==> CallOk(s.folder, c, s.calls[c]))
    && (forall c, d :: c in s.calls && d in s.calls && Busy(s.calls[c]) && Busy(s.calls[d]) ==> c == d)
  }

  /** No step of another call disturbs what a call relies on. */
  lemma OthersUndisturbed(f: Folder, public0: Option<PublicText>, c: nat, call: Call, a: Action, d: nat, other: Call)
    requires FolderOk(f, public0) && CallOk(f, c, call) && CallOk(f, d, other) && c != d
    requires !(Busy(call) && Busy(other))
    ensures CallOk(CallStep(f, call, c, a).0, d, other)
  {
  }

  lemma OwnStepOk(f: Folder, public0: Option<PublicText>, c: nat, call: Call, a: Action)
    requires FolderOk(f, public0) && CallOk(f, c, call)
    ensures var (f', call') := CallStep(f, call, c, a);
      && FolderOk(f', public0) && CallOk(f', c, call')
      && (Busy(call') && !Busy(call) ==> f.private.None?)
  {
  }

  lemma StepKeepsInv(s: State, c: nat, a: Action, public0: Option<PublicText>)
    requires Inv(s, public0)
    ensures Inv(Step(s, c, a), public0)
  {
    hide FolderOk, CallOk, CallStep;
    if !a.Call0? && c in s.calls {
      var call := s.calls[c];
      var (f', call') := CallStep(s.folder, call, c, a);
      OwnStepOk(s.folder, public0, c, call, a);
      forall d | d in s.calls && d != c
        ensures CallOk(f', d, s.calls[d])
        ensures !(Busy(call') && Busy(s.calls[d]))
      {
        OthersUndisturbed(s.folder, public0, c, call, a, d, s.calls[d]);
        BusyMeansPrivate(s.folder, d, s.calls[d]);
      }
    } else if a.Call0? && c !in s.calls {
      OpeningOk(s.folder, c);
    }
  }

  lemma BusyMeansPrivate(f: Folder, c: nat, call: Call)
    requires CallOk(f, c, call)
    ensures Busy(call) ==> f.private.Some?
  {
  }

  lemma OpeningOk(f: Folder, c: nat)
    ensures CallOk(f, c, Opening)
  {
  }

  lemma {:induction false} RunKeepsInv(s: State, steps: seq<(nat, Action)>)
    requires Fresh(s)
    ensures Inv(Run(s, steps), s.folder.public)
  {
    hide Step, Inv;
    if steps == [] {
      FreshInv(s);
    } else {
      var n := |steps| - 1;
      RunKeepsInv(s, steps[..n]);
      StepKeepsInv(Run(s, steps[..n]), steps[n].0, steps[n].1, s.folder.public);
    }
  }

  lemma FreshInv(s: State)
    requires Fresh(s)
    ensures Inv(s, s.folder.public)
  {
  }

  /** All calls that return Ok return the same public key, that of the complete private key in place,
      whatever was in the folder to begin with and however the calls interleave, fail or die. */
  lemma CallsAgree(s: State, steps: seq<(nat, Action)>, c: nat, d: nat)
    requires Fresh(s)
    requires var t := Run(s, steps); c in t.calls && d in t.calls && t.calls[c].Returned? && t.calls[d].Returned?
    ensures var t := Run(s, steps);
      t.calls[c].pk == t.calls[d].pk && Holds(t.folder, t.calls[c].pk.sk)
  {
    hide Run, Fresh;
    RunKeepsInv(s, steps);
    var t := Run(s, steps);
    assert CallOk(t.folder, c, t.calls[c]) && CallOk(t.folder, d, t.calls[d]);
  }

  lemma StepKeepsKey(s: State, c: nat, a: Action, public0: Option<PublicText>, sk: SecretKey)
    requires Inv(s, public0) && Holds(s.folder, sk)
    ensures Holds(Step(s, c, a).folder, sk)
    ensures Step(s, c, a).folder.private == s.folder.private
  {
    if !a.Call0? && c in s.calls {
      assert CallOk(s.folder, c, s.calls[c]);
    }
  }

  /** Once the folder holds a complete private key, no call ever overwrites or removes it. */
  lemma {:induction false} CompleteKeyStays(
    s: State, steps: seq<(nat, Action)>, more: seq<(nat, Action)>, sk: SecretKey)
    requires Fresh(s) && Holds(Run(s, steps).folder, sk)
    ensures Holds(Run(s, steps + more).folder, sk)
    ensures Run(s, steps + more).folder.private == Run(s, steps).folder.private
    decreases |more|
  {
    hide Run, Step, Inv, Holds, Fresh;
    if more == [] {
      assert steps + more == steps;
    } else {
      var n := |more| - 1;
      CompleteKeyStays(s, steps, more[..n], sk);
      RunMore(s, steps, more);
      RunKeepsInv(s, steps + more[..n]);
      StepKeepsKey(Run(s, steps + more[..n]), more[n].0, more[n].1, s.folder.public, sk);
    }
  }

  /** Starting without one, `id_ed25519.pub` is at every moment absent or all of the public key
      matching the complete private key in place. */
  lemma PublicAbsentOrMatching(s: State, steps: seq<(nat, Action)>)
    requires Fresh(s) && s.folder.public.None?
    ensures var f := Run(s, steps).folder;
      f.public.None? || exists sk :: f.public == Some(Full(PublicOf(sk))) && Holds(f, sk)
  {
    hide Run, Fresh;
    RunKeepsInv(s, steps);
    var f := Run(s, steps).folder;
    if f.public.Some? {
      assert f.public == Some(Full(PublicOf(f.public.value.pk.sk)));
    }
  }

  lemma StepKeepsPublic(s: State, c: nat, a: Action)
    ensures s.folder.public.Some? ==> Step(s, c, a).folder.public == s.folder.public
  {
  }

  /** A public key file, once there, is never changed: not by a publication, and not when it was
      there before and does not match. */
  lemma {:induction false} PublicNeverChanges(s: State, steps: seq<(nat, Action)>)
    requires s.folder.public.Some?
    ensures Run(s, steps).folder.public == s.folder.public
  {
    hide Step;
    if steps != [] {
      var n := |steps| - 1;
      PublicNeverChanges(s, steps[..n]);
      StepKeepsPublic(Run(s, steps[..n]), steps[n].0, steps[n].1);
    }
  }

  /* ---------------------------------------------------------------- a public key file from before */

  /** With a public key file in place, a call never gets as far as making one, and returns only its key. */
  predicate Respects(public: Option<PublicText>, call: Call) {
    match call
    case MakingTemp(_, _) => false
    case FillingTemp(_) => false
    case Publishing(_) => false
    case Rechecking(_) => false
    case Returned(pk) => public == Some(Full(pk))
    case _ => true
  }

  lemma StepRespects(f: Folder, call: Call, c: nat, a: Action)
    requires f.public.Some? && Respects(f.public, call)
    ensures Respects(f.public, CallStep(f, call, c, a).1)
  {
  }

  lemma {:induction false} CallsRespect(s: State, steps: seq<(nat, Action)>, c: nat)
    requires s.calls == map[] && s.folder.public.Some?
    ensures c in Run(s, steps).calls ==> Respects(s.folder.public, Run(s, steps).calls[c])
  {
    hide CallStep, Respects;
    if steps != [] {
      var n := |steps| - 1;
      var t := Run(s, steps[..n]);
      CallsRespect(s, steps[..n], c);
      PublicNeverChanges(s, steps[..n]);
      if c in t.calls { StepRespects(t.folder, t.calls[c], c, steps[n].1); }
      OpeningRespects(s.folder.public);
    }
  }

  lemma OpeningRespects(public: Option<PublicText>)
    ensures Respects(public, Opening)
  {
  }

  /** Where a public key file was there before, every call that returns Ok returns the key in it, and so
      none does if it holds something else than a key. */
  lemma OldPublicKeyDecides(s: State, steps: seq<(nat, Action)>, c: nat)
    requires Fresh(s) && s.folder.public.Some?
    requires var t := Run(s, steps); c in t.calls && t.calls[c].Returned?
    ensures s.folder.public == Some(Full(Run(s, steps).calls[c].pk))
  {
    hide Run;
    CallsRespect(s, steps, c);
  }

  /** And no call returns Ok where a complete private key and a public key file that is not its own were
      there before. */
  lemma MismatchedPairNeverReturned(s: State, steps: seq<(nat, Action)>, sk: SecretKey, c: nat)
    requires Fresh(s) && Holds(s.folder, sk)
    requires s.folder.public.Some? && s.folder.public.value != Full(PublicOf(sk))
    ensures var t := Run(s, steps); c in t.calls ==> !t.calls[c].Returned?
  {
    var t := Run(s, steps);
    hide Fresh;
    assert Run(s, []) == s && [] + steps == steps;
    hide Run;
    CompleteKeyStays(s, [], steps, sk);
    if c in t.calls && t.calls[c].Returned? {
      OldPublicKeyDecides(s, steps, c);
      CallsAgree(s, steps, c, c);
    }
  }

  /* ---------------------------------------------------------------- a call on a finished folder */

  /** The folder holds a complete key, and no public key file but a matching one. */
  predicate Steady(f: Folder, sk: SecretKey) {
    Holds(f, sk) && (f.public.None? || f.public == Some(Full(PublicOf(sk))))
  }

  /** On its way to returning that key, and not failed. */
  predicate OnTrack(f: Folder, call: Call, sk: SecretKey) {
    match call
    case Opening => true
    case Reading(i) => f.private == Some(i)
    case Checking(k, required) => k == sk && !required
    case MakingTemp(k, required) => k == sk && !required
    case FillingTemp(k) => k == sk
    case Publishing(k) => k == sk
    case Rechecking(k) => k == sk && f.public.Some?
    case Returned(pk) => pk == PublicOf(sk)
    case _ => false
  }

  /** Neither killed nor unable to write a file it has opened. */
  predicate Works(a: Action) { a != Die && a != FillTemp(false) }

  /** Is this what the call does next? */
  predicate Due(call: Call, a: Action) {
    match call
    case Opening => a.Open?
    case Reading(_) => a.Read?
    case Checking(_, _) => a.Check?
    case MakingTemp(_, _) => a.MakeTemp?
    case FillingTemp(_) => a.FillTemp?
    case Publishing(_) => a.Publish?
    case Rechecking(_) => a.Recheck?
    case _ => false
  }

  /** How many operations it has left at most. */
  function Left(call: Call): nat {
    match call
    case Opening => 7
    case Reading(_) => 6
    case Checking(_, _) => 5
    case MakingTemp(_, _) => 4
    case FillingTemp(_) => 3
    case Publishing(_) => 2
    case Rechecking(_) => 1
    case _ => 0
  }

  lemma OwnStepOnTrack(f: Folder, c: nat, call: Call, a: Action, sk: SecretKey)
    requires CallOk(f, c, call) && Steady(f, sk) && OnTrack(f, call, sk) && Works(a)
    ensures var (f', call') := CallStep(f, call, c, a);
      && Steady(f', sk) && OnTrack(f', call', sk)
      && (if Due(call, a) then Left(call') < Left(call) else call' == call)
  {
  }

  lemma OthersStepOnTrack(f: Folder, d: nat, other: Call, a: Action, call: Call, sk: SecretKey)
    requires CallOk(f, d, other) && Steady(f, sk) && OnTrack(f, call, sk)
    ensures var f' := CallStep(f, other, d, a).0; Steady(f', sk) && OnTrack(f', call, sk)
  {
  }

  /** A call that has not begun, or is on track. */
  predicate Progress(t: State, c: nat, sk: SecretKey, done: nat) {
    && Steady(t.folder, sk)
    && (c !in t.calls ==> done == 0)
    && (c in t.calls ==> OnTrack(t.folder, t.calls[c], sk) && Left(t.calls[c]) + done <= 7)
  }

  predicate CallWorks(c: nat, step: (nat, Action)) { step.0 == c ==> Works(step.1) }

  function DueNow(t: State, c: nat, step: (nat, Action)): nat {
    if step.0 == c && c in t.calls && Due(t.calls[c], step.1) then 1 else 0
  }

  /** How many of its own operations a call has done since some moment. */
  function Done(s: State, steps: seq<(nat, Action)>, more: seq<(nat, Action)>, c: nat): nat
    decreases |more|
  {
    if more == [] then 0
    else
      var n := |more| - 1;
      Done(s, steps, more[..n], c) + DueNow(Run(s, steps + more[..n]), c, more[n])
  }

  lemma StepProgress(t: State, public0: Option<PublicText>, c: nat, sk: SecretKey, done: nat, step: (nat, Action))
    requires Inv(t, public0) && Progress(t, c, sk, done) && CallWorks(c, step)
    ensures Progress(Step(t, step.0, step.1), c, sk, done + DueNow(t, c, step))
  {
    hide CallOk, CallStep, FolderOk, Steady, OnTrack, Due;
    var d, a := step.0, step.1;
    if d in t.calls && !a.Call0? {
      assert CallOk(t.folder, d, t.calls[d]);
      if d == c {
        OwnStepOnTrack(t.folder, c, t.calls[c], a, sk);
      } else {
        OthersStepOnTrack(t.folder, d, t.calls[d], a, if c in t.calls then t.calls[c] else Opening, sk);
      }
      assert c !in t.calls ==> OnTrack(t.folder, Opening, sk) by { OpeningOnTrack(t.folder, sk); }
    } else {
      OpeningOnTrack(t.folder, sk);
      CallingIsNotDue(t, c, a);
    }
  }

  lemma OpeningOnTrack(f: Folder, sk: SecretKey)
    ensures OnTrack(f, Opening, sk)
  {
  }

  lemma CallingIsNotDue(t: State, c: nat, a: Action)
    ensures a.Call0? && c in t.calls ==> !Due(t.calls[c], a)
  {
  }

  lemma RunMore(s: State, steps: seq<(nat, Action)>, more: seq<(nat, Action)>)
    requires more != []
    ensures var n := |more| - 1;
      Run(s, steps + more) == Step(Run(s, steps + more[..n]), more[n].0, more[n].1)
  {
    hide Step;
    var all := steps + more;
    assert all[..|all| - 1] == steps + more[..|more| - 1];
  }

  lemma NothingDone(s: State, steps: seq<(nat, Action)>, c: nat)
    ensures Done(s, steps, [], c) == 0
  {
  }

  lemma DoneMore(s: State, steps: seq<(nat, Action)>, more: seq<(nat, Action)>, c: nat)
    requires more != []
    ensures var n := |more| - 1;
      Done(s, steps, more, c) == Done(s, steps, more[..n], c) + DueNow(Run(s, steps + more[..n]), c, more[n])
  {
    hide Run, DueNow;
  }

  lemma {:induction false} MakesProgress(
    s: State, steps: seq<(nat, Action)>, more: seq<(nat, Action)>, c: nat, sk: SecretKey)
    requires Fresh(s) && c !in Run(s, steps).calls && Steady(Run(s, steps).folder, sk)
    requires forall i :: 0 <= i < |more| ==> CallWorks(c, more[i])
    ensures Progress(Run(s, steps + more), c, sk, Done(s, steps, more, c))
    decreases |more|
  {
    hide Run, Done, Step, Inv, Steady, Fresh, CallWorks, Progress, DueNow;
    if more == [] {
      assert steps + more == steps;
      NothingDone(s, steps, c);
      NotBegun(Run(s, steps), c, sk);
    } else {
      var n := |more| - 1;
      MakesProgress(s, steps, more[..n], c, sk);
      RunMore(s, steps, more);
      DoneMore(s, steps, more, c);
      RunKeepsInv(s, steps + more[..n]);
      StepProgress(Run(s, steps + more[..n]), s.folder.public, c, sk, Done(s, steps, more[..n], c), more[n]);
    }
  }

  lemma NotBegun(t: State, c: nat, sk: SecretKey)
    requires c !in t.calls && Steady(t.folder, sk)
    ensures Progress(t, c, sk, 0)
  {
  }

  /** Once the folder holds a complete key and no other public key, a later call that works, among any
      number of others that may fail or die, never fails, returns no other key, and has returned that
      key after at most 7 operations of its own. */
  lemma LaterCallReturnsKey(s: State, steps: seq<(nat, Action)>, more: seq<(nat, Action)>, c: nat, sk: SecretKey)
    requires Fresh(s) && c !in Run(s, steps).calls && Steady(Run(s, steps).folder, sk)
    requires forall i :: 0 <= i < |more| ==> CallWorks(c, more[i])
    ensures var t := Run(s, steps + more);
      && (c in t.calls ==> !t.calls[c].Failed?)
      && (c in t.calls && t.calls[c].Returned? ==> t.calls[c].pk == PublicOf(sk))
      && Done(s, steps, more, c) <= 7
      && (Done(s, steps, more, c) == 7 ==> c in t.calls && t.calls[c] == Returned(PublicOf(sk)))
  {
    hide Run, Steady, Fresh, CallWorks, Done;
    MakesProgress(s, steps, more, c, sk);
  }

  /* ---------------------------------------------------------------- one call on its own */

  /** Opening and reading an existing private key. */
  function ReadPhase(f: Folder, c: nat): (Folder, Call) {
    var (f1, k1) := CallStep(f, Opening, c, Open);
    CallStep(f1, k1, c, Read)
  }

  /** Generating a key and writing it to a new file. */
  function CreatePhase(f: Folder, call: Call, c: nat, sk: SecretKey, writeOk: bool): (Folder, Call) {
    var (f1, k1) := CallStep(f, call, c, Generate(sk));
    var (f2, k2) := CallStep(f1, k1, c, PreCheck);
    var (f3, k3) := CallStep(f2, k2, c, Create);
    var (f4, k4) := CallStep(f3, k3, c, Write(writeOk));
    CallStep(f4, k4, c, Remove)
  }

  /** `write_public_key`. */
  function PublicPhase(f: Folder, call: Call, c: nat, tempOk: bool, fillOk: bool): (Folder, Call) {
    var (f1, k1) := CallStep(f, call, c, Check);
    var (f2, k2) := CallStep(f1, k1, c, MakeTemp(tempOk));
    PublishPhase(f2, k2, c, fillOk)
  }

  /** Filling the temporary file and publishing it. */
  function PublishPhase(f: Folder, call: Call, c: nat, fillOk: bool): (Folder, Call) {
    var (f1, k1) := CallStep(f, call, c, FillTemp(fillOk));
    var (f2, k2) := CallStep(f1, k1, c, Publish);
    CallStep(f2, k2, c, Recheck)
  }

  lemma PublishOutcome(f: Folder, c: nat, sk: SecretKey, fillOk: bool)
    requires f.public.None?
    ensures PublishPhase(f, FillingTemp(sk), c, fillOk) ==
      if fillOk then (f.(public := Some(Full(PublicOf(sk))), temps := f.temps - {c}), Returned(PublicOf(sk)))
      else (f.(temps := f.temps - {c}), Failed)
  {
    assert f.temps[c := Full(PublicOf(sk))] - {c} == f.temps - {c};
  }

  lemma PublishNothing(f: Folder, call: Call, c: nat, fillOk: bool)
    requires call.Returned? || call.Failed?
    ensures PublishPhase(f, call, c, fillOk) == (f, call)
  {
  }

  /** How `write_public_key` turns out when nothing else runs. */
  lemma PublicOutcome(f: Folder, c: nat, sk: SecretKey, required: bool, tempOk: bool, fillOk: bool)
    ensures PublicPhase(f, Checking(sk, required), c, tempOk, fillOk) ==
      var pk := PublicOf(sk);
      if f.public.Some? then (f, if f.public.value == Full(pk) then Returned(pk) else Failed)
      else if !tempOk then (f, if required then Failed else Returned(pk))
      else if !fillOk then (f.(temps := f.temps - {c}), Failed)
      else (f.(public := Some(Full(pk)), temps := f.temps - {c}), Returned(pk))
  {
    hide PublishPhase;
    if f.public.None? { PublishOutcome(f.(temps := f.temps[c := OtherText]), c, sk, fillOk); }
    PublishNothing(f, Returned(PublicOf(sk)), c, fillOk);
    PublishNothing(f, Failed, c, fillOk);
    assert f.temps[c := OtherText] - {c} == f.temps - {c};
  }

  /** The folder as one call works on it. */
  class KeyFolder {
    var inodes: map<nat, Private>
    var private: Option<nat>
    var public: Option<PublicText>
    var temps: map<nat, PublicText>
    var nextInode: nat

    ghost function View(): Folder
      reads this
    {
      Folder(inodes, private, public, temps, nextInode)
    }

    /** Some(true): the path is free; Some(false): a matching key is there; None: it does not match. */
    method MissingPublicKey(pk: PublicKey) returns (missing: Option<bool>)
      ensures missing == if public.None? then Some(true) else if public == Some(Full(pk)) then Some(false) else None
    {
      if public == Some(Full(pk)) { return Some(false); }
      if public.Some? { return None; }
      return Some(true);
    }

    method CreatePrivateKey(sk: SecretKey, writeOk: bool) returns (ok: bool)
      modifies this
      ensures ok == (old(private).None? && writeOk)
      ensures View() ==
        if old(private).Some? then old(View())
        else if writeOk then CreateIn(old(View())).(inodes := old(inodes)[old(nextInode) := Complete(sk)])
        else CreateIn(old(View())).(private := None)
    {
      if private.Some? { return false; }
      var inode := nextInode;
      inodes, private, nextInode := inodes[inode := Partial], Some(inode), inode + 1;
      if !writeOk {
        private := None;
        return false;
      }
      inodes := inodes[inode := Complete(sk)];
      return true;
    }

    method WritePublicKey(c: nat, sk: SecretKey, required: bool, tempOk: bool, fillOk: bool) returns (ok: bool)
      modifies this
      ensures (View(), if ok then Returned(PublicOf(sk)) else Failed)
        == PublicPhase(old(View()), Checking(sk, required), c, tempOk, fillOk)
    {
      hide PublicPhase;
      PublicOutcome(View(), c, sk, required, tempOk, fillOk);
      var pk := PublicOf(sk);
      var missing := MissingPublicKey(pk);
      if missing.None? { return false; }
      if !missing.value { return true; }
      if !tempOk { return !required; }
      temps := temps[c := OtherText];
      if !fillOk {
        temps := temps - {c};
        assert temps == old(temps) - {c};
        return false;
      }
      temps := temps[c := Full(pk)];
      // Nothing else runs here, so the name is still free and the file is published.
      public, temps := Some(temps[c]), temps - {c};
      assert temps == old(temps) - {c};
      return true;
    }

    /** `gen_sk` run without interruption: what it does is what its steps do. */
    method GenSk(c: nat, generated: SecretKey, writeOk: bool, tempOk: bool, fillOk: bool)
      returns (pk: Option<PublicKey>)
      requires private.Some? ==> private.value in inodes
      modifies this
      ensures var (f1, k1) := ReadPhase(old(View()), c);
        var (f2, k2) := CreatePhase(f1, k1, c, generated, writeOk);
        (View(), if pk.Some? then Returned(pk.value) else Failed) == PublicPhase(f2, k2, c, tempOk, fillOk)
    {
      hide PublicPhase, ReadPhase, CreatePhase;
      ReadOutcome(View(), c);
      if private.Some? {
        var contents := inodes[private.value];
        ghost var call := if contents.Partial? then Failed else Checking(contents.sk, false);
        CreateNothing(View(), call, c, generated, writeOk);
        if contents.Partial? {
          FailedStaysFailed(View(), c, tempOk, fillOk);
          return None;
        }
        var ok := WritePublicKey(c, contents.sk, false, tempOk, fillOk);
        return if ok then Some(PublicOf(contents.sk)) else None;
      }
      CreateOutcome(View(), c, generated, writeOk);
      var missing := MissingPublicKey(PublicOf(generated));
      if missing.None? {
        FailedStaysFailed(View(), c, tempOk, fillOk);
        return None;
      }
      var created := CreatePrivateKey(generated, writeOk);
      if !created {
        FailedStaysFailed(View(), c, tempOk, fillOk);
        return None;
      }
      var ok := WritePublicKey(c, generated, true, tempOk, fillOk);
      return if ok then Some(PublicOf(generated)) else None;
    }
  }

  lemma ReadOutcome(f: Folder, c: nat)
    requires f.private.Some? ==> f.private.value in f.inodes
    ensures ReadPhase(f, c) ==
      (f, if f.private.None? then Generating
          else if f.inodes[f.private.value].Partial? then Failed
          else Checking(f.inodes[f.private.value].sk, false))
  {
  }

  lemma CreateNothing(f: Folder, call: Call, c: nat, sk: SecretKey, writeOk: bool)
    requires call.Failed? || call.Checking?
    ensures CreatePhase(f, call, c, sk, writeOk) == (f, call)
  {
  }

  lemma CreateOutcome(f: Folder, c: nat, sk: SecretKey, writeOk: bool)
    requires f.private.None?
    ensures CreatePhase(f, Generating, c, sk, writeOk) ==
      if f.public.Some? && f.public.value != Full(PublicOf(sk)) then (f, Failed)
      else if writeOk then (CreateIn(f).(inodes := f.inodes[f.nextInode := Complete(sk)]), Checking(sk, true))
      else (CreateIn(f).(private := None), Failed)
  {
    assert f.inodes[f.nextInode := Partial][f.nextInode := Complete(sk)] == f.inodes[f.nextInode := Complete(sk)];
  }

  lemma FailedStaysFailed(f: Folder, c: nat, tempOk: bool, fillOk: bool)
    ensures PublicPhase(f, Failed, c, tempOk, fillOk) == (f, Failed)
  {
  }

  /** With nothing failing, a first call makes the key pair and the next call returns it again. */
  lemma FirstThenSecond(f: Folder, c: nat, d: nat, sk: SecretKey, other: SecretKey)
    requires f.private.None? && f.public.None? && c !in f.temps
    ensures var (f0, k0) := ReadPhase(f, c);
      var (f1, k1) := CreatePhase(f0, k0, c, sk, true);
      var (f2, k2) := PublicPhase(f1, k1, c, true, true);
      && k2 == Returned(PublicOf(sk)) && Holds(f2, sk) && f2.public == Some(Full(PublicOf(sk)))
      && var (f3, k3) := ReadPhase(f2, d);
      var (f4, k4) := CreatePhase(f3, k3, d, other, true);
      PublicPhase(f4, k4, d, true, true) == (f2, Returned(PublicOf(sk)))
  {
    hide PublicPhase, ReadPhase, CreatePhase;
    FirstCall(f, c, sk);
    var f1 := CreatePhase(f, Generating, c, sk, true).0;
    PublicOutcome(f1, c, sk, true, true, true);
    assert f1.temps - {c} == f1.temps;
    var f2 := f1.(public := Some(Full(PublicOf(sk))));
    SecondCall(f2, d, sk, other);
    PublicOutcome(f2, d, sk, false, true, true);
  }

  /** With no private key there and a public key file that happens to hold the key generated, the call
      makes the private key and returns that key. */
  lemma GeneratedKeyMatches(f: Folder, c: nat, sk: SecretKey)
    requires f.private.None? && f.public == Some(Full(PublicOf(sk)))
    ensures var (f0, k0) := ReadPhase(f, c);
      var (f1, k1) := CreatePhase(f0, k0, c, sk, true);
      var (f2, k2) := PublicPhase(f1, k1, c, true, true);
      k2 == Returned(PublicOf(sk)) && Holds(f2, sk)
  {
    hide PublicPhase, ReadPhase, CreatePhase;
    ReadOutcome(f, c);
    CreateOutcome(f, c, sk, true);
    PublicOutcome(CreatePhase(f, Generating, c, sk, true).0, c, sk, true, true, true);
  }

  lemma FirstCall(f: Folder, c: nat, sk: SecretKey)
    requires f.private.None? && f.public.None?
    ensures ReadPhase(f, c) == (f, Generating)
    ensures var (f', call) := CreatePhase(f, Generating, c, sk, true);
      && call == Checking(sk, true) && Holds(f', sk)
      && f' == f.(inodes := f'.inodes, private := f'.private, nextInode := f'.nextInode)
  {
  }

  lemma SecondCall(f: Folder, d: nat, sk: SecretKey, other: SecretKey)
    requires Holds(f, sk)
    ensures ReadPhase(f, d) == (f, Checking(sk, false))
    ensures CreatePhase(f, Checking(sk, false), d, other, true) == (f, Checking(sk, false))
  {
  }
}
