/** Provider processes under every interleaving: who may hold, store and close them, and what the threads rely on. */
module SignInProcesses {
  import opened Text
  import opened SignIn
  import opened SignInSafety

  // ---- owners ----

  /** The thread has launched the process and not yet closed it or stored it in its session. */
  predicate Holds(pc: Pc, process: nat) {
    (pc.PasswordSend? || pc.PasswordStore? || pc.ProbeSend?) && pc.process == process
  }

  predicate Stored(sh: Shared, sid: nat, process: nat) {
    sid in sh.objects && sh.objects[sid].provider == Some(process)
  }

  /** A thread holds the process or a session object stores it. */
  ghost predicate Owned(s: System, process: nat) {
    || (exists t :: t in s.threads && Holds(s.threads[t], process))
    || (exists sid :: Stored(s.shared, sid, process))
  }

  /** The process is open, and nothing can reach it any more. */
  ghost predicate Lost(s: System, process: nat) {
    process in s.shared.open && !Owned(s, process)
  }

  // ---- invariants ----

  /** Every process known anywhere was started, and no two sessions store the same one. */
  predicate ProcessesSound(sh: Shared) {
    && (forall p :: p in sh.open ==> p < sh.started)
    && (forall sid :: sid in sh.objects && sh.objects[sid].provider.Some? ==> sh.objects[sid].provider.value < sh.started)
    && (forall a, b :: a in sh.objects && b in sh.objects && a != b && sh.objects[a].provider.Some? ==>
          sh.objects[a].provider != sh.objects[b].provider)
  }

  /** No session stores an open process. */
  predicate Closed(sh: Shared, sid: nat) {
    sid in sh.objects && sh.objects[sid].provider.Some? ==> sh.objects[sid].provider.value !in sh.open
  }

  /** What a thread relies on: its process is its own, the provider it read is still the session's, or closed. */
  ghost predicate ProcessKnown(sh: Shared, pc: Pc) {
    && (forall p: nat :: Holds(pc, p) ==> p < sh.started && p in sh.open && forall sid :: !Stored(sh, sid, p))
    && (pc.MfaSend? && pc.provider.Some? ==>
          pc.provider.value < sh.started && (pc.provider.value in sh.open ==> Stored(sh, pc.sid, pc.provider.value)))
    && (pc.MfaClear? ==> Closed(sh, pc.sid))
  }

  predicate InCode(pc: Pc) {
    pc.MfaRead? || pc.MfaSend? || pc.MfaClear?
  }

  /** Two threads hold different processes; a removal that meets a code call has closed the provider of both. */
  ghost predicate PairKnown(sh: Shared, a: Pc, b: Pc) {
    && (forall p: nat :: !(Holds(a, p) && Holds(b, p)))
    && (a.Clearing? && InCode(b) && a.sid == b.sid ==> Closed(sh, a.sid))
  }

  ghost predicate Accounted(s: System) {
    && ProcessesSound(s.shared)
    && (forall t :: t in s.threads ==> ProcessKnown(s.shared, s.threads[t]))
    && (forall t, u :: t in s.threads && u in s.threads && t != u ==> PairKnown(s.shared, s.threads[t], s.threads[u]))
  }

  // ---- one step and the processes ----

  /** A step starts at most one process, which it then holds, and stores only a process that it held. */
  ghost predicate Moves(sh: Shared, pc: Pc, u: Shared, next: Pc) {
    && sh.started <= u.started
    && (forall p :: p in u.open ==> p in sh.open || (p == sh.started && p < u.started && Holds(next, p)))
    && (forall p: nat :: Holds(next, p) ==> Holds(pc, p) || (p == sh.started && p < u.started && p in u.open))
    && (forall sid, p :: Stored(u, sid, p) ==> Stored(sh, sid, p) || (pc == PasswordStore(sid, p) && !Holds(next, p)))
  }

  lemma StepMoves(sh: Shared, pc: Pc, c: Choice)
    requires TablesSound(sh) && ThreadSound(sh, pc)
    ensures var (u, next) := Next(sh, pc, c); Moves(sh, pc, u, next)
  {
    hide OnSession, TablesSound, ThreadSound, Require, Expired, Oldest, StartStep;
    if pc.StartTables? { StartMoves(sh, pc); }
    else if HasSession(pc) {
      SessionExists(sh, pc);
      SessionStepMoves(sh, pc, c);
    } else if pc.Sweep? {
      SweepCallIsIdle(sh, pc);
    }
  }

  lemma SweepCallIsIdle(sh: Shared, pc: Pc)
    requires ThreadSound(sh, pc) && pc.Sweep?
    ensures forall p: nat :: !Holds(pc.call, p)
  {
  }

  lemma StartMoves(sh: Shared, pc: Pc)
    requires TablesSound(sh) && pc.StartTables?
    ensures var (u, next) := StartStep(sh, pc.source, pc.account, pc.expires); Moves(sh, pc, u, next)
  {
  }

  lemma SessionStepMoves(sh: Shared, pc: Pc, c: Choice)
    requires ThreadSound(sh, pc) && HasSession(pc) && pc.sid in sh.objects
    ensures var (u, next) := OnSession(sh, pc, c, sh.objects[pc.sid]); Moves(sh, pc, u, next)
  {
    hide OnSession;
    SessionStepStarts(sh, pc, c);
    SessionStepStores(sh, pc, c);
  }

  lemma SessionStepStarts(sh: Shared, pc: Pc, c: Choice)
    requires RemovalSound(sh, pc) && HasSession(pc) && pc.sid in sh.objects
    ensures var (u, next) := OnSession(sh, pc, c, sh.objects[pc.sid]);
      && sh.started <= u.started
      && (forall p :: p in u.open ==> p in sh.open || (p == sh.started && p < u.started && Holds(next, p)))
      && (forall p: nat :: Holds(next, p) ==> Holds(pc, p) || (p == sh.started && p < u.started && p in u.open))
  {
  }

  lemma SessionStepStores(sh: Shared, pc: Pc, c: Choice)
    requires HasSession(pc) && pc.sid in sh.objects
    ensures var (u, next) := OnSession(sh, pc, c, sh.objects[pc.sid]);
      forall sid, p :: Stored(u, sid, p) ==> Stored(sh, sid, p) || (pc == PasswordStore(sid, p) && !Holds(next, p))
  {
  }

  lemma SoundAfter(sh: Shared, pc: Pc, u: Shared, next: Pc)
    requires ProcessesSound(sh) && ProcessKnown(sh, pc) && Moves(sh, pc, u, next)
    ensures ProcessesSound(u)
  {
    forall sid, p: nat | Stored(u, sid, p) ensures p < u.started && forall y :: Stored(u, y, p) ==> y == sid {
      assert Stored(sh, sid, p) || Holds(pc, p);
      forall y | Stored(u, y, p) ensures y == sid {
        assert Stored(sh, y, p) || pc == PasswordStore(y, p);
        assert Stored(sh, y, p) || Stored(sh, sid, p) ==> !Holds(pc, p);
      }
    }
    forall a, b | a in u.objects && b in u.objects && a != b && u.objects[a].provider.Some?
      ensures u.objects[a].provider != u.objects[b].provider
    {
      var p := u.objects[a].provider.value;
      assert Stored(u, a, p);
      assert Stored(u, b, p) ==> b == a;
    }
    forall sid | sid in u.objects && u.objects[sid].provider.Some? ensures u.objects[sid].provider.value < u.started {
      assert Stored(u, sid, u.objects[sid].provider.value);
    }
  }

  /** The provider that a code call has just read, or just closed. */
  lemma CodeMover(sh: Shared, pc: Pc, c: Choice)
    requires ThreadSound(sh, pc) && ProcessesSound(sh)
    ensures var (u, next) := Next(sh, pc, c);
      && (next.MfaSend? && next.provider.Some? ==>
            next.provider.value < u.started && Stored(u, next.sid, next.provider.value))
      && (next.MfaClear? || next.Clearing? ==> Closed(u, next.sid))
  {
    hide StartStep, Oldest, Expired, Require, OnSession, ProcessesSound;
    if pc.StartTables? { StartEnds(sh, pc.source, pc.account, pc.expires); }
    if HasSession(pc) { SessionCodeMover(sh, pc, c); }
  }

  lemma SessionCodeMover(sh: Shared, pc: Pc, c: Choice)
    requires ThreadSound(sh, pc) && ProcessesSound(sh) && HasSession(pc) && pc.sid in sh.objects
    ensures var (u, next) := OnSession(sh, pc, c, sh.objects[pc.sid]);
      && (next.MfaSend? && next.provider.Some? ==>
            next.provider.value < u.started && Stored(u, next.sid, next.provider.value))
      && (next.MfaClear? || next.Clearing? ==> Closed(u, next.sid))
  {
    hide Write, Detach;
  }

  /** A process is closed by the thread that holds it, by a code call on its session, or by a removal of that session. */
  lemma StepCloses(sh: Shared, pc: Pc, c: Choice, p: nat)
    requires p in sh.open && p !in Next(sh, pc, c).0.open
    ensures !Holds(Next(sh, pc, c).1, p)
    ensures Holds(pc, p) || (pc.MfaSend? && pc.provider == Some(p)) || (pc.Closing? && Stored(sh, pc.sid, p))
  {
    hide StartStep, Oldest, Expired, Require, OnSession;
    if pc.StartTables? { StartCloses(sh, pc.source, pc.account, pc.expires); }
    if HasSession(pc) && pc.sid in sh.objects { SessionStepCloses(sh, pc, c, p); }
  }

  lemma StartCloses(sh: Shared, source: int, account: string, expires: Time)
    ensures StartStep(sh, source, account, expires).0.open == sh.open
  {
  }

  lemma SessionStepCloses(sh: Shared, pc: Pc, c: Choice, p: nat)
    requires HasSession(pc) && pc.sid in sh.objects
    requires p in sh.open && p !in OnSession(sh, pc, c, sh.objects[pc.sid]).0.open
    ensures !Holds(OnSession(sh, pc, c, sh.objects[pc.sid]).1, p)
    ensures Holds(pc, p) || (pc.MfaSend? && pc.provider == Some(p)) || (pc.Closing? && Stored(sh, pc.sid, p))
  {
  }

  lemma MoverKnows(sh: Shared, pc: Pc, c: Choice)
    requires TablesSound(sh) && ThreadSound(sh, pc) && ProcessesSound(sh) && ProcessKnown(sh, pc)
    ensures var (u, next) := Next(sh, pc, c); ProcessKnown(u, next)
  {
    hide Next, TablesSound, ThreadSound, Closed;
    var (u, next) := Next(sh, pc, c);
    StepMoves(sh, pc, c);
    CodeMover(sh, pc, c);
    forall p: nat | Holds(next, p) ensures p < u.started && p in u.open && forall sid :: !Stored(u, sid, p) {
      if p in sh.open && p !in u.open { StepCloses(sh, pc, c, p); }
      forall sid ensures !Stored(u, sid, p) {
        assert Stored(u, sid, p) ==> Stored(sh, sid, p) || Holds(pc, p);
      }
    }
  }

  /** Only the last step of its removal takes a provider from a session that no thread is inside. */
  lemma OnlyClearingForgets(sh: Shared, pc: Pc, c: Choice, sid: nat, p: nat)
    requires TablesSound(sh) && ThreadSound(sh, pc) && Stored(sh, sid, p)
    requires Inside(pc) ==> pc.sid != sid
    ensures Stored(Next(sh, pc, c).0, sid, p) || (pc.Clearing? && pc.sid == sid)
  {
    hide StartStep, OnSession, TablesSound;
    if pc.StartTables? { StartAddsObjects(sh, pc.source, pc.account, pc.expires); }
    if HasSession(pc) { SessionForgets(sh, pc, c, sid, p); }
  }

  lemma SessionForgets(sh: Shared, pc: Pc, c: Choice, sid: nat, p: nat)
    requires HasSession(pc) && pc.sid in sh.objects && Stored(sh, sid, p)
    requires Inside(pc) ==> pc.sid != sid
    ensures Stored(OnSession(sh, pc, c, sh.objects[pc.sid]).0, sid, p) || (pc.Clearing? && pc.sid == sid)
  {
  }

  lemma ClosedStays(sh: Shared, pc: Pc, c: Choice, sid: nat)
    requires TablesSound(sh) && ThreadSound(sh, pc) && ProcessesSound(sh) && sid in sh.objects && Closed(sh, sid)
    requires Inside(pc) ==> pc.sid != sid
    ensures Closed(Next(sh, pc, c).0, sid)
  {
    hide Next, TablesSound, ThreadSound;
    StepMoves(sh, pc, c);
    StepRespects(sh, pc, c, sid);
  }

  lemma OtherKnows(sh: Shared, pc: Pc, c: Choice, other: Pc)
    requires TablesSound(sh) && ThreadSound(sh, pc) && ThreadSound(sh, other) && ProcessesSound(sh)
    requires ProcessKnown(sh, pc) && ProcessKnown(sh, other) && PairKnown(sh, pc, other) && Exclusive(pc, other)
    ensures ProcessKnown(Next(sh, pc, c).0, other)
  {
    hide Next, TablesSound, ThreadSound;
    var u := Next(sh, pc, c).0;
    StepMoves(sh, pc, c);
    forall p: nat | Holds(other, p) ensures p < u.started && p in u.open && forall sid :: !Stored(u, sid, p) {
      if p !in u.open { StepCloses(sh, pc, c, p); }
      forall sid ensures !Stored(u, sid, p) {
        assert Stored(u, sid, p) ==> Stored(sh, sid, p) || Holds(pc, p);
      }
    }
    if InCode(other) { SessionExists(sh, other); }
    if other.MfaSend? && other.provider.Some? && other.provider.value in u.open {
      OnlyClearingForgets(sh, pc, c, other.sid, other.provider.value);
    }
    if other.MfaClear? { ClosedStays(sh, pc, c, other.sid); }
  }

  lemma HeldApartAfter(sh: Shared, pc: Pc, u: Shared, next: Pc, other: Pc)
    requires ProcessKnown(sh, other) && Moves(sh, pc, u, next)
    requires forall p: nat :: !(Holds(pc, p) && Holds(other, p))
    ensures forall p: nat :: !(Holds(next, p) && Holds(other, p))
  {
  }

  /** A code call reaches its provider from inside the session, after the lock. */
  lemma CodeIsEntered(sh: Shared, pc: Pc, c: Choice)
    requires RemovalSound(sh, pc)
    ensures var (u, next) := Next(sh, pc, c);
      InCode(next) ==> next.sid == pc.sid && (pc.MfaMark? || (InCode(pc) && (next.MfaClear? || u == sh)))
  {
    hide StartStep, Oldest, Expired, Require;
    if pc.StartTables? { StartEnds(sh, pc.source, pc.account, pc.expires); }
  }

  lemma MoverPairs(sh: Shared, pc: Pc, c: Choice, other: Pc)
    requires TablesSound(sh) && ThreadSound(sh, pc) && ProcessesSound(sh) && ProcessKnown(sh, pc) && ProcessKnown(sh, other)
    requires PairKnown(sh, pc, other) && PairKnown(sh, other, pc) && Exclusive(pc, other)
    ensures var (u, next) := Next(sh, pc, c); PairKnown(u, next, other) && PairKnown(u, other, next)
  {
    hide Next, TablesSound, Closed, Inside;
    var (u, next) := Next(sh, pc, c);
    StepMoves(sh, pc, c);
    HeldApartAfter(sh, pc, u, next, other);
    CodeMover(sh, pc, c);
    CodeIsEntered(sh, pc, c);
  }

  lemma OtherPairs(sh: Shared, pc: Pc, c: Choice, a: Pc, b: Pc)
    requires TablesSound(sh) && ThreadSound(sh, pc) && ThreadSound(sh, a) && ProcessesSound(sh)
    requires PairKnown(sh, a, b) && Exclusive(pc, b)
    ensures PairKnown(Next(sh, pc, c).0, a, b)
  {
    hide Next, TablesSound, ThreadSound, Closed;
    if a.Clearing? && InCode(b) && a.sid == b.sid {
      SessionExists(sh, a);
      ClosedStays(sh, pc, c, a.sid);
    }
  }

  lemma GoKeepsAccounted(s: System, tid: nat, c: Choice)
    requires Invariant(s) && Accounted(s) && Enabled(s, tid)
    ensures Accounted(Step(s, Go(tid, c)))
  {
    hide Next, TablesSound, ProvidersFit, ThreadSound, ProcessKnown, ProcessesSound, PairKnown, Exclusive, NeedsLock, HoldsLock;
    var pc := s.threads[tid];
    var u := Step(s, Go(tid, c));
    StepMoves(s.shared, pc, c);
    SoundAfter(s.shared, pc, u.shared, u.threads[tid]);
    MoverKnows(s.shared, pc, c);
    forall t | t in s.threads && t != tid
      ensures ProcessKnown(u.shared, s.threads[t])
      ensures PairKnown(u.shared, u.threads[tid], s.threads[t]) && PairKnown(u.shared, s.threads[t], u.threads[tid])
    {
      OtherKnows(s.shared, pc, c, s.threads[t]);
      MoverPairs(s.shared, pc, c, s.threads[t]);
    }
    forall t, v | t in s.threads && v in s.threads && t != v && t != tid && v != tid
      ensures PairKnown(u.shared, s.threads[t], s.threads[v])
    {
      OtherPairs(s.shared, pc, c, s.threads[t], s.threads[v]);
    }
  }

  lemma SpawnKeepsAccounted(s: System, tid: nat, call: Pc)
    requires Accounted(s) && Initial(call)
    ensures Accounted(Step(s, Spawn(tid, call)))
  {
  }

  lemma {:induction false} EveryRunAccounts(labels: seq<Label>)
    ensures Accounted(Run(labels)) && Invariant(Run(labels))
  {
    hide Invariant, Next, Accounted, Initial, Enabled;
    EveryRunIsSound(labels);
    if labels == [] {
      NothingRuns();
    } else {
      var s := Run(labels[..|labels| - 1]);
      EveryRunAccounts(labels[..|labels| - 1]);
      match labels[|labels| - 1]
      case Spawn(tid, call) => if Initial(call) { SpawnKeepsAccounted(s, tid, call); }
      case Go(tid, c) => if Enabled(s, tid) { GoKeepsAccounted(s, tid, c); }
    }
  }

  lemma NothingRuns()
    ensures Accounted(System(NOTHING, map[]))
  {
  }
}
