/**
 * Processes that sign-in threads lose or leak: a provider stored while its session is being removed. The unlocked store
 * can fall between the two last steps of a removal, or after them.
 */
module SignInLosses {
  import opened SignIn
  import opened SignInSafety
  import opened SignInProcesses
  import opened SignInLimits

  // ---- one step ----

  lemma UnopenedStays(s: System, l: Label, p: nat)
    requires Invariant(s) && Accounted(s) && p < s.shared.started && p !in s.shared.open
    ensures p !in Step(s, l).shared.open && s.shared.started <= Step(s, l).shared.started
  {
    hide Next, TablesSound, ProvidersFit, ThreadSound, Exclusive, NeedsLock, HoldsLock, PairKnown;
    if l.Go? && Enabled(s, l.tid) { StepMoves(s.shared, s.threads[l.tid], l.choice); }
  }

  lemma SpawnOwnsNothing(call: Pc, p: nat)
    requires Initial(call)
    ensures !Holds(call, p)
  {
  }

  /** Nothing closes a process that nobody owns, and nobody gets hold of it again. */
  lemma LostStays(s: System, l: Label, p: nat)
    requires Invariant(s) && Accounted(s) && Lost(s, p)
    ensures Lost(Step(s, l), p)
  {
    hide Next, TablesSound, ProvidersFit, ThreadSound, Exclusive, NeedsLock, HoldsLock, PairKnown, Initial, Holds, Stored;
    var u := Step(s, l);
    assert p < s.shared.started;
    match l
    case Spawn(tid, call) => if Initial(call) { SpawnOwnsNothing(call, p); }
    case Go(tid, c) =>
      if Enabled(s, tid) {
        var pc := s.threads[tid];
        StepMoves(s.shared, pc, c);
        assert !Holds(pc, p);
        NobodyCloses(s.shared, pc, c, p);
        forall sid ensures !Stored(u.shared, sid, p) {
          if Stored(u.shared, sid, p) { StoreIsHeld(s.shared, pc, u.shared, u.threads[tid], sid, p); }
        }
      }
  }

  lemma NobodyCloses(sh: Shared, pc: Pc, c: Choice, p: nat)
    requires ProcessKnown(sh, pc) && p in sh.open && !Holds(pc, p) && forall sid :: !Stored(sh, sid, p)
    ensures p in Next(sh, pc, c).0.open
  {
    hide Next;
    if p !in Next(sh, pc, c).0.open { StepCloses(sh, pc, c, p); }
  }

  lemma StoreIsHeld(sh: Shared, pc: Pc, u: Shared, next: Pc, sid: nat, p: nat)
    requires Moves(sh, pc, u, next) && Stored(u, sid, p) && !Stored(sh, sid, p)
    ensures pc == PasswordStore(sid, p) && Holds(pc, p)
  {
  }

  /** A thread gives up an open process only by storing it in its session. */
  lemma HolderKeeps(sh: Shared, pc: Pc, c: Choice, p: nat)
    requires SessionSound(sh, pc) && Holds(pc, p)
    ensures var (u, next) := Next(sh, pc, c); p in u.open ==> Holds(next, p) || (pc.PasswordStore? && Stored(u, pc.sid, p))
  {
  }

  /** A thread inside a session takes its provider only after it has closed it. */
  lemma InsiderKeeps(sh: Shared, pc: Pc, c: Choice, p: nat)
    requires ThreadSound(sh, pc) && ProcessKnown(sh, pc) && Inside(pc) && Stored(sh, pc.sid, p) && p in sh.open
    ensures p in Next(sh, pc, c).0.open ==> Stored(Next(sh, pc, c).0, pc.sid, p)
  {
  }

  lemma StoreForgotten(sh: Shared, pc: Pc, c: Choice, sid: nat, p: nat)
    requires TablesSound(sh) && ThreadSound(sh, pc) && ProcessKnown(sh, pc) && Stored(sh, sid, p) && p in sh.open
    ensures p in Next(sh, pc, c).0.open ==> Stored(Next(sh, pc, c).0, sid, p) || (pc.Clearing? && pc.sid == sid)
  {
    hide Next, TablesSound, ThreadSound, ProcessKnown, Stored;
    if Inside(pc) && pc.sid == sid {
      InsiderKeeps(sh, pc, c, p);
    } else {
      OnlyClearingForgets(sh, pc, c, sid, p);
    }
  }

  lemma HeldIsOwned(s: System, tid: nat, c: Choice, p: nat)
    requires Invariant(s) && Accounted(s) && Enabled(s, tid)
    requires Holds(s.threads[tid], p) || p !in s.shared.open
    ensures var u := Step(s, Go(tid, c)); p in u.shared.open ==> Owned(u, p)
  {
    hide Next, TablesSound, ProvidersFit, Exclusive, NeedsLock, HoldsLock, PairKnown, ProcessKnown, Holds, Stored, Inside;
    StepMoves(s.shared, s.threads[tid], c);
    if Holds(s.threads[tid], p) { HolderKeeps(s.shared, s.threads[tid], c, p); }
    assert tid in Step(s, Go(tid, c)).threads;
  }

  lemma HolderElsewhere(s: System, l: Label, t: nat, p: nat)
    requires t in s.threads && Holds(s.threads[t], p) && (l.Go? ==> l.tid != t)
    ensures Owned(Step(s, l), p)
  {
    hide Next;
    assert t in Step(s, l).threads;
  }

  /** A step loses a process only by clearing the session that stores it, still open, at the end of a removal. */
  lemma StepLoses(s: System, tid: nat, c: Choice, p: nat)
    requires Invariant(s) && Accounted(s) && Enabled(s, tid)
    requires !Lost(s, p) && Lost(Step(s, Go(tid, c)), p)
    ensures s.threads[tid].Clearing? && Stored(s.shared, s.threads[tid].sid, p) && p in s.shared.open
  {
    hide Next, TablesSound, ProvidersFit, Exclusive, NeedsLock, HoldsLock, PairKnown, ProcessKnown, Holds, Stored, Inside;
    var pc := s.threads[tid];
    if Holds(pc, p) || p !in s.shared.open {
      HeldIsOwned(s, tid, c, p);
    } else if t :| t in s.threads && Holds(s.threads[t], p) {
      HolderElsewhere(s, Go(tid, c), t, p);
    } else {
      var sid :| Stored(s.shared, sid, p);
      StoreForgotten(s.shared, pc, c, sid, p);
    }
  }

  // ---- whole runs ----

  function At(labels: seq<Label>, n: nat): System
    requires n <= |labels|
  {
    Run(labels[..n])
  }

  /** The n-th step stores the provider process of an accepted password in its session. */
  predicate StoresAt(labels: seq<Label>, n: nat, sid: nat, p: nat) {
    && n < |labels| && labels[n].Go?
    && labels[n].tid in At(labels, n).threads && At(labels, n).threads[labels[n].tid] == PasswordStore(sid, p)
  }

  /** The thread is removing the session: it has closed the provider it found, and not yet cleared it. */
  predicate BetweenCloseAndClear(s: System, t: nat, sid: nat) {
    t in s.threads && s.threads[t].Clearing? && s.threads[t].sid == sid
  }

  predicate ClearsAt(labels: seq<Label>, n: nat, t: nat, sid: nat) {
    n < |labels| && labels[n].Go? && labels[n].tid == t && BetweenCloseAndClear(At(labels, n), t, sid)
  }

  /** The store of the process fell between the close and the clear of a removal of the same session. */
  ghost predicate StoredBetween(labels: seq<Label>, p: nat) {
    exists b: nat, d: nat, t: nat, sid: nat :: b < d && StoresAt(labels, b, sid, p)
      && BetweenCloseAndClear(At(labels, b), t, sid) && ClearsAt(labels, d, t, sid)
  }

  lemma AtPrefix(labels: seq<Label>, n: nat, m: nat)
    requires n <= m <= |labels|
    ensures At(labels[..m], n) == At(labels, n)
  {
    hide Run;
    assert labels[..m][..n] == labels[..n];
  }

  lemma AtNext(labels: seq<Label>, n: nat)
    requires n < |labels|
    ensures At(labels, n + 1) == Step(At(labels, n), labels[n])
  {
    hide Step;
    assert labels[..n + 1][..n] == labels[..n];
  }

  /** An open process that a session stores while its removal is about to clear it was stored in between. */
  lemma {:induction false} StoredWhileClearing(labels: seq<Label>, n: nat, t: nat, sid: nat, p: nat)
    requires n <= |labels| && BetweenCloseAndClear(At(labels, n), t, sid)
    requires Stored(At(labels, n).shared, sid, p) && p in At(labels, n).shared.open
    ensures exists b: nat :: b < n && StoresAt(labels, b, sid, p) && BetweenCloseAndClear(At(labels, b), t, sid)
  {
    hide Run, Next, Stored, Invariant, Accounted, Enabled, Initial;
    if n == 0 {
      NothingClears();
    } else {
      var m := n - 1;
      var s := At(labels, m);
      AtNext(labels, m);
      EveryRunAccounts(labels[..m]);
      ClearingBefore(s, labels[m], t, sid, p);
      if Stored(s.shared, sid, p) && p in s.shared.open {
        StoredWhileClearing(labels, m, t, sid, p);
      } else {
        assert StoresAt(labels, m, sid, p);
      }
    }
  }

  lemma NothingClears()
    ensures Run([]) == System(NOTHING, map[])
  {
  }

  /** What a step finds that leaves a removal before its last step with an open process stored. */
  lemma ClearingBefore(s: System, l: Label, t: nat, sid: nat, p: nat)
    requires Invariant(s) && Accounted(s) && BetweenCloseAndClear(Step(s, l), t, sid)
    requires Stored(Step(s, l).shared, sid, p) && p in Step(s, l).shared.open
    ensures BetweenCloseAndClear(s, t, sid)
    ensures (Stored(s.shared, sid, p) && p in s.shared.open) ||
      (l.Go? && l.tid in s.threads && s.threads[l.tid] == PasswordStore(sid, p))
  {
    hide Next, TablesSound, ProvidersFit, Exclusive, NeedsLock, HoldsLock, PairKnown;
    if l.Go? && Enabled(s, l.tid) {
      var pc := s.threads[l.tid];
      StepMoves(s.shared, pc, l.choice);
      CodeMover(s.shared, pc, l.choice);
    }
  }

  // ---- when a process is lost ----

  lemma {:induction false} OpenBefore(labels: seq<Label>, m: nat, n: nat, p: nat)
    requires m <= n <= |labels| && p < At(labels, m).shared.started && p in At(labels, n).shared.open
    ensures p in At(labels, m).shared.open && p < At(labels, n).shared.started
    decreases n
  {
    hide Run, Next, Invariant, Accounted, Step;
    if m < n {
      AtNext(labels, n - 1);
      EveryRunAccounts(labels[..n - 1]);
      StartedStays(labels, m, n - 1, p);
      if p !in At(labels, n - 1).shared.open { UnopenedStays(At(labels, n - 1), labels[n - 1], p); }
      OpenBefore(labels, m, n - 1, p);
      StartedStays(labels, m, n, p);
    }
  }

  lemma {:induction false} StartedStays(labels: seq<Label>, m: nat, n: nat, p: nat)
    requires m <= n <= |labels| && p < At(labels, m).shared.started
    ensures p < At(labels, n).shared.started
    decreases n
  {
    hide Run, Next, Invariant, Accounted, Step;
    if m < n {
      StartedStays(labels, m, n - 1, p);
      AtNext(labels, n - 1);
      EveryRunAccounts(labels[..n - 1]);
      StartedGrows(At(labels, n - 1), labels[n - 1]);
    }
  }

  lemma StartedGrows(s: System, l: Label)
    requires Invariant(s)
    ensures s.shared.started <= Step(s, l).shared.started
  {
    hide Next, TablesSound, ProvidersFit, ThreadSound, Exclusive, NeedsLock, HoldsLock;
    if l.Go? && Enabled(s, l.tid) { StepMoves(s.shared, s.threads[l.tid], l.choice); }
  }

  /** The session stores the process, its removal is about to clear it, and whoever is inside the session only leaves it. */
  predicate AwaitsClear(s: System, t: nat, sid: nat, p: nat) {
    && BetweenCloseAndClear(s, t, sid) && Stored(s.shared, sid, p)
    && (forall u :: u in s.threads && Inside(s.threads[u]) && s.threads[u].sid == sid ==> s.threads[u].Release?)
  }

  lemma StoreAwaits(s: System, l: Label, t: nat, sid: nat, p: nat)
    requires Invariant(s) && l.Go? && l.tid in s.threads && s.threads[l.tid] == PasswordStore(sid, p)
    requires BetweenCloseAndClear(s, t, sid)
    ensures AwaitsClear(Step(s, l), t, sid, p)
  {
    hide TablesSound, ProvidersFit;
    assert ThreadSound(s.shared, s.threads[l.tid]);
    assert Enabled(s, l.tid);
  }

  /** Nobody enters the session while its removal holds the lock. */
  lemma AwaitsUntilCleared(s: System, l: Label, t: nat, sid: nat, p: nat)
    requires Invariant(s) && Accounted(s) && AwaitsClear(s, t, sid, p) && p in s.shared.open
    requires l.Go? ==> l.tid != t
    ensures AwaitsClear(Step(s, l), t, sid, p)
  {
    hide Next, TablesSound, ProvidersFit, PairKnown, ProcessesSound, ProcessKnown, Stored;
    if l.Go? && Enabled(s, l.tid) {
      var pc := s.threads[l.tid];
      assert Exclusive(s.threads[t], pc) && HoldsLock(s.threads[t]);
      InsideIsEntered(s.shared, pc, l.choice);
      ReleaseLeaves(s.shared, pc, l.choice);
      if Inside(pc) && pc.sid == sid {
        ReleaseKeepsProvider(s.shared, pc, l.choice, p);
      } else {
        OnlyClearingForgets(s.shared, pc, l.choice, sid, p);
      }
    }
  }

  lemma ReleaseLeaves(sh: Shared, pc: Pc, c: Choice)
    ensures pc.Release? ==> !Inside(Next(sh, pc, c).1)
  {
  }

  lemma ReleaseKeepsProvider(sh: Shared, pc: Pc, c: Choice, p: nat)
    requires pc.Release? && Stored(sh, pc.sid, p)
    ensures Stored(Next(sh, pc, c).0, pc.sid, p)
  {
  }

  lemma ClearLoses(s: System, t: nat, c: Choice, sid: nat, p: nat)
    requires Invariant(s) && Accounted(s) && AwaitsClear(s, t, sid, p) && p in s.shared.open
    ensures Lost(Step(s, Go(t, c)), p)
  {
    hide TablesSound, ProvidersFit, PairKnown;
    assert ThreadSound(s.shared, s.threads[t]);
    assert forall u :: u in s.threads ==> !Holds(s.threads[u], p);
    assert forall x :: Stored(s.shared, x, p) ==> x == sid;
  }

  /** From the store on, the process awaits the clear or is lost, and after the clear it is lost. */
  lemma {:induction false} StoreIsLost(labels: seq<Label>, b: nat, n: nat, t: nat, sid: nat, p: nat)
    requires b < n <= |labels| && StoresAt(labels, b, sid, p) && BetweenCloseAndClear(At(labels, b), t, sid)
    requires p in At(labels, n).shared.open
    ensures Lost(At(labels, n), p) || AwaitsClear(At(labels, n), t, sid, p)
    ensures (exists d: nat :: b < d < n && ClearsAt(labels, d, t, sid)) ==> Lost(At(labels, n), p)
    decreases n
  {
    hide Run, Next, Invariant, Accounted, Step, AwaitsClear, Lost;
    var m := n - 1;
    var s := At(labels, m);
    AtNext(labels, m);
    EveryRunAccounts(labels[..m]);
    if m == b {
      StoreAwaits(s, labels[m], t, sid, p);
    } else {
      StoredIsKnown(labels, b, sid, p);
      StartedStays(labels, b, m, p);
      OpenBefore(labels, m, n, p);
      StoreIsLost(labels, b, m, t, sid, p);
      if Lost(s, p) {
        LostStays(s, labels[m], p);
      } else if labels[m].Go? && labels[m].tid == t {
        ClearLoses(s, t, labels[m].choice, sid, p);
      } else {
        AwaitsUntilCleared(s, labels[m], t, sid, p);
      }
    }
  }

  lemma StoredIsKnown(labels: seq<Label>, b: nat, sid: nat, p: nat)
    requires b < |labels| && StoresAt(labels, b, sid, p)
    ensures p < At(labels, b).shared.started
  {
    hide Run, Invariant;
    EveryRunAccounts(labels[..b]);
    var s := At(labels, b);
    assert ProcessKnown(s.shared, s.threads[labels[b].tid]) && Holds(s.threads[labels[b].tid], p);
  }

  lemma BetweenLater(labels: seq<Label>, n: nat, p: nat)
    requires n <= |labels| && StoredBetween(labels[..n], p)
    ensures StoredBetween(labels, p)
  {
    hide Run;
    var before := labels[..n];
    var b: nat, d: nat, t: nat, sid: nat :| b < d && StoresAt(before, b, sid, p)
      && BetweenCloseAndClear(At(before, b), t, sid) && ClearsAt(before, d, t, sid);
    AtPrefix(labels, b, n);
    AtPrefix(labels, d, n);
    assert StoresAt(labels, b, sid, p) && ClearsAt(labels, d, t, sid);
  }

  lemma {:induction false} LostWasStoredBetween(labels: seq<Label>, p: nat)
    requires Lost(Run(labels), p)
    ensures StoredBetween(labels, p)
  {
    hide Next, Invariant, Accounted, Lost, Stored, Enabled, StoredBetween, Initial;
    if labels == [] {
      NothingIsOpen(p);
    } else {
      var n := |labels| - 1;
      var s := Run(labels[..n]);
      EveryRunAccounts(labels[..n]);
      if Lost(s, p) {
        LostWasStoredBetween(labels[..n], p);
        BetweenLater(labels, n, p);
      } else {
        LosingStep(s, labels[n], p);
        var (t, sid) := (labels[n].tid, s.threads[labels[n].tid].sid);
        assert At(labels, n) == s;
        StoredWhileClearing(labels, n, t, sid, p);
        ClearedAfterStore(labels, n, t, sid, p);
      }
    }
  }

  lemma ClearedAfterStore(labels: seq<Label>, d: nat, t: nat, sid: nat, p: nat)
    requires ClearsAt(labels, d, t, sid)
    requires exists b: nat :: b < d && StoresAt(labels, b, sid, p) && BetweenCloseAndClear(At(labels, b), t, sid)
    ensures StoredBetween(labels, p)
  {
    hide Run;
  }

  lemma NothingIsOpen(p: nat)
    ensures !Lost(Run([]), p)
  {
  }

  lemma LosingStep(s: System, l: Label, p: nat)
    requires Invariant(s) && Accounted(s) && !Lost(s, p) && Lost(Step(s, l), p)
    ensures l.Go? && l.tid in s.threads
    ensures s.threads[l.tid].Clearing? && Stored(s.shared, s.threads[l.tid].sid, p) && p in s.shared.open
  {
    hide Next, Invariant, Accounted, Stored, Holds, Initial, NeedsLock, HoldsLock;
    match l
    case Go(tid, c) => if Enabled(s, tid) { StepLoses(s, tid, c, p); }
    case Spawn(tid, call) =>
      if tid !in s.threads && Initial(call) && p in s.shared.open {
        if t :| t in s.threads && Holds(s.threads[t], p) { HolderElsewhere(s, l, t, p); }
      }
  }

  /**
   * Under every interleaving an open process has neither a thread that holds it nor a session that stores it exactly
   * when it was stored between the close and the clear of a removal of its session.
   */
  lemma ProcessLostIff(labels: seq<Label>, p: nat)
    requires p in Run(labels).shared.open
    ensures Lost(Run(labels), p) <==> StoredBetween(labels, p)
  {
    hide Run, Lost, BetweenCloseAndClear;
    assert labels[..|labels|] == labels;
    if Lost(Run(labels), p) { LostWasStoredBetween(labels, p); }
    if StoredBetween(labels, p) {
      var b: nat, d: nat, t: nat, sid: nat :| b < d && StoresAt(labels, b, sid, p)
        && BetweenCloseAndClear(At(labels, b), t, sid) && ClearsAt(labels, d, t, sid);
      StoreIsLost(labels, b, |labels|, t, sid, p);
    }
  }

  /** A lost process is never closed: in every continuation it is still open, and nobody can reach it to close it. */
  lemma {:induction false} LostForever(labels: seq<Label>, more: seq<Label>, p: nat)
    requires Lost(Run(labels), p)
    ensures Lost(Run(labels + more), p)
    decreases |more|
  {
    hide Run, Step, Lost;
    if more == [] {
      assert labels + more == labels;
    } else {
      LostForever(labels, more[..|more| - 1], p);
      EveryRunAccounts(labels + more[..|more| - 1]);
      SplitRun(labels, more);
      LostStays(Run(labels + more[..|more| - 1]), more[|more| - 1], p);
    }
  }
}
