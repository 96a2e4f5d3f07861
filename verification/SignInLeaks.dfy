/**
 * Processes that outlive their session: the answer to a password is stored after the session has been removed, and no
 * call can name the session any more.
 */
module SignInLeaks {
  import opened Text
  import opened SignIn
  import opened SignInSafety
  import opened SignInRuns
  import opened SignInProcesses
  import opened SignInLimits
  import opened SignInLosses

  // ---- sessions nobody works on ----

  /** The session has left the table, and the only thing a thread still does to it is to write that it waits for a code. */
  predicate Abandoned(s: System, sid: nat) {
    && sid in s.shared.objects && sid !in s.shared.live
    && (forall t :: t in s.threads && HasSession(s.threads[t]) && s.threads[t].sid == sid ==>
          s.threads[t] == Release(sid, MfaRequired))
  }

  /** An abandoned session stores an open process. */
  predicate Leaked(s: System, sid: nat, p: nat) {
    Abandoned(s, sid) && Stored(s.shared, sid, p) && p in s.shared.open
  }

  /** A thread comes to a session by finding it in the table. */
  lemma SessionIsFound(sh: Shared, pc: Pc, c: Choice)
    requires TablesSound(sh) && ThreadSound(sh, pc)
    ensures var next := Next(sh, pc, c).1;
      HasSession(next) ==> (HasSession(pc) && next.sid == pc.sid) || next.sid in sh.live
  {
    hide Next, OnSession, TablesSound;
    if HasSession(pc) {
      SessionExists(sh, pc);
      StepsOnSession(sh, pc, c);
      SessionIsKept(sh, pc, c);
    } else {
      LookupFinds(sh, pc, c);
    }
  }

  lemma SessionIsKept(sh: Shared, pc: Pc, c: Choice)
    requires ThreadSound(sh, pc) && HasSession(pc) && pc.sid in sh.objects
    ensures var next := OnSession(sh, pc, c, sh.objects[pc.sid]).1; HasSession(next) ==> next.sid == pc.sid
  {
    hide Write, Close, Detach, SessionSound;
  }

  lemma LookupFinds(sh: Shared, pc: Pc, c: Choice)
    requires ThreadSound(sh, pc) && !HasSession(pc)
    ensures var next := Next(sh, pc, c).1; HasSession(next) ==> next.sid in sh.live
  {
    hide StartStep, Expired, OnSession, SessionSound;
    if pc.StartTables? { StartEnds(sh, pc.source, pc.account, pc.expires); }
  }

  lemma ReleaseEnds(sh: Shared, pc: Pc, c: Choice)
    requires pc.Release? && pc.next == MfaRequired
    ensures !HasSession(Next(sh, pc, c).1)
  {
  }

  lemma AbandonedStays(s: System, l: Label, sid: nat)
    requires Invariant(s) && Abandoned(s, sid)
    ensures Abandoned(Step(s, l), sid)
  {
    hide Next, TablesSound, ProvidersFit, Exclusive, NeedsLock, HoldsLock;
    if l.Go? && Enabled(s, l.tid) {
      var pc := s.threads[l.tid];
      ObjectsStay(s.shared, pc, l.choice);
      if sid in Step(s, l).shared.live { NotRelisted(s.shared, pc, l.choice, sid); }
      SessionIsFound(s.shared, pc, l.choice);
      if pc == Release(sid, MfaRequired) { ReleaseEnds(s.shared, pc, l.choice); }
    }
  }

  lemma LeakedStays(s: System, l: Label, sid: nat, p: nat)
    requires Invariant(s) && Accounted(s) && Leaked(s, sid, p)
    ensures Leaked(Step(s, l), sid, p)
  {
    hide Next, TablesSound, ProvidersFit, Exclusive, NeedsLock, HoldsLock, PairKnown, Abandoned, Inside;
    AbandonedStays(s, l, sid);
    if l.Go? && Enabled(s, l.tid) {
      var pc := s.threads[l.tid];
      NobodyAt(s, l.tid, sid);
      LeakedOpen(s.shared, pc, l.choice, sid, p);
      LeakedStored(s.shared, pc, l.choice, sid, p);
    }
  }

  lemma NobodyAt(s: System, t: nat, sid: nat)
    requires Abandoned(s, sid) && t in s.threads
    ensures HasSession(s.threads[t]) && s.threads[t].sid == sid ==> s.threads[t] == Release(sid, MfaRequired)
  {
  }

  lemma LeakedOpen(sh: Shared, pc: Pc, c: Choice, sid: nat, p: nat)
    requires ProcessesSound(sh) && ProcessKnown(sh, pc) && Stored(sh, sid, p) && p in sh.open
    requires HasSession(pc) && pc.sid == sid ==> pc == Release(sid, MfaRequired)
    ensures p in Next(sh, pc, c).0.open
  {
    hide Next;
    if p !in Next(sh, pc, c).0.open { StepCloses(sh, pc, c, p); }
  }

  lemma LeakedStored(sh: Shared, pc: Pc, c: Choice, sid: nat, p: nat)
    requires TablesSound(sh) && ThreadSound(sh, pc) && Stored(sh, sid, p)
    requires HasSession(pc) && pc.sid == sid ==> pc == Release(sid, MfaRequired)
    ensures Stored(Next(sh, pc, c).0, sid, p)
  {
    hide Next, TablesSound, ThreadSound, Stored;
    if Inside(pc) { InsideHasSession(pc); }
    if pc == Release(sid, MfaRequired) {
      ReleaseKeepsProvider(sh, pc, c, p);
    } else {
      OnlyClearingForgets(sh, pc, c, sid, p);
    }
  }

  /** A leaked process is never closed: every continuation leaves it open, in the same session that no call can name. */
  lemma {:induction false} LeakIsForever(labels: seq<Label>, more: seq<Label>, sid: nat, p: nat)
    requires Leaked(Run(labels), sid, p)
    ensures Leaked(Run(labels + more), sid, p)
    decreases |more|
  {
    hide Run, Step, Leaked;
    if more == [] {
      assert labels + more == labels;
    } else {
      LeakIsForever(labels, more[..|more| - 1], sid, p);
      EveryRunAccounts(labels + more[..|more| - 1]);
      SplitRun(labels, more);
      LeakedStays(Run(labels + more[..|more| - 1]), more[|more| - 1], sid, p);
    }
  }

  // ---- when a process is leaked ----

  /** The process was stored when its session had already left the table. */
  ghost predicate StoredLate(labels: seq<Label>, sid: nat, p: nat) {
    exists b: nat :: StoresAt(labels, b, sid, p) && sid !in At(labels, b).shared.live
  }

  lemma LateLater(labels: seq<Label>, n: nat, sid: nat, p: nat)
    requires n <= |labels| && StoredLate(labels[..n], sid, p)
    ensures StoredLate(labels, sid, p)
  {
    hide Run;
    var b: nat :| StoresAt(labels[..n], b, sid, p) && sid !in At(labels[..n], b).shared.live;
    AtPrefix(labels, b, n);
    assert StoresAt(labels, b, sid, p);
  }

  predicate BeingClosed(s: System, sid: nat) {
    exists t :: t in s.threads && s.threads[t].Closing? && s.threads[t].sid == sid
  }

  /** A removal closes what it finds, so what a session outside the table stores and is open came later. */
  lemma {:induction false} DetachedWasStoredLate(labels: seq<Label>, sid: nat, p: nat)
    requires Stored(Run(labels).shared, sid, p) && p in Run(labels).shared.open && sid !in Run(labels).shared.live
    ensures StoredLate(labels, sid, p) || BeingClosed(Run(labels), sid)
  {
    hide Next, Invariant, Accounted, Stored, Enabled, StoredLate, Initial, BeingClosed;
    if labels == [] {
      NothingIsStored(sid, p);
    } else {
      var n := |labels| - 1;
      var s := Run(labels[..n]);
      EveryRunAccounts(labels[..n]);
      if Stored(s.shared, sid, p) && p in s.shared.open && sid !in s.shared.live {
        DetachedWasStoredLate(labels[..n], sid, p);
        if StoredLate(labels[..n], sid, p) {
          LateLater(labels, n, sid, p);
        } else {
          ClosingStays(s, labels[n], sid, p);
        }
      } else {
        DetachingStep(s, labels[n], sid, p);
        if !BeingClosed(Step(s, labels[n]), sid) { StoredLateNow(labels, sid, p); }
      }
    }
  }

  lemma NothingIsStored(sid: nat, p: nat)
    ensures !Stored(Run([]).shared, sid, p)
  {
  }

  lemma StoredLateNow(labels: seq<Label>, sid: nat, p: nat)
    requires labels != []
    requires var (s, l) := (Run(labels[..|labels| - 1]), labels[|labels| - 1]);
      l.Go? && l.tid in s.threads && s.threads[l.tid] == PasswordStore(sid, p) && sid !in s.shared.live
    ensures StoredLate(labels, sid, p)
  {
    hide Run;
    assert StoresAt(labels, |labels| - 1, sid, p);
  }

  lemma ClosingStays(s: System, l: Label, sid: nat, p: nat)
    requires Invariant(s) && BeingClosed(s, sid) && Stored(s.shared, sid, p) && p in Step(s, l).shared.open
    ensures BeingClosed(Step(s, l), sid)
  {
    hide Next, TablesSound, ProvidersFit, ThreadSound, Exclusive, NeedsLock, HoldsLock;
    var t :| t in s.threads && s.threads[t].Closing? && s.threads[t].sid == sid;
    if l.Go? && l.tid == t {
      ClosingCloses(s.shared, s.threads[t], l.choice, p);
    } else {
      assert t in Step(s, l).threads;
    }
  }

  lemma ClosingCloses(sh: Shared, pc: Pc, c: Choice, p: nat)
    requires pc.Closing? && Stored(sh, pc.sid, p)
    ensures p !in Next(sh, pc, c).0.open
  {
  }

  /** How a session outside the table comes to store an open process. */
  lemma DetachingStep(s: System, l: Label, sid: nat, p: nat)
    requires Invariant(s) && Accounted(s)
    requires !(Stored(s.shared, sid, p) && p in s.shared.open && sid !in s.shared.live)
    requires var u := Step(s, l).shared; Stored(u, sid, p) && p in u.open && sid !in u.live
    ensures BeingClosed(Step(s, l), sid) ||
      (l.Go? && l.tid in s.threads && s.threads[l.tid] == PasswordStore(sid, p) && sid !in s.shared.live)
  {
    hide Next, TablesSound, ProvidersFit, Exclusive, NeedsLock, HoldsLock, PairKnown;
    assert l.Go? && Enabled(s, l.tid);
    var pc := s.threads[l.tid];
    var u := Step(s, l);
    StepMoves(s.shared, pc, l.choice);
    if sid in s.shared.live {
      DetachedIsClosing(s.shared, pc, l.choice, sid);
      assert l.tid in u.threads;
    }
  }

  lemma DetachedIsClosing(sh: Shared, pc: Pc, c: Choice, sid: nat)
    requires sid in sh.live && sid !in Next(sh, pc, c).0.live
    ensures var next := Next(sh, pc, c).1; next.Closing? && next.sid == sid
  {
    hide Oldest, Expired, Require;
  }

  /** From its store on, a process that is still open is stored in that session or lost. */
  lemma {:induction false} StoreEndures(labels: seq<Label>, b: nat, n: nat, sid: nat, p: nat)
    requires b < n <= |labels| && StoresAt(labels, b, sid, p) && p in At(labels, n).shared.open
    ensures Lost(At(labels, n), p) || Stored(At(labels, n).shared, sid, p)
    decreases n
  {
    hide Run, Next, Invariant, Accounted, Step, Lost, Stored;
    var m := n - 1;
    var s := At(labels, m);
    AtNext(labels, m);
    EveryRunAccounts(labels[..m]);
    if m == b {
      StoreStores(s, labels[m], sid, p);
    } else {
      StoredIsKnown(labels, b, sid, p);
      StartedStays(labels, b, m, p);
      OpenBefore(labels, m, n, p);
      StoreEndures(labels, b, m, sid, p);
      if Lost(s, p) { LostStays(s, labels[m], p); } else { StoredOrLost(s, labels[m], sid, p); }
    }
  }

  lemma StoreStores(s: System, l: Label, sid: nat, p: nat)
    requires Invariant(s) && l.Go? && l.tid in s.threads && s.threads[l.tid] == PasswordStore(sid, p)
    ensures Stored(Step(s, l).shared, sid, p)
  {
    hide TablesSound, ProvidersFit;
    assert ThreadSound(s.shared, s.threads[l.tid]);
    assert Enabled(s, l.tid);
  }

  lemma StoredOrLost(s: System, l: Label, sid: nat, p: nat)
    requires Invariant(s) && Accounted(s) && Stored(s.shared, sid, p) && p in s.shared.open && p in Step(s, l).shared.open
    ensures Lost(Step(s, l), p) || Stored(Step(s, l).shared, sid, p)
  {
    hide Next, TablesSound, ProvidersFit, Exclusive, NeedsLock, HoldsLock, PairKnown;
    if l.Go? && Enabled(s, l.tid) {
      var pc := s.threads[l.tid];
      var u := Step(s, l);
      StoreForgotten(s.shared, pc, l.choice, sid, p);
      if !Stored(u.shared, sid, p) {
        StepMoves(s.shared, pc, l.choice);
        assert forall x :: Stored(s.shared, x, p) ==> x == sid;
        assert forall t :: t in s.threads ==> !Holds(s.threads[t], p);
      }
    }
  }

  /**
   * Under every interleaving, once nobody works on a session outside the table any more, an open process is leaked in it
   * exactly when it was stored after the session had left the table, other than between the close and the clear of a
   * removal.
   */
  lemma LeakedIff(labels: seq<Label>, sid: nat, p: nat)
    requires Abandoned(Run(labels), sid) && p in Run(labels).shared.open
    ensures Leaked(Run(labels), sid, p) <==> StoredLate(labels, sid, p) && !StoredBetween(labels, p)
  {
    hide Run, Lost, StoredBetween;
    assert labels[..|labels|] == labels;
    ProcessLostIff(labels, p);
    if Stored(Run(labels).shared, sid, p) {
      DetachedWasStoredLate(labels, sid, p);
      OwnedIsNotLost(Run(labels), sid, p);
    }
    if StoredLate(labels, sid, p) {
      var b: nat :| StoresAt(labels, b, sid, p);
      StoreEndures(labels, b, |labels|, sid, p);
    }
  }

  lemma OwnedIsNotLost(s: System, sid: nat, p: nat)
    requires Stored(s.shared, sid, p)
    ensures !Lost(s, p)
  {
  }

  /**
   * When every call has returned, each open process is one of three kinds: the provider of a session in the table,
   * which a code, a cancellation or expiry will close, a leaked one, or a lost one.
   */
  lemma ProcessesAtRest(labels: seq<Label>, p: nat)
    requires p in Run(labels).shared.open && forall t :: t in Run(labels).threads ==> Run(labels).threads[t].Done?
    ensures StoredBetween(labels, p) || exists sid ::
      Stored(Run(labels).shared, sid, p) && (sid in Run(labels).shared.live || StoredLate(labels, sid, p))
  {
    hide Run, StoredBetween, StoredLate;
    ProcessLostIff(labels, p);
    var s := Run(labels);
    if !Lost(s, p) {
      var sid :| Stored(s.shared, sid, p);
      if sid !in s.shared.live { LeakedIff(labels, sid, p); }
    }
  }

  // ---- both happen ----

  const CODE := Choice(0, true, Response(SaysMfa))
  const PASSWORD := PasswordRequire(0, 1, "a@b", false)
  const CANCEL := CancelRequire(0, 1)
  const READY := Done(Snapshot(0, PasswordRequired))
  const SENT := Session(1, "a@b", 100, Authenticating, None)
  const SENDING := Shared(map[0 := SENT], {0}, map[1 := 0], {0}, 1, 1)
  const CANCELLING := Shared(map[0 := MARKED], {0}, map[1 := 0], {0}, 1, 1)

  /** A password is accepted, and before its process is stored a cancellation marks the session. */
  function Crossing(): seq<Label> {
    Started() + Spawning(1, PASSWORD) + Going(1, CODE, 7) + Spawning(2, CANCEL) + Going(2, CODE, 4)
  }

  lemma Crosses()
    ensures Run(Crossing()) == System(CANCELLING, map[0 := READY, 1 := PasswordStore(0, 0), 2 := Remove(0, Cancelled)])
  {
    hide Run, Next, Started, Advance;
    StartsFirst();
    RunSpawning(Started(), 1, PASSWORD);
    RunGoing(Started() + Spawning(1, PASSWORD), 1, CODE, 7);
    assert Expired(ONE, 0) == {} && Expired(SENDING, 0) == {};
    PasswordAdvances(ONE, 0, CODE);
    assert Write(ONE, 0, SENT) == ONE.(objects := map[0 := SENT]);
    var sent := Started() + Spawning(1, PASSWORD) + Going(1, CODE, 7);
    assert Run(sent) == System(SENDING, map[0 := READY, 1 := PasswordStore(0, 0)]);
    RunSpawning(sent, 2, CANCEL);
    RunGoing(sent + Spawning(2, CANCEL), 2, CODE, 4);
    CancelAdvances(SENDING, 0, CODE);
    assert Write(SENDING, 0, MARKED) == CANCELLING;
  }

  const DETACHED := Shared(map[0 := MARKED], {}, map[], {0}, 1, 1)
  const STORED := Shared(map[0 := MARKED.(provider := Some(0))], {}, map[], {0}, 1, 1)
  const WAITING := Session(1, "a@b", 100, MfaRequired, None)
  const CANCELLED := Done(Snapshot(0, Cancelled))
  const ASKING := Done(Snapshot(0, MfaRequired))

  /** The password call stores its process and returns. */
  function Storing(): seq<Label> {
    [Go(1, CODE), Go(1, CODE)]
  }

  lemma RunUnlocked(labels: seq<Label>, tid: nat, c: Choice)
    requires tid in Run(labels).threads && !NeedsLock(Run(labels).threads[tid])
    ensures var (sh, pc) := Next(Run(labels).shared, Run(labels).threads[tid], c);
      Run(labels + [Go(tid, c)]) == System(sh, Run(labels).threads[tid := pc])
  {
    hide Run, Next, NeedsLock;
    RunNext(labels, Go(tid, c));
  }

  lemma Stores(labels: seq<Label>, rest: Pc)
    requires Run(labels) == System(DETACHED, map[0 := READY, 1 := PasswordStore(0, 0), 2 := rest])
    ensures Run(labels + Storing()) ==
      System(STORED.(objects := map[0 := WAITING.(provider := Some(0))]), map[0 := READY, 1 := ASKING, 2 := rest])
  {
    assert Write(DETACHED, 0, MARKED.(provider := Some(0))) == STORED;
    assert Next(DETACHED, PasswordStore(0, 0), CODE) == (STORED, Release(0, MfaRequired));
    assert Next(STORED, Release(0, MfaRequired), CODE).1 == ASKING;
    hide Run, Next;
    RunUnlocked(labels, 1, CODE);
    RunUnlocked(labels + [Go(1, CODE)], 1, CODE);
    assert labels + Storing() == labels + [Go(1, CODE)] + [Go(1, CODE)];
  }

  /** The removal runs up to its clear, the password call stores its process and returns, and the removal clears it. */
  function LosingProcess(): seq<Label> {
    Crossing() + Going(2, CODE, 2) + Storing() + Going(2, CODE, 1)
  }

  lemma RemovesAndCloses()
    ensures Next(CANCELLING, Remove(0, Cancelled), CODE) == (DETACHED, Closing(0, CANCELLED))
    ensures Next(DETACHED, Closing(0, CANCELLED), CODE) == (DETACHED, Clearing(0, CANCELLED))
  {
    assert Detach(CANCELLING, 0) == DETACHED;
  }

  lemma ClosesNothing()
    ensures Run(Crossing() + Going(2, CODE, 2)) ==
      System(DETACHED, map[0 := READY, 1 := PasswordStore(0, 0), 2 := Clearing(0, CANCELLED)])
  {
    hide Run, Next, Crossing;
    RemovesAndCloses();
    Crosses();
    RunGoing(Crossing(), 2, CODE, 2);
    AdvanceJoined(CANCELLING, Remove(0, Cancelled), CODE, 1, 1);
    AdvanceOnce(CANCELLING, Remove(0, Cancelled), CODE);
    AdvanceOnce(DETACHED, Closing(0, CANCELLED), CODE);
    hide Advance;
  }

  lemma ClearsProvider()
    ensures Next(STORED.(objects := map[0 := WAITING.(provider := Some(0))]), Clearing(0, CANCELLED), CODE) ==
      (Shared(map[0 := WAITING], {}, map[], {0}, 1, 1), CANCELLED)
  {
    var before := STORED.(objects := map[0 := WAITING.(provider := Some(0))]);
    assert Write(before, 0, WAITING).objects == map[0 := WAITING];
  }

  /**
   * A process is lost: both calls return, one reporting the cancellation and one asking for a code, the only process is
   * open, and no session stores it.
   */
  lemma LossHappens()
    ensures Run(LosingProcess()) ==
      System(Shared(map[0 := WAITING], {}, map[], {0}, 1, 1), map[0 := READY, 1 := ASKING, 2 := CANCELLED])
    ensures Lost(Run(LosingProcess()), 0)
  {
    hide Run, Next, Crossing, Storing;
    var before := STORED.(objects := map[0 := WAITING.(provider := Some(0))]);
    ClearsProvider();
    ClosesNothing();
    Stores(Crossing() + Going(2, CODE, 2), Clearing(0, CANCELLED));
    var stored := Crossing() + Going(2, CODE, 2) + Storing();
    RunGoing(stored, 2, CODE, 1);
    AdvanceOnce(before, Clearing(0, CANCELLED), CODE);
    hide Advance;
  }

  /** The removal ends, and then the password call stores its process and returns. */
  function LeakingProcess(): seq<Label> {
    Crossing() + Going(2, CODE, 3) + Storing()
  }

  /**
   * A process is leaked: both calls return, one reporting the cancellation and one asking for a code, and the only process
   * is open, stored in a session that is not in the table.
   */
  lemma LeakHappens()
    ensures Run(LeakingProcess()) == System(
      Shared(map[0 := WAITING.(provider := Some(0))], {}, map[], {0}, 1, 1), map[0 := READY, 1 := ASKING, 2 := CANCELLED])
    ensures Leaked(Run(LeakingProcess()), 0, 0)
  {
    hide Run, Next, Crossing, Storing;
    Crosses();
    RunGoing(Crossing(), 2, CODE, 3);
    RemoveAdvances(CANCELLING, 0, Cancelled, CODE);
    assert Write(DETACHED, 0, MARKED) == DETACHED;
    Stores(Crossing() + Going(2, CODE, 3), CANCELLED);
    hide Advance;
  }
}
