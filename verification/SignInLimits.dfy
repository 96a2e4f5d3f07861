/** Sessions that the source table loses under interleaving: which step loses them, that it happens, what it blocks. */
module SignInLimits {
  import opened Text
  import opened SignIn
  import opened SignInSafety
  import opened SignInRuns

  // ---- sessions the source table has lost ----

  /** Every session in the table is the one its source looks up. */
  predicate Covered(sh: Shared) {
    forall sid :: sid in sh.live && sid in sh.objects ==>
      sh.objects[sid].source in sh.bySource && sh.bySource[sh.objects[sid].source] == sid
  }

  /** The step removes a session that is no longer in the table, and its source has started another one since. */
  predicate RemovesDisplaced(sh: Shared, pc: Pc) {
    pc.Remove? && pc.sid in sh.objects && pc.sid !in sh.live && sh.objects[pc.sid].source in sh.bySource
  }

  /** Taking a session out keeps every other one covered, unless its source entry already names a newer session. */
  lemma DetachCovered(sh: Shared, sid: nat)
    requires TablesSound(sh) && Covered(sh) && sid in sh.objects
    ensures Covered(Detach(sh, sid)) <==> sid in sh.live || sh.objects[sid].source !in sh.bySource
  {
    var d := Detach(sh, sid);
    var source := sh.objects[sid].source;
    if sid !in sh.live && source in sh.bySource {
      var newer := sh.bySource[source];
      assert newer in d.live && newer in d.objects && d.objects[newer].source == source;
    } else {
      forall x | x in d.live && x in d.objects
        ensures d.objects[x].source in d.bySource && d.bySource[d.objects[x].source] == x
      {
        assert sh.bySource[sh.objects[x].source] == x;
      }
    }
  }

  lemma StartCovered(sh: Shared, source: int, account: string, expires: Time)
    requires TablesSound(sh) && Covered(sh)
    ensures Covered(StartStep(sh, source, account, expires).0)
  {
  }

  lemma WriteCovered(sh: Shared, sid: nat, s: Session)
    requires Covered(sh) && sid in sh.objects && SameOwner(s, sh.objects[sid])
    ensures Covered(Write(sh, sid, s))
  {
  }

  lemma ProcessesCovered(sh: Shared, open: set<nat>, started: nat)
    requires Covered(sh)
    ensures Covered(sh.(open := open, started := started)) && Covered(sh.(open := open))
  {
  }

  lemma StepConverse(sh: Shared, pc: Pc, c: Choice)
    requires TablesSound(sh) && ProvidersFit(sh) && ThreadSound(sh, pc) && Covered(sh)
    ensures !Covered(Next(sh, pc, c).0) <==> RemovesDisplaced(sh, pc)
  {
    hide Next, OnSession, Covered, TablesSound, ProvidersFit, ThreadSound;
    if HasSession(pc) {
      SessionExists(sh, pc);
      StepsOnSession(sh, pc, c);
      SessionStepCovered(sh, pc, c);
    } else {
      LookupCovered(sh, pc, c);
    }
  }

  lemma LookupCovered(sh: Shared, pc: Pc, c: Choice)
    requires TablesSound(sh) && ThreadSound(sh, pc) && Covered(sh) && !HasSession(pc)
    ensures Covered(Next(sh, pc, c).0)
  {
    hide Covered, TablesSound, Detach, StartStep, OnSession, Require, Expired, Oldest, ThreadSound;
    match pc {
      case StartTables(source, account, expires) => StartCovered(sh, source, account, expires);
      case Sweep(gone, _) =>
        if gone != {} && Oldest(gone) in sh.objects {
          SweptIsListed(sh, pc);
          DetachCovered(sh, Oldest(gone));
        }
      case ProbeLaunch => ProcessesCovered(sh, sh.open + {sh.started}, sh.started + 1);
      case ProbeSend(process) => ProcessesCovered(sh, sh.open - {process}, sh.started);
      case _ =>
    }
  }

  lemma SweptIsListed(sh: Shared, pc: Pc)
    requires ThreadSound(sh, pc) && pc.Sweep? && pc.gone != {}
    ensures Oldest(pc.gone) in sh.live
  {
  }

  lemma SessionStepCovered(sh: Shared, pc: Pc, c: Choice)
    requires TablesSound(sh) && ThreadSound(sh, pc) && Covered(sh) && HasSession(pc)
    ensures !Covered(OnSession(sh, pc, c, sh.objects[pc.sid]).0) <==> RemovesDisplaced(sh, pc)
  {
    hide Covered, Write, TablesSound, Detach;
    var s := sh.objects[pc.sid];
    match pc {
      case PasswordMark(sid) => WriteCovered(sh, sid, s.(state := Authenticating));
      case PasswordLaunch(_) => ProcessesCovered(sh, sh.open + {sh.started}, sh.started + 1);
      case PasswordSend(_, process) => ProcessesCovered(sh, sh.open - {process}, sh.started);
      case PasswordStore(sid, process) => WriteCovered(sh, sid, s.(provider := Some(process)));
      case MfaMark(sid) => WriteCovered(sh, sid, s.(state := Authenticating));
      case MfaSend(_, provider) => if provider.Some? { ProcessesCovered(sh, sh.open - {provider.value}, sh.started); }
      case MfaClear(sid, _) => WriteCovered(sh, sid, s.(provider := None));
      case Release(sid, next) => WriteCovered(sh, sid, s.(state := next));
      case CancelMark(sid) => WriteCovered(sh, sid, s.(state := Cancelled));
      case Remove(sid, _) => DetachCovered(sh, sid);
      case Closing(_, _) => if s.provider.Some? { ProcessesCovered(sh, sh.open - {s.provider.value}, sh.started); }
      case Clearing(sid, _) => WriteCovered(sh, sid, s.(provider := None));
      case _ =>
    }
  }

  /**
   * The converse direction, every session in the table found through its source, is lost by a step exactly when that
   * step finishes or cancels a session already displaced from the table after a newer one was started for its source.
   */
  lemma ConverseLostIff(labels: seq<Label>, tid: nat, c: Choice)
    requires Enabled(Run(labels), tid) && Covered(Run(labels).shared)
    ensures !Covered(Step(Run(labels), Go(tid, c)).shared) <==> RemovesDisplaced(Run(labels).shared, Run(labels).threads[tid])
  {
    hide Run, Next, Covered, RemovesDisplaced;
    EveryRunIsSound(labels);
    var s := Run(labels);
    assert ThreadSound(s.shared, s.threads[tid]);
    StepConverse(s.shared, s.threads[tid], c);
  }

  // ---- the loss happens ----

  const QUIET := Choice(0, true, Failure)
  const START := StartLock(1, "a@b", 0, 100)
  const NEW := Session(1, "a@b", 100, PasswordRequired, None)
  const MARKED := Session(1, "a@b", 100, Cancelled, None)
  const ONE := Shared(map[0 := NEW], {0}, map[1 := 0], {}, 1, 0)

  /** One thread starts a sign-in. */
  function Started(): seq<Label> {
    Spawning(0, START) + Going(0, QUIET, 3)
  }

  lemma StartsFirst()
    ensures Run(Started()) == System(ONE, map[0 := Done(Snapshot(0, PasswordRequired))])
  {
    hide Next, StartStep;
    var nothing: seq<Label> := [];
    RunSpawning(nothing, 0, START);
    assert nothing + Spawning(0, START) == Spawning(0, START);
    RunGoing(Spawning(0, START), 0, QUIET, 3);
    assert Expired(NOTHING, 0) == {};
    StartAdvances(NOTHING, 1, "a@b", 100, QUIET);
  }

  /** A new thread finds session 0 and marks it cancelled. */
  function Marking(tid: nat): seq<Label> {
    Spawning(tid, CancelRequire(0, 1)) + Going(tid, QUIET, 4)
  }

  lemma CancelMarks(r: seq<Label>, tid: nat, o: Session)
    requires Run(r).shared == ONE.(objects := map[0 := o]) && o.source == 1 && o.expires == 100
    requires tid !in Run(r).threads && LockIsFreeFor(Run(r), tid)
    ensures var s := Run(r + Marking(tid));
      && s.shared == ONE.(objects := map[0 := o.(state := Cancelled)])
      && s.threads == Run(r).threads[tid := Remove(0, Cancelled)]
  {
    hide Next, Run;
    RunSpawning(r, tid, CancelRequire(0, 1));
    RunGoing(r + Spawning(tid, CancelRequire(0, 1)), tid, QUIET, 4);
    assert r + Marking(tid) == r + Spawning(tid, CancelRequire(0, 1)) + Going(tid, QUIET, 4);
    assert Expired(Run(r).shared, 0) == {};
    CancelAdvances(Run(r).shared, 0, QUIET);
    assert map[0 := o][0 := o.(state := Cancelled)] == map[0 := o.(state := Cancelled)];
  }

  /** Two cancellations of one session race, and a new sign-in starts between their removals. */
  function Race(): seq<Label> {
    Started() + Marking(1) + Marking(2) + Going(2, QUIET, 3) + Spawning(3, START) + Going(3, QUIET, 3)
  }

  const REMOVED := Shared(map[0 := MARKED], {}, map[], {}, 1, 0)
  const RACED := Shared(map[0 := MARKED, 1 := NEW], {1}, map[1 := 1], {}, 2, 0)

  lemma BothMark()
    ensures var s := Run(Started() + Marking(1) + Marking(2));
      && s.shared == ONE.(objects := map[0 := MARKED])
      && s.threads == map[0 := Done(Snapshot(0, PasswordRequired)), 1 := Remove(0, Cancelled), 2 := Remove(0, Cancelled)]
  {
    hide Run, Next, Started, Marking;
    StartsFirst();
    CancelMarks(Started(), 1, NEW);
    CancelMarks(Started() + Marking(1), 2, MARKED);
  }

  lemma SecondRemoves()
    ensures var s := Run(Started() + Marking(1) + Marking(2) + Going(2, QUIET, 3));
      && s.shared == REMOVED
      && s.threads.Keys == {0, 1, 2} && s.threads[0].Done? && s.threads[1] == Remove(0, Cancelled) && s.threads[2].Done?
  {
    hide Run, Next, Started, Marking;
    BothMark();
    var marked := Started() + Marking(1) + Marking(2);
    RunGoing(marked, 2, QUIET, 3);
    RemoveAdvances(ONE.(objects := map[0 := MARKED]), 0, Cancelled, QUIET);
  }

  lemma RaceEnds()
    ensures Run(Race()).shared == RACED
    ensures Run(Race()).threads.Keys == {0, 1, 2, 3} && Run(Race()).threads[1] == Remove(0, Cancelled) && LockFree(Run(Race()))
  {
    hide Run, Next, StartStep, Started, Marking;
    SecondRemoves();
    var removed := Started() + Marking(1) + Marking(2) + Going(2, QUIET, 3);
    RunSpawning(removed, 3, START);
    RunGoing(removed + Spawning(3, START), 3, QUIET, 3);
    assert Expired(REMOVED, 0) == {};
    StartAdvances(REMOVED, 1, "a@b", 100, QUIET);
  }

  /** The loss happens: after the race, the first cancellation's removal takes the entry of the new session with it. */
  lemma ConverseIsLost()
    ensures var s := Run(Race());
      && Covered(s.shared) && s.shared.live == {1}
      && Enabled(s, 1) && !Covered(Step(s, Go(1, QUIET)).shared)
  {
    hide Run, Race, Step;
    RaceEnds();
    assert Covered(RACED) && RemovesDisplaced(RACED, Remove(0, Cancelled));
    ConverseLostIff(Race(), 1, QUIET);
  }

  // ---- what a lost session blocks ----

  /** The account with which the thread is about to start a sign-in for this source. */
  predicate StartsFor(pc: Pc, source: int, account: string) {
    match pc
    case StartLock(from, with, _, _) => from == source && with == account
    case StartTables(from, with, _) => from == source && with == account
    case Sweep(_, call) => StartsFor(call, source, account)
    case Closing(_, rest) => StartsFor(rest, source, account)
    case Clearing(_, rest) => StartsFor(rest, source, account)
    case _ => false
  }

  /** Every start call for the source that is made uses this account. */
  predicate OneAccount(labels: seq<Label>, source: int, account: string) {
    forall k :: 0 <= k < |labels| && labels[k].Spawn? && labels[k].call.StartLock? && labels[k].call.source == source ==>
      labels[k].call.account == account
  }

  lemma StartsAreSpawned(sh: Shared, pc: Pc, c: Choice, source: int, account: string)
    requires RemovalSound(sh, pc) && StartsFor(Next(sh, pc, c).1, source, account)
    ensures StartsFor(pc, source, account)
  {
    hide StartStep, Oldest, Expired;
    if pc.StartTables? { StartEnds(sh, pc.source, pc.account, pc.expires); }
  }

  lemma {:induction false} ThreadsUseOneAccount(labels: seq<Label>, source: int, account: string, t: nat, other: string)
    requires OneAccount(labels, source, account)
    requires t in Run(labels).threads && StartsFor(Run(labels).threads[t], source, other)
    ensures other == account
  {
    hide Next;
    var before := labels[..|labels| - 1];
    var s := Run(before);
    EveryRunIsSound(before);
    match labels[|labels| - 1]
    case Spawn(tid, call) =>
      if t in s.threads && s.threads[t] == Run(labels).threads[t] {
        ThreadsUseOneAccount(before, source, account, t, other);
      } else {
        assert labels[|labels| - 1].call == Run(labels).threads[t];
      }
    case Go(tid, c) =>
      if t == tid && Enabled(s, tid) {
        assert ThreadSound(s.shared, s.threads[t]);
        StartsAreSpawned(s.shared, s.threads[t], c, source, other);
      }
      ThreadsUseOneAccount(before, source, account, t, other);
  }

  /** A start that finds its account taken changes nothing; any other step leaves the lost session's source alone. */
  lemma StepKeepsLost(sh: Shared, pc: Pc, c: Choice, sid: nat)
    requires TablesSound(sh) && ThreadSound(sh, pc) && sid in sh.live && sid in sh.objects
    requires sh.objects[sid].source !in sh.bySource
    requires forall account :: StartsFor(pc, sh.objects[sid].source, account) ==> account == sh.objects[sid].account
    ensures sh.objects[sid].source !in Next(sh, pc, c).0.bySource
  {
    hide TablesSound, ThreadSound, Oldest, Expired, Require;
    if pc.StartTables? && pc.source == sh.objects[sid].source { assert StartsFor(pc, pc.source, pc.account); }
  }

  /** Sessions are listed when they are created, and never again. */
  lemma NotRelisted(sh: Shared, pc: Pc, c: Choice, sid: nat)
    requires TablesSound(sh) && sid in sh.objects && sid in Next(sh, pc, c).0.live
    ensures sid in sh.live
  {
    hide Next, OnSession, StartStep;
    if pc.StartTables? {
      StartAddsObjects(sh, pc.source, pc.account, pc.expires);
      assert Next(sh, pc, c) == StartStep(sh, pc.source, pc.account, pc.expires) by { StartsHere(sh, pc, c); }
    } else {
      OthersRelistNothing(sh, pc, c, sid);
    }
  }

  lemma StartsHere(sh: Shared, pc: Pc, c: Choice)
    requires pc.StartTables?
    ensures Next(sh, pc, c) == StartStep(sh, pc.source, pc.account, pc.expires)
  {
    hide StartStep, OnSession;
  }

  lemma OthersRelistNothing(sh: Shared, pc: Pc, c: Choice, sid: nat)
    requires !pc.StartTables?
    ensures sid in Next(sh, pc, c).0.live ==> sid in sh.live
  {
    hide Oldest, Expired, Require, StartStep;
  }

  lemma SplitRun(labels: seq<Label>, more: seq<Label>)
    requires more != []
    ensures Run(labels + more) == Step(Run(labels + more[..|more| - 1]), more[|more| - 1])
  {
    hide Step, Run;
    assert labels + more == labels + more[..|more| - 1] + [more[|more| - 1]];
    RunNext(labels + more[..|more| - 1], more[|more| - 1]);
  }

  lemma {:induction false} SessionStays(labels: seq<Label>, more: seq<Label>, sid: nat)
    requires sid in Run(labels).shared.objects
    ensures sid in Run(labels + more).shared.objects
    ensures SameOwner(Run(labels).shared.objects[sid], Run(labels + more).shared.objects[sid])
    decreases |more|
  {
    hide Run, Next;
    if more == [] {
      assert labels + more == labels;
    } else {
      var before := labels + more[..|more| - 1];
      SessionStays(labels, more[..|more| - 1], sid);
      EveryRunIsSound(before);
      SplitRun(labels, more);
      var l := more[|more| - 1];
      if l.Go? && Enabled(Run(before), l.tid) { ObjectsStay(Run(before).shared, Run(before).threads[l.tid], l.choice); }
    }
  }

  lemma OneAccountBefore(labels: seq<Label>, n: nat, source: int, account: string)
    requires OneAccount(labels, source, account) && n <= |labels|
    ensures OneAccount(labels[..n], source, account)
  {
  }

  lemma StepOfLost(s: System, l: Label, sid: nat)
    requires Invariant(s) && sid in s.shared.objects && sid in Step(s, l).shared.live
    requires forall t, account :: t in s.threads && StartsFor(s.threads[t], s.shared.objects[sid].source, account) ==>
      account == s.shared.objects[sid].account
    ensures sid in s.shared.live
    ensures s.shared.objects[sid].source !in s.shared.bySource ==> s.shared.objects[sid].source !in Step(s, l).shared.bySource
  {
    hide Next, TablesSound, ProvidersFit;
    if l.Go? && Enabled(s, l.tid) {
      NotRelisted(s.shared, s.threads[l.tid], l.choice, sid);
      if s.shared.objects[sid].source !in s.shared.bySource {
        StepKeepsLost(s.shared, s.threads[l.tid], l.choice, sid);
      }
    }
  }

  lemma {:induction false} LostStaysLost(labels: seq<Label>, more: seq<Label>, sid: nat)
    requires sid in Run(labels).shared.live && sid in Run(labels).shared.objects
    requires Run(labels).shared.objects[sid].source !in Run(labels).shared.bySource
    requires OneAccount(labels + more, Run(labels).shared.objects[sid].source, Run(labels).shared.objects[sid].account)
    requires sid in Run(labels + more).shared.live
    ensures Run(labels).shared.objects[sid].source !in Run(labels + more).shared.bySource
    decreases |more|
  {
    hide Run, Step;
    if more == [] {
      assert labels + more == labels;
    } else {
      var n := |more| - 1;
      var o := Run(labels).shared.objects[sid];
      var before := labels + more[..n];
      assert before == (labels + more)[..|labels| + n];
      OneAccountBefore(labels + more, |labels| + n, o.source, o.account);
      SessionStays(labels, more[..n], sid);
      EveryRunIsSound(before);
      SplitRun(labels, more);
      forall t, account | t in Run(before).threads && StartsFor(Run(before).threads[t], o.source, account)
        ensures account == o.account
      {
        ThreadsUseOneAccount(before, o.source, o.account, t, account);
      }
      StepOfLost(Run(before), more[n], sid);
      LostStaysLost(labels, more[..n], sid);
    }
  }

  /**
   * A session that its source has lost still answers to its own identifier. But in every continuation in which no thread
   * has taken it out of the table, by finishing, cancelling or expiry, each start for its source and account is refused.
   */
  lemma LostSessionBlocksStart(labels: seq<Label>, more: seq<Label>, sid: nat, tid: nat, c: Choice)
    requires sid in Run(labels).shared.live && sid in Run(labels).shared.objects
    requires Run(labels).shared.objects[sid].source !in Run(labels).shared.bySource
    requires OneAccount(labels + more, Run(labels).shared.objects[sid].source, Run(labels).shared.objects[sid].account)
    requires sid in Run(labels + more).shared.live && tid in Run(labels + more).threads
    ensures var (o, s) := (Run(labels).shared.objects[sid], Run(labels + more));
      && Require(s.shared, sid, o.source).None?
      && (s.threads[tid].StartTables? && s.threads[tid].source == o.source && s.threads[tid].account == o.account ==>
            Next(s.shared, s.threads[tid], c) == (s.shared, Done(Refused("account_authentication_active"))))
  {
    hide Run, OneAccount;
    SessionStays(labels, more, sid);
    LostStaysLost(labels, more, sid);
  }

  const LOST := Shared(map[0 := MARKED, 1 := NEW], {1}, map[], {}, 2, 0)

  lemma LostRefuses()
    ensures Advance(LOST, START, QUIET, 3) == (LOST, Done(Refused("account_authentication_active")))
  {
    hide Next, StartStep;
    assert Expired(LOST, 0) == {};
    assert 1 in LOST.live && LOST.objects[1].account == "a@b";
    StartRefused(LOST, 1, "a@b", 100, QUIET, 1);
  }

  lemma LostCancels()
    ensures Advance(LOST, CancelRequire(1, 1), QUIET, 7) ==
      (Shared(map[0 := MARKED, 1 := MARKED], {}, map[], {}, 2, 0), Done(Snapshot(1, Cancelled)))
  {
    hide Next;
    assert Expired(LOST, 0) == {};
    CancelAdvances(LOST, 1, QUIET);
    var marked := LOST.(objects := map[0 := MARKED, 1 := MARKED]);
    assert Write(LOST, 1, NEW.(state := Cancelled)) == marked;
    RemoveAdvances(marked, 1, Cancelled, QUIET);
    AdvanceJoined(LOST, CancelRequire(1, 1), QUIET, 4, 3);
    var removed := Shared(map[0 := MARKED, 1 := MARKED], {}, map[], {}, 2, 0);
    assert Detach(marked, 1) == removed && Write(removed, 1, MARKED) == removed;
    hide Advance;
  }

  /** The end of the race, and the cancellation of the session that it lost. */
  function Losing(): seq<Label> {
    Race() + Going(1, QUIET, 3)
  }

  function Freeing(): seq<Label> {
    Losing() + Spawning(4, CancelRequire(1, 1)) + Going(4, QUIET, 7)
  }

  lemma RaceLoses()
    ensures Run(Losing()).shared == LOST && 4 !in Run(Losing()).threads && LockFree(Run(Losing()))
  {
    hide Run, Race, Next;
    RaceEnds();
    RunGoing(Race(), 1, QUIET, 3);
    RemoveAdvances(RACED, 0, Cancelled, QUIET);
  }

  /**
   * Such a session exists: after the race the account cannot start a sign-in, and once the session that the race lost has
   * been cancelled it can.
   */
  lemma CancellingFreesAccount()
    ensures Advance(Run(Losing()).shared, START, QUIET, 3).1 == Done(Refused("account_authentication_active"))
    ensures Advance(Run(Freeing()).shared, START, QUIET, 3).1 == Done(Snapshot(2, PasswordRequired))
  {
    hide Run, Losing, Next, StartStep, Advance;
    RaceLoses();
    LostRefuses();
    LostCancels();
    RunSpawning(Losing(), 4, CancelRequire(1, 1));
    RunGoing(Losing() + Spawning(4, CancelRequire(1, 1)), 4, QUIET, 7);
    var freed := Shared(map[0 := MARKED, 1 := MARKED], {}, map[], {}, 2, 0);
    assert Expired(freed, 0) == {};
    StartAdvances(freed, 1, "a@b", 100, QUIET);
  }
}
