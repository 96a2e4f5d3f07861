/**
 * What every interleaving of sign-in calls keeps: sound tables, one thread at a time in a session, a provider for every
 * listed session that waits for a code.
 */
module SignInSafety {
  import opened Text
  import opened SignIn

  // ---- invariants ----

  predicate TablesSound(sh: Shared) {
    && (forall sid :: sid in sh.live ==> sid in sh.objects)
    && (forall sid :: sid in sh.objects ==> sid < sh.created)
    && (forall source :: source in sh.bySource ==> sh.bySource[source] in sh.live)
    && (forall source :: source in sh.bySource && sh.bySource[source] in sh.objects ==>
          sh.objects[sh.bySource[source]].source == source)
    && (forall a, b :: a in sh.live && b in sh.live && a in sh.objects && b in sh.objects && a != b
          ==> sh.objects[a].account != sh.objects[b].account)
  }

  /** A session that waits for a password has no provider. */
  predicate NoStrayProvider(s: Session) {
    s.state == PasswordRequired || s.state == AuthenticationFailed || s.state == Authenticated ==> s.provider.None?
  }

  /** A session in the table that waits for a code has a provider. */
  predicate ProvidersFit(sh: Shared) {
    forall sid :: sid in sh.objects ==>
      && NoStrayProvider(sh.objects[sid])
      && (sid in sh.live && sh.objects[sid].state == MfaRequired ==> sh.objects[sid].provider.Some?)
  }

  /** Between setting `authenticating` and writing the state that releases the session. */
  predicate Critical(pc: Pc) {
    pc.PasswordLaunch? || pc.PasswordSend? || pc.PasswordStore? || pc.MfaRead? || pc.MfaSend? || pc.MfaClear? || pc.Release?
  }

  /** The thread has found the session ready, and sets `authenticating` before it gives up the lock. */
  predicate Entering(pc: Pc) {
    pc.PasswordMark? || pc.MfaEnterProvider? || pc.MfaMark?
  }

  predicate Inside(pc: Pc) {
    Critical(pc) || Entering(pc)
  }

  /** What a thread inside a session relies on about its provider; part of it only while the session is in the table. */
  predicate ProviderKnown(pc: Pc, provider: Option<nat>, listed: bool) {
    && (pc.PasswordMark? || pc.PasswordLaunch? || pc.PasswordSend? || pc.PasswordStore? ==> provider.None?)
    && (pc.MfaSend? ==> provider.None? || provider == pc.provider)
    && (pc.Release? && pc.next != MfaRequired ==> provider.None?)
    && (listed && (pc.MfaMark? || pc.MfaRead? || pc.MfaSend? || (pc.Release? && pc.next == MfaRequired)) ==> provider.Some?)
  }

  predicate SweepSound(sh: Shared, pc: Pc) {
    pc.Sweep? ==>
      && pc.gone <= sh.live
      && (pc.call.StartTables? || pc.call.PasswordLookup? || pc.call.MfaLookup? || pc.call.CancelLookup?)
  }

  /** What the lock holder relies on: sessions still to be swept are listed, one being removed is not. */
  predicate RemovalSound(sh: Shared, pc: Pc) {
    && SweepSound(sh, pc)
    && (pc.Closing? || pc.Clearing? ==>
          && pc.sid !in sh.live
          && (pc.rest.Sweep? || (pc.rest.Done? && pc.rest.reply.Snapshot?))
          && SweepSound(sh, pc.rest))
  }

  /** What a thread relies on about its own session. */
  predicate SessionSound(sh: Shared, pc: Pc) {
    && (HasSession(pc) ==> pc.sid in sh.objects)
    && (Critical(pc) && pc.sid in sh.objects ==> sh.objects[pc.sid].state in {Authenticating, Cancelled})
    && (Inside(pc) && pc.sid in sh.objects ==> ProviderKnown(pc, sh.objects[pc.sid].provider, pc.sid in sh.live))
  }

  predicate ThreadSound(sh: Shared, pc: Pc) {
    && SessionSound(sh, pc)
    && (pc.MfaClear? ==> pc.next == Authenticated || pc.next == AuthenticationFailed)
    && (pc.Release? ==> pc.next == Authenticated || pc.next == AuthenticationFailed || pc.next == MfaRequired)
    && RemovalSound(sh, pc)
  }

  /** At most one thread is inside a session, and at most one holds the lock. */
  predicate Exclusive(a: Pc, b: Pc) {
    && (Inside(a) && Inside(b) ==> a.sid != b.sid)
    && !(HoldsLock(a) && HoldsLock(b))
  }

  ghost predicate Invariant(s: System) {
    && TablesSound(s.shared) && ProvidersFit(s.shared)
    && (forall t :: t in s.threads ==> ThreadSound(s.shared, s.threads[t]))
    && (forall t, u :: t in s.threads && u in s.threads && t != u ==> Exclusive(s.threads[t], s.threads[u]))
  }

  // ---- the actions keep the tables sound ----

  lemma DetachKeeps(sh: Shared, sid: nat)
    requires TablesSound(sh) && ProvidersFit(sh) && sid in sh.objects
    ensures TablesSound(Detach(sh, sid)) && ProvidersFit(Detach(sh, sid))
  {
  }

  lemma EnrolKeeps(sh: Shared, source: int, account: string, expires: Time)
    requires TablesSound(sh) && ProvidersFit(sh)
    requires forall sid :: sid in sh.live && sid in sh.objects ==> sh.objects[sid].account != account
    ensures var e := Enrol(sh, source, account, expires); TablesSound(e) && ProvidersFit(e)
  {
  }

  /** The columns that only the creation of a session writes. */
  predicate SameOwner(a: Session, b: Session) {
    a.source == b.source && a.account == b.account && a.expires == b.expires
  }

  lemma WriteKeeps(sh: Shared, sid: nat, s: Session)
    requires TablesSound(sh) && ProvidersFit(sh) && sid in sh.objects && SameOwner(s, sh.objects[sid])
    requires NoStrayProvider(s) && (sid in sh.live && s.state == MfaRequired ==> s.provider.Some?)
    ensures TablesSound(Write(sh, sid, s)) && ProvidersFit(Write(sh, sid, s))
  {
  }

  lemma StartKeeps(sh: Shared, source: int, account: string, expires: Time)
    requires TablesSound(sh) && ProvidersFit(sh)
    ensures var (u, pc) := StartStep(sh, source, account, expires);
      TablesSound(u) && ProvidersFit(u) && pc.Done? && pc.reply != Crashed
  {
    if source !in sh.bySource && forall sid :: sid in sh.live && sid in sh.objects ==> sh.objects[sid].account != account {
      EnrolKeeps(sh, source, account, expires);
    }
  }

  lemma OpenKeeps(sh: Shared)
    requires TablesSound(sh) && ProvidersFit(sh)
    ensures var u := sh.(open := sh.open + {sh.started}, started := sh.started + 1); TablesSound(u) && ProvidersFit(u)
  {
  }

  lemma CloseKeeps(sh: Shared, process: Option<nat>)
    requires TablesSound(sh) && ProvidersFit(sh)
    ensures TablesSound(Close(sh, process)) && ProvidersFit(Close(sh, process))
  {
  }

  lemma FitsNow(sh: Shared, sid: nat)
    requires ProvidersFit(sh) && sid in sh.objects
    ensures NoStrayProvider(sh.objects[sid])
    ensures sid in sh.live && sh.objects[sid].state == MfaRequired ==> sh.objects[sid].provider.Some?
  {
  }

  lemma StepsOnSession(sh: Shared, pc: Pc, c: Choice)
    requires HasSession(pc) && pc.sid in sh.objects
    ensures Next(sh, pc, c) == OnSession(sh, pc, c, sh.objects[pc.sid])
  {
    hide OnSession;
  }

  lemma StepKeepsTables(sh: Shared, pc: Pc, c: Choice)
    requires TablesSound(sh) && ProvidersFit(sh) && ThreadSound(sh, pc)
    ensures var (u, _) := Next(sh, pc, c); TablesSound(u) && ProvidersFit(u)
  {
    hide Next, OnSession, TablesSound, ProvidersFit;
    if HasSession(pc) {
      SessionExists(sh, pc);
      StepsOnSession(sh, pc, c);
      SessionStepKeepsTables(sh, pc, c);
    } else {
      LookupKeepsTables(sh, pc, c);
    }
  }

  lemma LookupKeepsTables(sh: Shared, pc: Pc, c: Choice)
    requires TablesSound(sh) && ProvidersFit(sh) && !HasSession(pc)
    ensures var (u, _) := Next(sh, pc, c); TablesSound(u) && ProvidersFit(u)
  {
    hide Detach, TablesSound, ProvidersFit, OnSession, StartStep, Oldest, Require, Expired;
    match pc {
      case StartTables(source, account, expires) => StartKeeps(sh, source, account, expires);
      case Sweep(gone, _) =>
        if gone != {} && Oldest(gone) in sh.objects { DetachKeeps(sh, Oldest(gone)); }
      case ProbeLaunch => OpenKeeps(sh);
      case ProbeSend(process) => CloseKeeps(sh, Some(process));
      case _ =>
    }
  }

  lemma SessionStepKeepsTables(sh: Shared, pc: Pc, c: Choice)
    requires TablesSound(sh) && ProvidersFit(sh) && ThreadSound(sh, pc) && HasSession(pc)
    ensures var (u, _) := OnSession(sh, pc, c, sh.objects[pc.sid]); TablesSound(u) && ProvidersFit(u)
  {
    hide Detach, TablesSound, ProvidersFit, Write;
    var s := sh.objects[pc.sid];
    FitsNow(sh, pc.sid);
    match pc {
      case PasswordMark(sid) => WriteKeeps(sh, sid, s.(state := Authenticating));
      case PasswordLaunch(_) => OpenKeeps(sh);
      case PasswordSend(_, process) => CloseKeeps(sh, Some(process));
      case PasswordStore(sid, process) => WriteKeeps(sh, sid, s.(provider := Some(process)));
      case MfaMark(sid) => WriteKeeps(sh, sid, s.(state := Authenticating));
      case MfaSend(_, provider) => CloseKeeps(sh, provider);
      case MfaClear(sid, _) => WriteKeeps(sh, sid, s.(provider := None));
      case Release(sid, next) => WriteKeeps(sh, sid, s.(state := next));
      case Remove(sid, _) => DetachKeeps(sh, sid);
      case CancelMark(sid) => WriteKeeps(sh, sid, s.(state := Cancelled));
      case Closing(sid, _) => CloseKeeps(sh, s.provider);
      case Clearing(sid, _) => WriteKeeps(sh, sid, s.(provider := None));
      case _ =>
    }
  }

  // ---- what a step leaves to the thread that took it ----

  lemma StepKeepsMover(sh: Shared, pc: Pc, c: Choice)
    requires TablesSound(sh) && ProvidersFit(sh) && ThreadSound(sh, pc)
    ensures var (u, next) := Next(sh, pc, c); ThreadSound(u, next)
  {
    hide Next, OnSession, ProvidersFit, ThreadSound;
    if !HasSession(pc) {
      LookupKeepsMover(sh, pc, c);
    } else {
      SessionExists(sh, pc);
      StepsOnSession(sh, pc, c);
      FitsNow(sh, pc.sid);
      SessionStepKeepsMover(sh, pc, c);
    }
  }

  lemma SessionExists(sh: Shared, pc: Pc)
    requires ThreadSound(sh, pc) && HasSession(pc)
    ensures pc.sid in sh.objects
  {
  }

  lemma SessionStepKeepsMover(sh: Shared, pc: Pc, c: Choice)
    requires ThreadSound(sh, pc) && HasSession(pc) && NoStrayProvider(sh.objects[pc.sid])
    requires pc.sid in sh.live && sh.objects[pc.sid].state == MfaRequired ==> sh.objects[pc.sid].provider.Some?
    ensures var (u, next) := OnSession(sh, pc, c, sh.objects[pc.sid]); ThreadSound(u, next)
  {
    hide OnSession, SessionSound, RemovalSound;
    SessionStepKeepsSession(sh, pc, c);
    SessionStepKeepsRemoval(sh, pc, c);
  }

  lemma SessionStepKeepsSession(sh: Shared, pc: Pc, c: Choice)
    requires ThreadSound(sh, pc) && HasSession(pc) && NoStrayProvider(sh.objects[pc.sid])
    requires pc.sid in sh.live && sh.objects[pc.sid].state == MfaRequired ==> sh.objects[pc.sid].provider.Some?
    ensures var (u, next) := OnSession(sh, pc, c, sh.objects[pc.sid]); SessionSound(u, next)
  {
    hide SweepSound;
  }

  lemma SessionStepKeepsRemoval(sh: Shared, pc: Pc, c: Choice)
    requires ThreadSound(sh, pc) && HasSession(pc)
    ensures var (u, next) := OnSession(sh, pc, c, sh.objects[pc.sid]);
      && RemovalSound(u, next)
      && (next.MfaClear? ==> next.next == Authenticated || next.next == AuthenticationFailed)
      && (next.Release? ==> next.next == Authenticated || next.next == AuthenticationFailed || next.next == MfaRequired)
  {
    hide SessionSound;
    SessionSoundHere(sh, pc);
  }

  lemma SessionSoundHere(sh: Shared, pc: Pc)
    requires ThreadSound(sh, pc) && HasSession(pc)
    ensures pc.sid in sh.objects
  {
  }

  lemma LookupKeepsMover(sh: Shared, pc: Pc, c: Choice)
    requires TablesSound(sh) && ThreadSound(sh, pc) && !HasSession(pc)
    ensures var (u, next) := Next(sh, pc, c); ThreadSound(u, next)
  {
    hide Next, TablesSound, ThreadSound, NeedsLock;
    if pc.Sweep? {
      SweepKeepsMover(sh, pc, c);
    } else if NeedsLock(pc) {
      CollectKeepsMover(sh, pc, c);
    } else {
      TableLookupKeepsMover(sh, pc, c);
    }
  }

  lemma CollectKeepsMover(sh: Shared, pc: Pc, c: Choice)
    requires !HasSession(pc) && NeedsLock(pc)
    ensures var (u, next) := Next(sh, pc, c); ThreadSound(u, next)
  {
    hide Expired, OnSession, ProviderKnown, StartStep;
    ExpiredAreListed(sh, if pc.StartLock? then pc.now else c.now);
  }

  lemma TableLookupKeepsMover(sh: Shared, pc: Pc, c: Choice)
    requires TablesSound(sh) && ThreadSound(sh, pc) && !HasSession(pc) && !pc.Sweep? && !NeedsLock(pc)
    ensures var (u, next) := Next(sh, pc, c); ThreadSound(u, next)
  {
    hide TablesSound, StartStep, Expired, OnSession, ProviderKnown;
    if pc.StartTables? { StartEnds(sh, pc.source, pc.account, pc.expires); }
  }

  lemma SweepKeepsMover(sh: Shared, pc: Pc, c: Choice)
    requires TablesSound(sh) && ThreadSound(sh, pc) && pc.Sweep?
    ensures var (u, next) := Next(sh, pc, c); ThreadSound(u, next)
  {
    hide TablesSound, StartStep, Expired, OnSession, ProviderKnown;
  }

  lemma ExpiredAreListed(sh: Shared, now: Time)
    ensures Expired(sh, now) <= sh.live
  {
  }

  lemma StartEnds(sh: Shared, source: int, account: string, expires: Time)
    ensures StartStep(sh, source, account, expires).1.Done?
  {
  }

  // ---- what a step leaves to the other threads ----

  /** The thread does not have to wait for `other`. */
  predicate Allowed(pc: Pc, other: Pc) {
    NeedsLock(pc) ==> !HoldsLock(other)
  }

  /** Outside the lock nothing touches the tables. */
  lemma UnlockedLeavesTables(sh: Shared, pc: Pc, c: Choice)
    requires !NeedsLock(pc) && !HoldsLock(pc)
    ensures var u := Next(sh, pc, c).0; u.live == sh.live && u.bySource == sh.bySource && u.created == sh.created
  {
  }

  /** Sessions keep existing, and for whom they were created. */
  lemma ObjectsStay(sh: Shared, pc: Pc, c: Choice)
    requires TablesSound(sh)
    ensures var u := Next(sh, pc, c).0;
      forall sid :: sid in sh.objects ==> sid in u.objects && SameOwner(sh.objects[sid], u.objects[sid])
  {
    hide Next, OnSession, TablesSound;
    if HasSession(pc) && pc.sid in sh.objects {
      StepsOnSession(sh, pc, c);
      SessionObjectsStay(sh, pc, c);
    } else {
      LookupObjectsStay(sh, pc, c);
    }
  }

  lemma LookupObjectsStay(sh: Shared, pc: Pc, c: Choice)
    requires TablesSound(sh) && (HasSession(pc) ==> pc.sid !in sh.objects)
    ensures var u := Next(sh, pc, c).0; forall sid :: sid in sh.objects ==> sid in u.objects && u.objects[sid] == sh.objects[sid]
  {
    hide StartStep, OnSession, TablesSound, Expired, Require;
    if pc.StartTables? { StartAddsObjects(sh, pc.source, pc.account, pc.expires); }
  }

  lemma SessionObjectsStay(sh: Shared, pc: Pc, c: Choice)
    requires HasSession(pc) && pc.sid in sh.objects
    ensures var u := OnSession(sh, pc, c, sh.objects[pc.sid]).0;
      forall sid :: sid in sh.objects ==> sid in u.objects && SameOwner(sh.objects[sid], u.objects[sid])
  {
  }

  lemma StartAddsObjects(sh: Shared, source: int, account: string, expires: Time)
    requires TablesSound(sh)
    ensures var u := StartStep(sh, source, account, expires).0;
      && (forall sid :: sid in sh.objects ==> sid in u.objects && u.objects[sid] == sh.objects[sid])
      && (forall sid :: sid in sh.objects ==> (sid in u.live <==> sid in sh.live))
  {
  }

  /**
   * For a session that a thread is inside, nobody else writes its state but to cancel it, or its provider but to take it
   * out of the table.
   */
  predicate Respects(sh: Shared, u: Shared, sid: nat) {
    && sid in sh.objects && sid in u.objects
    && (sid in u.live ==> sid in sh.live && u.objects[sid].provider == sh.objects[sid].provider)
    && (u.objects[sid].provider == sh.objects[sid].provider || u.objects[sid].provider.None?)
    && (u.objects[sid].state == sh.objects[sid].state || u.objects[sid].state == Cancelled)
  }

  lemma StepRespects(sh: Shared, pc: Pc, c: Choice, sid: nat)
    requires TablesSound(sh) && ThreadSound(sh, pc) && sid in sh.objects
    requires Inside(pc) ==> pc.sid != sid
    ensures Respects(sh, Next(sh, pc, c).0, sid)
  {
    hide StartStep, OnSession, TablesSound;
    if pc.StartTables? { StartAddsObjects(sh, pc.source, pc.account, pc.expires); }
    if HasSession(pc) { SessionStepRespects(sh, pc, c, sid); }
  }

  lemma SessionStepRespects(sh: Shared, pc: Pc, c: Choice, sid: nat)
    requires ThreadSound(sh, pc) && HasSession(pc) && sid in sh.objects
    requires Inside(pc) ==> pc.sid != sid
    ensures Respects(sh, OnSession(sh, pc, c, sh.objects[pc.sid]).0, sid)
  {
  }

  lemma SessionFactsStay(sh: Shared, u: Shared, other: Pc)
    requires SessionSound(sh, other)
    requires HasSession(other) ==> other.sid in u.objects
    requires Inside(other) ==> Respects(sh, u, other.sid)
    ensures SessionSound(u, other)
  {
  }

  lemma RemovalFactsStay(sh: Shared, u: Shared, other: Pc)
    requires RemovalSound(sh, other) && (HoldsLock(other) ==> u.live == sh.live)
    ensures RemovalSound(u, other)
  {
  }

  lemma StepKeepsOther(sh: Shared, pc: Pc, c: Choice, other: Pc)
    requires TablesSound(sh) && ThreadSound(sh, pc) && ThreadSound(sh, other)
    requires Exclusive(pc, other) && Allowed(pc, other)
    ensures ThreadSound(Next(sh, pc, c).0, other)
  {
    hide Next, TablesSound, SessionSound, RemovalSound, HoldsLock, NeedsLock, Inside;
    var u := Next(sh, pc, c).0;
    ObjectsStay(sh, pc, c);
    if HasSession(other) { SessionExists(sh, other); }
    if Inside(other) {
      InsideHasSession(other);
      StepRespects(sh, pc, c, other.sid);
    }
    if HoldsLock(other) { UnlockedLeavesTables(sh, pc, c); }
    SessionFactsStay(sh, u, other);
    RemovalFactsStay(sh, u, other);
  }

  lemma InsideHasSession(pc: Pc)
    requires Inside(pc)
    ensures HasSession(pc)
  {
  }

  lemma LockIsTaken(sh: Shared, pc: Pc, c: Choice)
    requires RemovalSound(sh, pc)
    ensures HoldsLock(Next(sh, pc, c).1) ==> HoldsLock(pc) || NeedsLock(pc)
  {
    hide StartStep;
    if pc.StartTables? { StartEnds(sh, pc.source, pc.account, pc.expires); }
  }

  /** A thread gets inside a session by finding it ready under the lock. */
  lemma InsideIsEntered(sh: Shared, pc: Pc, c: Choice)
    requires RemovalSound(sh, pc)
    ensures var next := Next(sh, pc, c).1;
      Inside(next) ==>
        && HasSession(pc) && next.sid == pc.sid
        && (Inside(pc) || (NeedsLock(pc) && pc.sid in sh.objects && sh.objects[pc.sid].state !in {Authenticating, Cancelled}))
  {
    hide Next, OnSession, Inside;
    if !HasSession(pc) {
      LookupsStayOutside(sh, pc, c);
    } else if pc.sid in sh.objects {
      StepsOnSession(sh, pc, c);
      SessionIsEntered(sh, pc, c);
    } else {
      CrashedIsOutside(sh, pc, c);
    }
  }

  lemma SessionIsEntered(sh: Shared, pc: Pc, c: Choice)
    requires RemovalSound(sh, pc) && HasSession(pc) && pc.sid in sh.objects
    ensures var next := OnSession(sh, pc, c, sh.objects[pc.sid]).1;
      Inside(next) ==>
        && HasSession(next) && next.sid == pc.sid
        && (Inside(pc) || (NeedsLock(pc) && sh.objects[pc.sid].state !in {Authenticating, Cancelled}))
  {
    hide Write, Close, Detach;
  }

  lemma LookupsStayOutside(sh: Shared, pc: Pc, c: Choice)
    requires RemovalSound(sh, pc) && !HasSession(pc)
    ensures !Inside(Next(sh, pc, c).1)
  {
    hide StartStep, OnSession, Expired, Detach;
    if pc.StartTables? { StartEnds(sh, pc.source, pc.account, pc.expires); }
  }

  lemma CrashedIsOutside(sh: Shared, pc: Pc, c: Choice)
    requires HasSession(pc) && pc.sid !in sh.objects
    ensures !Inside(Next(sh, pc, c).1)
  {
    hide OnSession;
  }

  lemma EntersAlone(sh: Shared, pc: Pc, c: Choice, other: Pc)
    requires ThreadSound(sh, pc) && ThreadSound(sh, other)
    requires Exclusive(pc, other) && Exclusive(other, pc) && Allowed(pc, other)
    ensures Exclusive(Next(sh, pc, c).1, other) && Exclusive(other, Next(sh, pc, c).1)
  {
    hide Next, RemovalSound, ProviderKnown;
    LockIsTaken(sh, pc, c);
    InsideIsEntered(sh, pc, c);
  }

  lemma GoKeepsInvariant(s: System, tid: nat, c: Choice)
    requires Invariant(s) && Enabled(s, tid)
    ensures Invariant(Step(s, Go(tid, c)))
  {
    hide Next, TablesSound, ProvidersFit, ThreadSound, Exclusive, NeedsLock, HoldsLock;
    var pc := s.threads[tid];
    var u := Step(s, Go(tid, c));
    StepKeepsTables(s.shared, pc, c);
    StepKeepsMover(s.shared, pc, c);
    forall t | t in s.threads && t != tid
      ensures ThreadSound(u.shared, s.threads[t])
      ensures Exclusive(u.threads[tid], s.threads[t]) && Exclusive(s.threads[t], u.threads[tid])
    {
      assert Exclusive(pc, s.threads[t]) && Exclusive(s.threads[t], pc);
      StepKeepsOther(s.shared, pc, c, s.threads[t]);
      EntersAlone(s.shared, pc, c, s.threads[t]);
    }
  }

  lemma SpawnKeepsInvariant(s: System, tid: nat, call: Pc)
    requires Invariant(s) && Initial(call)
    ensures Invariant(Step(s, Spawn(tid, call)))
  {
    hide TablesSound, ProvidersFit;
  }

  lemma StepKeepsInvariant(s: System, l: Label)
    requires Invariant(s)
    ensures Invariant(Step(s, l))
  {
    hide Invariant, Next;
    match l
    case Spawn(tid, call) => if Initial(call) { SpawnKeepsInvariant(s, tid, call); }
    case Go(tid, c) => if Enabled(s, tid) { GoKeepsInvariant(s, tid, c); }
  }

  lemma {:induction false} EveryRunIsSound(labels: seq<Label>)
    ensures Invariant(Run(labels))
  {
    hide Invariant, Step;
    if labels == [] {
      NothingIsSound();
    } else {
      EveryRunIsSound(labels[..|labels| - 1]);
      StepKeepsInvariant(Run(labels[..|labels| - 1]), labels[|labels| - 1]);
    }
  }

  lemma NothingIsSound()
    ensures Invariant(System(NOTHING, map[]))
  {
  }

  // ---- results over all interleavings ----

  /**
   * Under every interleaving each entry of the source table names a session that is in the session table and belongs to
   * that source, so the lookup in start cannot fail, and no two sessions in the table share an account.
   */
  lemma TablesAgreeAlways(labels: seq<Label>, source: int)
    ensures var sh := Run(labels).shared;
      && (source in sh.bySource ==>
            var sid := sh.bySource[source]; sid in sh.live && sid in sh.objects && sh.objects[sid].source == source)
      && (forall a, b :: a in sh.live && b in sh.live && a != b ==>
            a in sh.objects && b in sh.objects && sh.objects[a].account != sh.objects[b].account)
  {
    hide Run;
    EveryRunIsSound(labels);
  }

  /** Under every interleaving at most one thread holds the lock and at most one thread is inside a session. */
  lemma MutualExclusion(labels: seq<Label>, t: nat, u: nat)
    requires t in Run(labels).threads && u in Run(labels).threads && t != u
    ensures var (a, b) := (Run(labels).threads[t], Run(labels).threads[u]);
      !(HoldsLock(a) && HoldsLock(b)) && (Critical(a) && Critical(b) ==> a.sid != b.sid)
  {
    hide Run;
    EveryRunIsSound(labels);
    assert Exclusive(Run(labels).threads[t], Run(labels).threads[u]);
  }

  /** Under every interleaving a session in the table that waits for a code has a provider to send it to. */
  lemma WaitingSessionHasProvider(labels: seq<Label>, sid: nat)
    requires sid in Run(labels).shared.live
    ensures sid in Run(labels).shared.objects
    ensures Run(labels).shared.objects[sid].state == MfaRequired ==> Run(labels).shared.objects[sid].provider.Some?
  {
    hide Run;
    EveryRunIsSound(labels);
    FitsNow(Run(labels).shared, sid);
  }

  /**
   * The unlocked read of the provider between the two locked checks and the request finds nothing only when the session
   * has meanwhile left the table.
   */
  lemma MissingProviderMeansDetached(labels: seq<Label>, tid: nat, c: Choice)
    requires tid in Run(labels).threads
    ensures var s := Run(labels);
      var pc := s.threads[tid];
      var (_, next) := Next(s.shared, pc, c);
      next == Done(Crashed) && pc != next ==> pc.MfaSend? && pc.sid !in s.shared.live
  {
    hide Run;
    EveryRunIsSound(labels);
    var s := Run(labels);
    assert ThreadSound(s.shared, s.threads[tid]);
    hide Invariant;
    OnlySendCrashes(s.shared, s.threads[tid], c);
  }

  lemma OnlySendCrashes(sh: Shared, pc: Pc, c: Choice)
    requires TablesSound(sh) && ProvidersFit(sh) && ThreadSound(sh, pc)
    ensures Next(sh, pc, c).1 == Done(Crashed) && pc != Done(Crashed) ==> pc.MfaSend? && pc.sid !in sh.live
  {
    hide Next, OnSession, ProvidersFit, TablesSound;
    if HasSession(pc) {
      SessionExists(sh, pc);
      StepsOnSession(sh, pc, c);
      SessionCrashes(sh, pc, c);
    } else if pc != Done(Crashed) {
      LookupsDoNotCrash(sh, pc, c);
    }
  }

  lemma SessionCrashes(sh: Shared, pc: Pc, c: Choice)
    requires ThreadSound(sh, pc) && HasSession(pc) && pc.sid in sh.objects
    ensures OnSession(sh, pc, c, sh.objects[pc.sid]).1 == Done(Crashed) ==> pc.MfaSend? && pc.sid !in sh.live
  {
    hide Write, Close, Detach;
  }

  lemma LookupsDoNotCrash(sh: Shared, pc: Pc, c: Choice)
    requires TablesSound(sh) && ProvidersFit(sh) && ThreadSound(sh, pc) && !HasSession(pc) && pc != Done(Crashed)
    ensures Next(sh, pc, c).1 != Done(Crashed)
  {
    hide StartStep, ProvidersFit, OnSession, Expired, Detach, SessionSound;
    if pc.StartTables? { StartKeeps(sh, pc.source, pc.account, pc.expires); }
  }
}
