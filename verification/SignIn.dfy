/**
 * The iCloud sign-in calls as atomic steps. Unlocked steps run at any time; a step that takes the lock waits until no
 * thread holds it, and a locked section is cut wherever an unlocked write of a session field can fall into it.
 */
module SignIn {
  import opened Text

  type Time = int

  datatype State = PasswordRequired | Authenticating | MfaRequired | AuthenticationFailed | Authenticated | Cancelled

  datatype Session = Session(source: int, account: string, expires: Time, state: State, provider: Option<nat>)

  /**
   * What all threads share: every session object ever created, the identifiers in the session table, the table by
   * source, and the provider processes launched and not yet closed. Identifiers of sessions and processes are handed out
   * in order.
   */
  datatype Shared = Shared(
    objects: map<nat, Session>,
    live: set<nat>,
    bySource: map<int, nat>,
    open: set<nat>,
    created: nat,
    started: nat)

  const NOTHING := Shared(map[], {}, map[], {}, 0, 0)

  // ---- actions on the shared state ----

  function Write(sh: Shared, sid: nat, s: Session): Shared {
    sh.(objects := sh.objects[sid := s])
  }

  function Close(sh: Shared, process: Option<nat>): Shared {
    if process.Some? then sh.(open := sh.open - {process.value}) else sh
  }

  function Expired(sh: Shared, now: Time): set<nat> {
    set sid | sid in sh.live && sid in sh.objects && sh.objects[sid].expires <= now
  }

  /** Take a session out of both tables; the entry of its source goes whatever session it names. */
  function Detach(sh: Shared, sid: nat): Shared
    requires sid in sh.objects
  {
    sh.(live := sh.live - {sid}, bySource := sh.bySource - {sh.objects[sid].source})
  }

  /** Put a new session for a source into both tables. */
  function Enrol(sh: Shared, source: int, account: string, expires: Time): Shared {
    var sid := sh.created;
    sh.(objects := sh.objects[sid := Session(source, account, expires, PasswordRequired, None)], live := sh.live + {sid},
        bySource := sh.bySource[source := sid], created := sid + 1)
  }

  // ---- threads ----

  datatype Reply =
    | Snapshot(sid: nat, state: State)
    | Refused(code: string)
    | Crashed
    | ProbeResult(answer: Answer)

  /** What a provider process answers: one of the states the parent accepts, or no usable response. */
  datatype ProviderState = SaysAuthenticated | SaysRequired | SaysMfa | SaysFailed | SaysExpired | SaysUnavailable

  datatype Answer = Failure | Response(state: ProviderState)

  /**
   * Where a thread stands; every value but the first names the step it takes next. `Sweep` is the loop that removes
   * expired sessions before `call` goes on; `Closing` and `Clearing` are the last two steps of a removal, before `rest`.
   */
  datatype Pc =
    | Done(reply: Reply)
    | StartLock(source: int, account: string, now: Time, expires: Time)
    | StartTables(source: int, account: string, expires: Time)
    | PasswordRequire(sid: nat, source: int, account: string, empty: bool)
    | PasswordLookup(sid: nat, source: int, account: string, empty: bool)
    | PasswordEnter(sid: nat)
    | PasswordMark(sid: nat)
    | PasswordLaunch(sid: nat)
    | PasswordSend(sid: nat, process: nat)
    | PasswordStore(sid: nat, process: nat)
    | MfaRequire(sid: nat, source: int, wellFormed: bool)
    | MfaLookup(sid: nat, source: int, wellFormed: bool)
    | MfaCheck(sid: nat, wellFormed: bool)
    | MfaCheckProvider(sid: nat, wellFormed: bool)
    | MfaEnter(sid: nat)
    | MfaEnterProvider(sid: nat)
    | MfaMark(sid: nat)
    | MfaRead(sid: nat)
    | MfaSend(sid: nat, provider: Option<nat>)
    | MfaClear(sid: nat, next: State)
    | Release(sid: nat, next: State)
    | CancelRequire(sid: nat, source: int)
    | CancelLookup(sid: nat, source: int)
    | CancelMark(sid: nat)
    | Remove(sid: nat, result: State)
    | Closing(sid: nat, rest: Pc)
    | Clearing(sid: nat, rest: Pc)
    | Sweep(gone: set<nat>, call: Pc)
    | ProbeLaunch
    | ProbeSend(process: nat)

  /** What a step cannot decide itself: the clock, whether a process starts, what it answers. */
  datatype Choice = Choice(now: Time, starts: bool, answer: Answer)

  predicate Initial(pc: Pc) {
    pc.StartLock? || pc.PasswordRequire? || pc.MfaRequire? || pc.CancelRequire? || pc.ProbeLaunch?
  }

  /** The thread is about to take the lock. */
  predicate NeedsLock(pc: Pc) {
    || pc.StartLock? || pc.PasswordRequire? || pc.MfaRequire? || pc.CancelRequire?
    || pc.PasswordEnter? || pc.MfaCheck? || pc.MfaEnter? || pc.Remove?
  }

  /** The thread is inside a locked section. */
  predicate HoldsLock(pc: Pc) {
    || pc.Sweep? || pc.StartTables? || pc.PasswordLookup? || pc.MfaLookup? || pc.CancelLookup?
    || pc.PasswordMark? || pc.MfaCheckProvider? || pc.MfaEnterProvider? || pc.MfaMark?
    || pc.Closing? || pc.Clearing?
  }

  /** The lookup that begins every call on a session, or the refusal that ends it. */
  function Require(sh: Shared, sid: nat, source: int): Option<Reply> {
    if sid !in sh.live || sid !in sh.objects then Some(Refused("expired"))
    else if sh.objects[sid].source != source then Some(Refused("session_mismatch"))
    else None
  }

  function StartStep(sh: Shared, source: int, account: string, expires: Time): (Shared, Pc) {
    if source in sh.bySource then
      var sid := sh.bySource[source];
      if sid in sh.live && sid in sh.objects then (sh, Done(Snapshot(sid, sh.objects[sid].state)))
      else (sh, Done(Crashed))
    else if exists sid :: sid in sh.live && sid in sh.objects && sh.objects[sid].account == account then
      (sh, Done(Refused("account_authentication_active")))
    else (Enrol(sh, source, account, expires), Done(Snapshot(sh.created, PasswordRequired)))
  }

  lemma {:induction false} SomeIsOldest(ids: set<nat>)
    requires ids != {}
    ensures exists m :: m in ids && forall x :: x in ids ==> m <= x
    decreases ids
  {
    var y :| y in ids;
    var others := ids - {y};
    if others != {} {
      SomeIsOldest(others);
      var m :| m in others && forall x :: x in others ==> m <= x;
      var least := if y <= m then y else m;
      forall x | x in ids ensures least <= x {
        assert x == y || x in others;
      }
      assert least in ids;
    } else {
      forall x | x in ids ensures y <= x {
        assert x == y || x in others;
      }
    }
  }

  /** The session created first: tables are walked in the order of insertion. */
  function Oldest(ids: set<nat>): (m: nat)
    requires ids != {}
    ensures m in ids
  {
    SomeIsOldest(ids);
    var m :| m in ids && forall x :: x in ids ==> m <= x;
    m
  }

  /** One atomic step of a thread on the shared state. */
  function Next(sh: Shared, pc: Pc, c: Choice): (Shared, Pc) {
    match pc
    case Done(_) => (sh, pc)
    case StartLock(source, account, now, expires) => (sh, Sweep(Expired(sh, now), StartTables(source, account, expires)))
    case PasswordRequire(sid, source, account, empty) =>
      (sh, Sweep(Expired(sh, c.now), PasswordLookup(sid, source, account, empty)))
    case MfaRequire(sid, source, wellFormed) => (sh, Sweep(Expired(sh, c.now), MfaLookup(sid, source, wellFormed)))
    case CancelRequire(sid, source) => (sh, Sweep(Expired(sh, c.now), CancelLookup(sid, source)))
    case Sweep(gone, call) =>
      if gone == {} then (sh, call)
      else
        var sid := Oldest(gone);
        if sid in sh.objects then (Detach(sh, sid), Closing(sid, Sweep(gone - {sid}, call))) else (sh, Done(Crashed))
    case StartTables(source, account, expires) => StartStep(sh, source, account, expires)
    case PasswordLookup(sid, source, account, empty) =>
      var refusal := Require(sh, sid, source);
      if refusal.Some? then (sh, Done(refusal.value))
      else if sid in sh.objects && account != sh.objects[sid].account then (sh, Done(Refused("account_mismatch")))
      else if empty then (sh, Done(Refused("password_required")))
      else (sh, PasswordEnter(sid))
    case MfaLookup(sid, source, wellFormed) =>
      var refusal := Require(sh, sid, source);
      (sh, if refusal.Some? then Done(refusal.value) else MfaCheck(sid, wellFormed))
    case CancelLookup(sid, source) =>
      var refusal := Require(sh, sid, source);
      (sh, if refusal.Some? then Done(refusal.value) else CancelMark(sid))
    case ProbeLaunch =>
      if !c.starts then (sh, Done(ProbeResult(Failure)))
      else (sh.(open := sh.open + {sh.started}, started := sh.started + 1), ProbeSend(sh.started))
    case ProbeSend(process) => (Close(sh, Some(process)), Done(ProbeResult(c.answer)))
    case _ => if pc.sid in sh.objects then OnSession(sh, pc, c, sh.objects[pc.sid]) else (sh, Done(Crashed))
  }

  /** The steps of a thread that has fetched its session object `s`. */
  function OnSession(sh: Shared, pc: Pc, c: Choice, s: Session): (Shared, Pc)
    requires HasSession(pc) && pc.sid in sh.objects
  {
    var sid := pc.sid;
    match pc
    case PasswordEnter(_) =>
      (sh, if s.state == PasswordRequired || s.state == AuthenticationFailed then PasswordMark(sid)
           else Done(Refused("invalid_state")))
    case PasswordMark(_) => (Write(sh, sid, s.(state := Authenticating)), PasswordLaunch(sid))
    case PasswordLaunch(_) =>
      if !c.starts then (sh, Release(sid, AuthenticationFailed))
      else (sh.(open := sh.open + {sh.started}, started := sh.started + 1), PasswordSend(sid, sh.started))
    case PasswordSend(_, process) =>
      if c.answer == Response(SaysMfa) then (sh, PasswordStore(sid, process))
      else (Close(sh, Some(process)), Release(sid, AfterAnswer(c.answer)))
    case PasswordStore(_, process) => (Write(sh, sid, s.(provider := Some(process))), Release(sid, MfaRequired))
    case MfaCheck(_, wellFormed) =>
      (sh, if s.state == MfaRequired then MfaCheckProvider(sid, wellFormed) else Done(Refused("invalid_state")))
    case MfaCheckProvider(_, wellFormed) =>
      (sh, if s.provider.None? then Done(Refused("invalid_state"))
           else if wellFormed then MfaEnter(sid)
           else Done(Snapshot(sid, s.state)))
    case MfaEnter(_) => (sh, if s.state == MfaRequired then MfaEnterProvider(sid) else Done(Refused("invalid_state")))
    case MfaEnterProvider(_) => (sh, if s.provider.Some? then MfaMark(sid) else Done(Refused("invalid_state")))
    case MfaMark(_) => (Write(sh, sid, s.(state := Authenticating)), MfaRead(sid))
    case MfaRead(_) => (sh, MfaSend(sid, s.provider))
    case MfaSend(_, provider) =>
      if provider.None? then (sh, Done(Crashed))
      else if c.answer == Response(SaysMfa) then (sh, Release(sid, MfaRequired))
      else (Close(sh, provider), MfaClear(sid, AfterAnswer(c.answer)))
    case MfaClear(_, next) => (Write(sh, sid, s.(provider := None)), Release(sid, next))
    case Release(_, next) =>
      (Write(sh, sid, s.(state := next)),
       if next == Authenticated then Remove(sid, Authenticated) else Done(Snapshot(sid, next)))
    case CancelMark(_) => (Write(sh, sid, s.(state := Cancelled)), Remove(sid, Cancelled))
    case Remove(_, result) => (Detach(sh, sid), Closing(sid, Done(Snapshot(sid, result))))
    case Closing(_, rest) => (Close(sh, s.provider), Clearing(sid, rest))
    case Clearing(_, rest) => (Write(sh, sid, s.(provider := None)), rest)
  }

  /** The thread works on a session object. */
  predicate HasSession(pc: Pc) {
    && !pc.Done? && !pc.StartLock? && !pc.StartTables? && !pc.Sweep? && !pc.ProbeLaunch? && !pc.ProbeSend?
    && !pc.PasswordRequire? && !pc.PasswordLookup? && !pc.MfaRequire? && !pc.MfaLookup?
    && !pc.CancelRequire? && !pc.CancelLookup?
  }

  /** The state after an answer that is not a request for a code. */
  function AfterAnswer(answer: Answer): State {
    if answer == Response(SaysAuthenticated) then Authenticated else AuthenticationFailed
  }

  // ---- all threads together ----

  datatype System = System(shared: Shared, threads: map<nat, Pc>)

  datatype Label = Spawn(tid: nat, call: Pc) | Go(tid: nat, choice: Choice)

  predicate LockFree(s: System) {
    forall t :: t in s.threads ==> !HoldsLock(s.threads[t])
  }

  /** The thread can take its next step: it does not have to wait for the lock. */
  predicate Enabled(s: System, tid: nat) {
    tid in s.threads && (NeedsLock(s.threads[tid]) ==> LockFree(s))
  }

  function Step(s: System, l: Label): System {
    match l
    case Spawn(tid, call) => if tid in s.threads || !Initial(call) then s else s.(threads := s.threads[tid := call])
    case Go(tid, choice) =>
      if !Enabled(s, tid) then s
      else
        var (shared, pc) := Next(s.shared, s.threads[tid], choice);
        System(shared, s.threads[tid := pc])
  }

  /** Any interleaving of any number of calls. */
  function Run(labels: seq<Label>): System {
    if labels == [] then System(NOTHING, map[]) else Step(Run(labels[..|labels| - 1]), labels[|labels| - 1])
  }
}
