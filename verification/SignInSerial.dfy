/** Sign-in calls that run one after the other: the tables mirror each other and no provider process is left over. */
module SignInSerial {
  import opened Text
  import opened SignIn
  import opened SignInSafety
  import opened SignInRuns
  import opened SignInLimits

  // ---- one call on its own ----

  /** Whether the call has still to collect the expired sessions. */
  function Collects(pc: Pc): nat {
    match pc
    case StartLock(_, _, _, _) | PasswordRequire(_, _, _, _) | MfaRequire(_, _, _) | CancelRequire(_, _) => 1
    case Sweep(_, call) => Collects(call)
    case Closing(_, rest) => Collects(rest)
    case Clearing(_, rest) => Collects(rest)
    case _ => 0
  }

  /** A bound on the steps a call still takes after that. */
  function Rank(pc: Pc): nat {
    match pc
    case Done(_) => 0
    case StartLock(_, _, _, _) | PasswordRequire(_, _, _, _) | MfaRequire(_, _, _) | CancelRequire(_, _) => 1
    case Clearing(_, rest) => 1 + Rank(rest)
    case Closing(_, rest) => 2 + Rank(rest)
    case Sweep(gone, call) => 1 + 3 * |gone| + Rank(call)
    case StartTables(_, _, _) | ProbeSend(_) => 1
    case ProbeLaunch => 2
    case Remove(_, _) => 3
    case Release(_, _) | CancelMark(_) => 4
    case MfaClear(_, _) | PasswordStore(_, _) | CancelLookup(_, _) => 5
    case MfaSend(_, _) | PasswordSend(_, _) => 6
    case MfaRead(_) | PasswordLaunch(_) => 7
    case MfaMark(_) | PasswordMark(_) => 8
    case MfaEnterProvider(_) | PasswordEnter(_) => 9
    case MfaEnter(_) | PasswordLookup(_, _, _, _) => 10
    case MfaCheckProvider(_, _) => 11
    case MfaCheck(_, _) => 12
    case MfaLookup(_, _, _) => 13
  }

  /** The call still has fewer steps to take. */
  predicate Falls(pc: Pc, next: Pc) {
    Collects(next) < Collects(pc) || (Collects(next) == Collects(pc) && Rank(next) < Rank(pc))
  }

  lemma RankFalls(sh: Shared, pc: Pc, c: Choice)
    requires !pc.Done?
    ensures Falls(pc, Next(sh, pc, c).1)
  {
    hide Next, Falls;
    if !HasSession(pc) {
      LookupRankFalls(sh, pc, c);
    } else if pc.sid !in sh.objects {
      CrashFalls(sh, pc, c);
    } else {
      StepsOnSession(sh, pc, c);
      if InPassword(pc) {
        PasswordRankFalls(sh, pc, c);
      } else if InCodeCall(pc) {
        CodeRankFalls(sh, pc, c);
      } else {
        RemovalRankFalls(sh, pc, c);
      }
    }
  }

  predicate InPassword(pc: Pc) {
    pc.PasswordEnter? || pc.PasswordMark? || pc.PasswordLaunch? || pc.PasswordSend? || pc.PasswordStore?
  }

  predicate InCodeCall(pc: Pc) {
    || pc.MfaCheck? || pc.MfaCheckProvider? || pc.MfaEnter? || pc.MfaEnterProvider?
    || pc.MfaMark? || pc.MfaRead? || pc.MfaSend? || pc.MfaClear?
  }

  lemma CrashFalls(sh: Shared, pc: Pc, c: Choice)
    requires HasSession(pc) && pc.sid !in sh.objects
    ensures Falls(pc, Next(sh, pc, c).1)
  {
    assert Next(sh, pc, c).1 == Done(Crashed);
    hide Next;
  }

  lemma LookupRankFalls(sh: Shared, pc: Pc, c: Choice)
    requires !HasSession(pc) && !pc.Done?
    ensures Falls(pc, Next(sh, pc, c).1)
  {
    hide Expired, StartStep, OnSession, Detach, Require;
    if Initial(pc) && !pc.ProbeLaunch? { CollectingFalls(pc, Next(sh, pc, c).1.gone, Next(sh, pc, c).1.call); }
    if pc.StartTables? { StartEnds(sh, pc.source, pc.account, pc.expires); }
    if pc.Sweep? && pc.gone != {} { SweepFalls(pc.gone, pc.call, Oldest(pc.gone)); }
  }

  lemma ClosingFalls(sid: nat, result: State)
    ensures Falls(Remove(sid, result), Closing(sid, Done(Snapshot(sid, result))))
  {
    var rest := Done(Snapshot(sid, result));
    assert Rank(rest) == 0 && Collects(rest) == 0;
  }

  /** Collecting is done once. */
  lemma CollectingFalls(pc: Pc, gone: set<nat>, call: Pc)
    requires Initial(pc) && !pc.ProbeLaunch?
    requires call.StartTables? || call.PasswordLookup? || call.MfaLookup? || call.CancelLookup?
    ensures Falls(pc, Sweep(gone, call))
  {
    assert Collects(call) == 0;
  }

  lemma SweepFalls(gone: set<nat>, call: Pc, sid: nat)
    requires sid in gone
    ensures Falls(Sweep(gone, call), Closing(sid, Sweep(gone - {sid}, call)))
  {
    var rest := Sweep(gone - {sid}, call);
    assert |gone - {sid}| == |gone| - 1;
    assert Rank(Closing(sid, rest)) == 2 + Rank(rest) == 2 + 1 + 3 * |gone - {sid}| + Rank(call);
    assert Collects(Closing(sid, rest)) == Collects(rest) == Collects(call);
  }

  lemma PasswordRankFalls(sh: Shared, pc: Pc, c: Choice)
    requires InPassword(pc) && pc.sid in sh.objects
    ensures Falls(pc, OnSession(sh, pc, c, sh.objects[pc.sid]).1)
  {
    hide Write, Close;
  }

  lemma CodeRankFalls(sh: Shared, pc: Pc, c: Choice)
    requires InCodeCall(pc) && pc.sid in sh.objects
    ensures Falls(pc, OnSession(sh, pc, c, sh.objects[pc.sid]).1)
  {
    hide Write, Close;
  }

  lemma RemovalRankFalls(sh: Shared, pc: Pc, c: Choice)
    requires HasSession(pc) && !InPassword(pc) && !InCodeCall(pc) && pc.sid in sh.objects
    ensures Falls(pc, OnSession(sh, pc, c, sh.objects[pc.sid]).1)
  {
    hide Write, Close, Detach;
    if pc.Remove? { ClosingFalls(pc.sid, pc.result); }
  }

  /** Run a call to its end with no other thread in between. */
  function Finish(sh: Shared, pc: Pc, c: Choice): (r: (Shared, Reply))
    decreases Collects(pc), Rank(pc)
  {
    if pc.Done? then (sh, pc.reply)
    else
      RankFalls(sh, pc, c);
      Finish(Next(sh, pc, c).0, Next(sh, pc, c).1, c)
  }

  /** One step of a call leaves the rest of it to do. */
  lemma Resume(sh: Shared, pc: Pc, c: Choice)
    requires !pc.Done?
    ensures Finish(sh, pc, c) == Finish(Next(sh, pc, c).0, Next(sh, pc, c).1, c)
  {
    hide Next;
  }

  lemma Ends(sh: Shared, reply: Reply, c: Choice)
    ensures Finish(sh, Done(reply), c) == (sh, reply)
  {
  }

  // ---- removals in one piece ----

  function Sources(sh: Shared, ids: set<nat>): set<int> {
    set sid | sid in ids && sid in sh.objects :: sh.objects[sid].source
  }

  function Providers(sh: Shared, ids: set<nat>): set<nat> {
    set sid | sid in ids && sid in sh.objects && sh.objects[sid].provider.Some? :: sh.objects[sid].provider.value
  }

  /** Take sessions out of both tables, close their providers and forget them. */
  function Drop(sh: Shared, gone: set<nat>): Shared {
    Shared(map sid | sid in sh.objects :: if sid in gone then sh.objects[sid].(provider := None) else sh.objects[sid],
           sh.live - gone, sh.bySource - Sources(sh, gone), sh.open - Providers(sh, gone), sh.created, sh.started)
  }

  function Expire(sh: Shared, now: Time): Shared {
    Drop(sh, Expired(sh, now))
  }

  /** The three steps of a removal. */
  lemma DropOne(sh: Shared, sid: nat)
    requires sid in sh.objects
    ensures var (d, s) := (Detach(sh, sid), sh.objects[sid]);
      Drop(sh, {sid}) == Write(Close(d, s.provider), sid, s.(provider := None))
  {
    var s := sh.objects[sid];
    assert sid in {sid} && s.source in Sources(sh, {sid});
    assert Sources(sh, {sid}) == {s.source};
    assert Providers(sh, {sid}) == if s.provider.Some? then {s.provider.value} else {} by {
      if s.provider.Some? { assert sid in {sid} && s.provider.value in Providers(sh, {sid}); }
    }
    assert Drop(sh, {sid}).objects == sh.objects[sid := s.(provider := None)];
  }

  lemma DropNone(sh: Shared)
    ensures Drop(sh, {}) == sh
  {
    assert Sources(sh, {}) == {} && Providers(sh, {}) == {};
  }

  /** Dropping sessions one after the other is dropping them together. */
  lemma DropMore(sh: Shared, gone: set<nat>, sid: nat)
    requires sid !in gone
    ensures Drop(Drop(sh, gone), {sid}) == Drop(sh, gone + {sid}) == Drop(Drop(sh, {sid}), gone)
  {
    DropBoth(sh, gone, {sid});
    DropBoth(sh, {sid}, gone);
    assert {sid} + gone == gone + {sid};
  }

  lemma DropBoth(sh: Shared, a: set<nat>, b: set<nat>)
    requires a !! b
    ensures Drop(Drop(sh, a), b) == Drop(sh, a + b)
  {
    var d := Drop(sh, a);
    assert Sources(sh, a + b) == Sources(sh, a) + Sources(d, b);
    assert Providers(sh, a + b) == Providers(sh, a) + Providers(d, b);
    assert Drop(d, b).objects == Drop(sh, a + b).objects;
  }

  lemma RemovalFinishes(sh: Shared, sid: nat, rest: Pc, c: Choice)
    requires sid in sh.objects
    ensures Finish(Detach(sh, sid), Closing(sid, rest), c) == Finish(Drop(sh, {sid}), rest, c)
  {
    hide Finish, Drop;
    var d := Detach(sh, sid);
    DropOne(sh, sid);
    Resume(d, Closing(sid, rest), c);
    Resume(Close(d, sh.objects[sid].provider), Clearing(sid, rest), c);
  }

  lemma RemoveFinishes(sh: Shared, sid: nat, result: State, c: Choice)
    requires sid in sh.objects
    ensures Finish(sh, Remove(sid, result), c) == (Drop(sh, {sid}), Snapshot(sid, result))
  {
    hide Finish, Drop, Detach;
    Resume(sh, Remove(sid, result), c);
    RemovalFinishes(sh, sid, Done(Snapshot(sid, result)), c);
    Ends(Drop(sh, {sid}), Snapshot(sid, result), c);
  }

  lemma {:induction false} SweepFinishes(sh: Shared, gone: set<nat>, call: Pc, c: Choice)
    requires gone <= sh.objects.Keys
    ensures Finish(sh, Sweep(gone, call), c) == Finish(Drop(sh, gone), call, c)
    decreases gone
  {
    hide Finish, Detach;
    Resume(sh, Sweep(gone, call), c);
    if gone == {} {
      DropNone(sh);
    } else {
      var sid := Oldest(gone);
      var rest := gone - {sid};
      RemovalFinishes(sh, sid, Sweep(rest, call), c);
      SweepFinishes(Drop(sh, {sid}), rest, call, c);
      DropMore(sh, rest, sid);
      assert rest + {sid} == gone;
    }
  }

  /** A call first drops all expired sessions. */
  lemma ExpiryFinishes(sh: Shared, now: Time, call: Pc, c: Choice)
    ensures Finish(sh, Sweep(Expired(sh, now), call), c) == Finish(Expire(sh, now), call, c)
  {
    hide Finish, Drop;
    SweepFinishes(sh, Expired(sh, now), call, c);
  }

  /** The locked checks of a code call, when nobody comes between them. */
  lemma CodeChecks(sh: Shared, sid: nat, wellFormed: bool, c: Choice)
    requires sid in sh.objects
    ensures var s := sh.objects[sid];
      Finish(sh, MfaCheck(sid, wellFormed), c) ==
        if s.state != MfaRequired || s.provider.None? then (sh, Refused("invalid_state"))
        else if !wellFormed then (sh, Snapshot(sid, s.state))
        else Finish(Write(sh, sid, s.(state := Authenticating)), MfaRead(sid), c)
  {
    hide Finish, Write;
    var s := sh.objects[sid];
    Resume(sh, MfaCheck(sid, wellFormed), c);
    Ends(sh, Refused("invalid_state"), c);
    if s.state == MfaRequired {
      Resume(sh, MfaCheckProvider(sid, wellFormed), c);
      Ends(sh, Snapshot(sid, s.state), c);
      if s.provider.Some? { CodeEnters(sh, sid, c); }
    }
  }

  lemma CodeEnters(sh: Shared, sid: nat, c: Choice)
    requires sid in sh.objects && sh.objects[sid].state == MfaRequired && sh.objects[sid].provider.Some?
    ensures Finish(sh, MfaEnter(sid), c) == Finish(Write(sh, sid, sh.objects[sid].(state := Authenticating)), MfaRead(sid), c)
  {
    hide Finish, Write;
    Resume(sh, MfaEnter(sid), c);
    Resume(sh, MfaEnterProvider(sid), c);
    Resume(sh, MfaMark(sid), c);
  }

  lemma DropKeeps(sh: Shared, gone: set<nat>)
    requires TablesSound(sh) && ProvidersFit(sh)
    ensures TablesSound(Drop(sh, gone)) && ProvidersFit(Drop(sh, gone))
  {
    var d := Drop(sh, gone);
    forall source | source in d.bySource ensures d.bySource[source] in d.live && d.objects[d.bySource[source]].source == source {
      var sid := sh.bySource[source];
      assert sh.objects[sid].source == source;
      assert sid in gone ==> source in Sources(sh, gone);
    }
  }

  lemma DropCovered(sh: Shared, gone: set<nat>)
    requires TablesSound(sh) && Covered(sh) && gone <= sh.live
    ensures Covered(Drop(sh, gone))
  {
    var d := Drop(sh, gone);
    forall sid | sid in d.live && sid in d.objects
      ensures d.objects[sid].source in d.bySource && d.bySource[d.objects[sid].source] == sid
    {
      var source := sh.objects[sid].source;
      assert sh.bySource[source] == sid;
      forall g | g in gone && g in sh.objects ensures sh.objects[g].source != source {
        assert sh.bySource[sh.objects[g].source] == g;
      }
    }
  }

  // ---- processes and their owners ----

  predicate Provides(sh: Shared, sid: nat, p: nat) {
    sid in sh.live && sid in sh.objects && sh.objects[sid].provider == Some(p)
  }

  /** Every provider recorded anywhere was started, and only listed sessions record one. */
  predicate Recorded(sh: Shared) {
    && (forall p :: p in sh.open ==> p < sh.started)
    && (forall sid :: sid in sh.objects && sh.objects[sid].provider.Some? ==>
          sid in sh.live && sh.objects[sid].provider.value < sh.started)
  }

  /**
   * The open processes are `held` and the providers of the listed sessions not in `cleared`, each of them one
   * process; a session out of the table has no provider.
   */
  ghost predicate Balanced(sh: Shared, held: set<nat>, cleared: set<nat>) {
    && Recorded(sh) && held <= sh.open
    && (forall p :: p in sh.open && p !in held ==> exists sid :: sid !in cleared && Provides(sh, sid, p))
    && (forall sid, p :: Provides(sh, sid, p) && sid !in cleared ==> p in sh.open && p !in held)
    && (forall a, b, p :: Provides(sh, a, p) && Provides(sh, b, p) ==> a == b)
  }

  lemma BalancedDrop(sh: Shared, gone: set<nat>)
    requires Balanced(sh, {}, {}) && gone <= sh.live
    ensures Balanced(Drop(sh, gone), {}, {})
  {
    var d := Drop(sh, gone);
    assert Recorded(d);
    forall sid, p ensures Provides(d, sid, p) <==> Provides(sh, sid, p) && sid !in gone {
    }
    forall p ensures p in Providers(sh, gone) <==> exists g :: g in gone && Provides(sh, g, p) {
      if g :| g in gone && Provides(sh, g, p) { assert g in gone && g in sh.objects && sh.objects[g].provider.value == p; }
    }
    hide Provides, Providers, Recorded;
    forall p | p in d.open ensures exists sid :: sid !in {} && Provides(d, sid, p) {
      var sid :| sid !in {} && Provides(sh, sid, p);
      assert sid !in gone;
    }
    forall sid, p | Provides(d, sid, p) ensures p in d.open {
      assert forall g :: g in gone && Provides(sh, g, p) ==> g == sid;
    }
  }

  /** Sessions that provide the same processes are balanced alike. */
  lemma BalancedAlike(sh: Shared, u: Shared)
    requires Balanced(sh, {}, {}) && Recorded(u) && u.open == sh.open
    requires forall sid, p :: Provides(u, sid, p) <==> Provides(sh, sid, p)
    ensures Balanced(u, {}, {})
  {
    hide Provides, Recorded;
    forall p | p in u.open ensures exists sid :: sid !in {} && Provides(u, sid, p) {
      var sid :| sid !in {} && Provides(sh, sid, p);
      assert Provides(u, sid, p);
    }
  }

  lemma BalancedLaunch(sh: Shared)
    requires Balanced(sh, {}, {})
    ensures Balanced(sh.(open := sh.open + {sh.started}, started := sh.started + 1), {sh.started}, {})
  {
    var u := sh.(open := sh.open + {sh.started}, started := sh.started + 1);
    forall sid, p ensures Provides(u, sid, p) <==> Provides(sh, sid, p) {
    }
  }

  lemma BalancedClose(sh: Shared, p: nat)
    requires Balanced(sh, {p}, {})
    ensures Balanced(Close(sh, Some(p)), {}, {})
  {
    var u := Close(sh, Some(p));
    assert Recorded(u);
    forall sid, x ensures Provides(u, sid, x) <==> Provides(sh, sid, x) {
    }
    hide Provides, Recorded;
  }

  lemma BalancedStore(sh: Shared, sid: nat, p: nat)
    requires Balanced(sh, {p}, {}) && sid in sh.live && sid in sh.objects && sh.objects[sid].provider.None?
    ensures Balanced(Write(sh, sid, sh.objects[sid].(provider := Some(p))), {}, {})
  {
    var u := Write(sh, sid, sh.objects[sid].(provider := Some(p)));
    assert Recorded(u);
    forall y, x ensures Provides(u, y, x) <==> Provides(sh, y, x) || (y == sid && x == p) {
    }
    hide Provides, Recorded;
    forall x | x in u.open ensures exists y :: y !in {} && Provides(u, y, x) {
      if x == p {
        assert sid !in {} && Provides(u, sid, x);
      } else {
        var y :| y !in {} && Provides(sh, y, x);
        assert Provides(u, y, x);
      }
    }
  }

  /** Closing the provider of a session, which is cleared next. */
  lemma BalancedClosing(sh: Shared, sid: nat)
    requires Balanced(sh, {}, {}) && sid in sh.live && sid in sh.objects
    ensures Balanced(Close(sh, sh.objects[sid].provider), {}, {sid})
  {
    var u := Close(sh, sh.objects[sid].provider);
    assert Recorded(u);
    forall y, x ensures Provides(u, y, x) <==> Provides(sh, y, x) {
    }
    forall y, x | Provides(u, y, x) && y != sid ensures x in u.open {
      assert sh.objects[sid].provider == Some(x) <==> Provides(sh, sid, x);
    }
  }

  lemma BalancedClear(sh: Shared, sid: nat)
    requires Balanced(sh, {}, {sid}) && sid in sh.objects
    ensures Balanced(Write(sh, sid, sh.objects[sid].(provider := None)), {}, {})
  {
    var u := Write(sh, sid, sh.objects[sid].(provider := None));
    assert Recorded(u);
    forall y, x ensures Provides(u, y, x) <==> Provides(sh, y, x) && y != sid {
    }
    hide Provides, Recorded;
    forall x | x in u.open ensures exists y :: y !in {} && Provides(u, y, x) {
      var y :| y !in {sid} && Provides(sh, y, x);
      assert Provides(u, y, x);
    }
  }

  /** States, tables and new sessions do not matter to processes. */
  lemma BalancedElsewhere(sh: Shared, u: Shared)
    requires Balanced(sh, {}, {})
    requires u.open == sh.open && u.started == sh.started && sh.live <= u.live && sh.objects.Keys <= u.objects.Keys
    requires forall sid :: sid in u.objects ==>
      u.objects[sid].provider == if sid in sh.objects then sh.objects[sid].provider else None
    ensures Balanced(u, {}, {})
  {
    assert Recorded(u);
    forall sid, p ensures Provides(u, sid, p) <==> Provides(sh, sid, p) {
    }
    BalancedAlike(sh, u);
  }

  // ---- the invariant between and inside serial calls ----

  predicate Resting(s: Session) {
    s.state == PasswordRequired || s.state == MfaRequired || s.state == AuthenticationFailed
  }

  /** Between calls. */
  ghost predicate Settled(sh: Shared) {
    && TablesSound(sh) && ProvidersFit(sh) && Covered(sh) && Balanced(sh, {}, {})
    && (forall sid :: sid in sh.live && sid in sh.objects ==> Resting(sh.objects[sid]))
  }

  function Held(pc: Pc): set<nat> {
    if pc.PasswordSend? || pc.PasswordStore? || pc.ProbeSend? then {pc.process} else {}
  }

  function Cleared(pc: Pc): set<nat> {
    if pc.MfaClear? then {pc.sid} else {}
  }

  /** Inside a call that runs alone: its own session may be unsettled, everything else rests. */
  ghost predicate AloneAt(sh: Shared, pc: Pc) {
    && TablesSound(sh) && ProvidersFit(sh) && Covered(sh) && ThreadSound(sh, pc)
    && Balanced(sh, Held(pc), Cleared(pc))
    && (HasSession(pc) ==> pc.sid in sh.live && pc.sid in sh.objects)
    && (forall sid :: sid in sh.live && sid in sh.objects && !(Unsettled(pc) && sid == pc.sid) ==> Resting(sh.objects[sid]))
  }

  predicate Unsettled(pc: Pc) {
    Critical(pc) || pc.Remove?
  }

  predicate Removing(pc: Pc) {
    pc.Remove? || pc.Closing? || pc.Clearing?
  }

  lemma DropAlone(sh: Shared, gone: set<nat>)
    requires Settled(sh) && gone <= sh.live
    ensures Settled(Drop(sh, gone))
  {
    hide Balanced, TablesSound, ProvidersFit, Covered;
    DropKeeps(sh, gone);
    DropCovered(sh, gone);
    BalancedDrop(sh, gone);
  }

  lemma StartAlone(sh: Shared, source: int, account: string, expires: Time)
    requires Settled(sh)
    ensures Settled(StartStep(sh, source, account, expires).0)
  {
    hide Balanced, TablesSound, ProvidersFit, Covered;
    StartKeeps(sh, source, account, expires);
    StartCovered(sh, source, account, expires);
    FreshIsNew(sh);
    var u := StartStep(sh, source, account, expires).0;
    if u != sh { BalancedElsewhere(sh, u); }
  }

  lemma FreshIsNew(sh: Shared)
    requires TablesSound(sh)
    ensures sh.created !in sh.objects && sh.created !in sh.live
  {
  }

  lemma StateBalanced(sh: Shared, sid: nat, state: State)
    requires Balanced(sh, {}, {}) && sid in sh.objects
    ensures Balanced(Write(sh, sid, sh.objects[sid].(state := state)), {}, {})
  {
    hide Balanced;
    BalancedElsewhere(sh, Write(sh, sid, sh.objects[sid].(state := state)));
  }

  /** The processes stay balanced through every step of a call that runs alone. */
  lemma StepBalanced(sh: Shared, pc: Pc, c: Choice)
    requires AloneAt(sh, pc) && HasSession(pc) && !Removing(pc)
    ensures var (u, next) := OnSession(sh, pc, c, sh.objects[pc.sid]); Balanced(u, Held(next), Cleared(next))
  {
    hide Balanced, TablesSound, ProvidersFit, Covered, Write, Close;
    var s := sh.objects[pc.sid];
    match pc {
      case PasswordMark(sid) => StateBalanced(sh, sid, Authenticating);
      case PasswordLaunch(_) => BalancedLaunch(sh);
      case PasswordSend(_, process) => BalancedClose(sh, process);
      case PasswordStore(sid, process) => BalancedStore(sh, sid, process);
      case MfaMark(sid) => StateBalanced(sh, sid, Authenticating);
      case MfaSend(sid, provider) => BalancedClosing(sh, sid);
      case MfaClear(sid, _) => BalancedClear(sh, sid);
      case Release(sid, next) => StateBalanced(sh, sid, next);
      case CancelMark(sid) => StateBalanced(sh, sid, Cancelled);
      case _ =>
    }
  }

  lemma StepRests(sh: Shared, pc: Pc, c: Choice)
    requires AloneAt(sh, pc) && HasSession(pc) && !Removing(pc)
    ensures var (u, next) := OnSession(sh, pc, c, sh.objects[pc.sid]);
      && (HasSession(next) ==> next.sid in u.live && next.sid in u.objects)
      && (forall sid :: sid in u.live && sid in u.objects && !(Unsettled(next) && sid == next.sid) ==> Resting(u.objects[sid]))
  {
    hide Balanced, TablesSound, ProvidersFit, Covered;
  }

  lemma SessionStepAlone(sh: Shared, pc: Pc, c: Choice)
    requires AloneAt(sh, pc) && HasSession(pc) && !Removing(pc)
    ensures var (u, next) := OnSession(sh, pc, c, sh.objects[pc.sid]); AloneAt(u, next)
  {
    hide Balanced, TablesSound, ProvidersFit, Covered, OnSession, ThreadSound, Resting;
    StepKeepsTables(sh, pc, c);
    StepKeepsMover(sh, pc, c);
    StepConverse(sh, pc, c);
    StepBalanced(sh, pc, c);
    StepRests(sh, pc, c);
    assert Next(sh, pc, c) == OnSession(sh, pc, c, sh.objects[pc.sid]);
  }

  /** A call that has not fetched a session yet, or has just ended, leaves everything settled. */
  lemma AloneIsSettled(sh: Shared, pc: Pc)
    requires !HasSession(pc) && !pc.ProbeSend? && !pc.Sweep?
    ensures AloneAt(sh, pc) <==> Settled(sh)
  {
    hide Balanced, TablesSound, ProvidersFit, Covered, Resting;
  }

  lemma FirstStepAlone(sh: Shared, pc: Pc, c: Choice)
    requires Settled(sh) && !HasSession(pc) && !pc.ProbeSend? && !pc.ProbeLaunch? && !pc.Sweep?
    ensures AloneAt(Next(sh, pc, c).0, Next(sh, pc, c).1)
  {
    hide Settled, AloneAt, StartStep;
    if pc.StartTables? {
      StartAlone(sh, pc.source, pc.account, pc.expires);
      StartEnds(sh, pc.source, pc.account, pc.expires);
      AloneIsSettled(Next(sh, pc, c).0, Next(sh, pc, c).1);
    } else {
      LookupAlone(sh, pc, c);
    }
  }

  lemma LookupAlone(sh: Shared, pc: Pc, c: Choice)
    requires Settled(sh) && !HasSession(pc) && !pc.ProbeSend? && !pc.ProbeLaunch? && !pc.Sweep? && !pc.StartTables?
    ensures AloneAt(Next(sh, pc, c).0, Next(sh, pc, c).1)
  {
    hide Balanced, TablesSound, ProvidersFit, Covered, Resting, OnSession, Detach, Expired;
    ExpiredAreListed(sh, if pc.StartLock? then pc.now else c.now);
  }

  lemma ProbeAlone(sh: Shared, pc: Pc, c: Choice)
    requires AloneAt(sh, pc) && (pc.ProbeLaunch? || pc.ProbeSend?)
    ensures AloneAt(Next(sh, pc, c).0, Next(sh, pc, c).1)
  {
    hide Balanced, TablesSound, ProvidersFit, Covered, Resting;
    StepKeepsTables(sh, pc, c);
    StepKeepsMover(sh, pc, c);
    StepConverse(sh, pc, c);
    if pc.ProbeLaunch? { BalancedLaunch(sh); } else { BalancedClose(sh, pc.process); }
  }

  lemma StepAlone(sh: Shared, pc: Pc, c: Choice)
    requires AloneAt(sh, pc) && !Removing(pc) && !pc.Sweep?
    ensures AloneAt(Next(sh, pc, c).0, Next(sh, pc, c).1)
  {
    hide AloneAt, Settled, OnSession, StartStep;
    if pc.ProbeLaunch? || pc.ProbeSend? {
      ProbeAlone(sh, pc, c);
    } else if !HasSession(pc) {
      AloneIsSettled(sh, pc);
      FirstStepAlone(sh, pc, c);
    } else {
      SessionFound(sh, pc);
      SessionStepAlone(sh, pc, c);
    }
  }

  lemma SessionFound(sh: Shared, pc: Pc)
    requires AloneAt(sh, pc) && HasSession(pc)
    ensures pc.sid in sh.objects
  {
  }

  /** A sweep starts from settled tables, and what follows it does too. */
  lemma SweepAlone(sh: Shared, pc: Pc)
    requires AloneAt(sh, pc) && pc.Sweep?
    ensures AloneAt(Drop(sh, pc.gone), pc.call) && !Removing(pc.call) && pc.gone <= sh.objects.Keys
    ensures Collects(pc.call) == Collects(pc) && Rank(pc.call) < Rank(pc)
  {
    hide Drop, Balanced, Covered, ProvidersFit;
    SweptAreListed(sh, pc);
    DropAlone(sh, pc.gone);
    AloneIsSettled(Drop(sh, pc.gone), pc.call);
  }

  lemma SweptAreListed(sh: Shared, pc: Pc)
    requires TablesSound(sh) && ThreadSound(sh, pc) && pc.Sweep?
    ensures pc.gone <= sh.live && pc.gone <= sh.objects.Keys
    ensures !HasSession(pc.call) && !pc.call.ProbeSend? && !pc.call.Sweep?
  {
  }

  lemma RemoveAlone(sh: Shared, pc: Pc)
    requires AloneAt(sh, pc) && pc.Remove?
    ensures Settled(Drop(sh, {pc.sid}))
  {
    hide Balanced, TablesSound, ProvidersFit, Covered;
    DropKeeps(sh, {pc.sid});
    DropCovered(sh, {pc.sid});
    BalancedDrop(sh, {pc.sid});
  }

  lemma {:induction false} FinishSettles(sh: Shared, pc: Pc, c: Choice)
    requires AloneAt(sh, pc) && !pc.Closing? && !pc.Clearing?
    ensures Settled(Finish(sh, pc, c).0)
    decreases Collects(pc), Rank(pc)
  {
    hide AloneAt, Settled, Next, Drop, Finish, Collects, Rank;
    if pc.Done? {
      AloneIsSettled(sh, pc);
      Ends(sh, pc.reply, c);
    } else if pc.Sweep? {
      SweepAlone(sh, pc);
      SweepFinishes(sh, pc.gone, pc.call, c);
      FinishSettles(Drop(sh, pc.gone), pc.call, c);
    } else if pc.Remove? {
      SessionFound(sh, pc);
      RemoveAlone(sh, pc);
      RemoveFinishes(sh, pc.sid, pc.result, c);
    } else {
      RankFalls(sh, pc, c);
      StepAlone(sh, pc, c);
      Resume(sh, pc, c);
      NotRemoving(sh, pc, c);
      FinishSettles(Next(sh, pc, c).0, Next(sh, pc, c).1, c);
    }
  }

  lemma NotRemoving(sh: Shared, pc: Pc, c: Choice)
    requires !Removing(pc) && !pc.Sweep?
    ensures var next := Next(sh, pc, c).1; !next.Closing? && !next.Clearing?
  {
    hide StartStep;
    if pc.StartTables? { StartEnds(sh, pc.source, pc.account, pc.expires); }
  }

  // ---- serial runs ----

  datatype SerialCall = SerialCall(call: Pc, choice: Choice)

  /** Calls one after the other. */
  function RunSerially(calls: seq<SerialCall>): Shared {
    if calls == [] then NOTHING
    else
      var last := calls[|calls| - 1];
      var before := RunSerially(calls[..|calls| - 1]);
      if Initial(last.call) then Finish(before, last.call, last.choice).0 else before
  }

  lemma {:induction false} SerialRunsSettle(calls: seq<SerialCall>)
    ensures Settled(RunSerially(calls))
  {
    hide Settled, Finish, AloneAt;
    if calls == [] {
      NothingIsSettled();
    } else {
      var last := calls[|calls| - 1];
      SerialRunsSettle(calls[..|calls| - 1]);
      if Initial(last.call) {
        AloneIsSettled(RunSerially(calls[..|calls| - 1]), last.call);
        FinishSettles(RunSerially(calls[..|calls| - 1]), last.call, last.choice);
      }
    }
  }

  lemma NothingIsSettled()
    ensures Settled(NOTHING)
  {
  }

  /** The threads of the first `n` calls, all of which have returned. */
  predicate AllReturned(s: System, n: nat) {
    forall t :: t in s.threads ==> t < n && s.threads[t].Done?
  }

  lemma {:induction false} FinishIsAdvance(sh: Shared, pc: Pc, c: Choice)
    ensures exists n: nat :: Advance(sh, pc, c, n) == (Finish(sh, pc, c).0, Done(Finish(sh, pc, c).1))
    decreases Collects(pc), Rank(pc)
  {
    hide Next, Finish, Collects, Rank;
    if pc.Done? {
      Ends(sh, pc.reply, c);
      assert Advance(sh, pc, c, 0) == (sh, pc);
    } else {
      RankFalls(sh, pc, c);
      Resume(sh, pc, c);
      var (u, next) := Next(sh, pc, c);
      FinishIsAdvance(u, next, c);
      var n: nat :| Advance(u, next, c, n) == (Finish(u, next, c).0, Done(Finish(u, next, c).1));
      assert Advance(sh, pc, c, n + 1) == Advance(u, next, c, n);
    }
  }

  /** A serial run is one of the interleavings. */
  lemma {:induction false} SerialRunsAreRuns(calls: seq<SerialCall>)
    ensures exists labels :: Run(labels).shared == RunSerially(calls) && AllReturned(Run(labels), |calls|)
  {
    hide Run, Finish, Next, Initial;
    if calls == [] {
      NothingReturned();
    } else {
      var m := |calls| - 1;
      var (pc, c) := (calls[m].call, calls[m].choice);
      SerialRunsAreRuns(calls[..m]);
      var labels :| Run(labels).shared == RunSerially(calls[..m]) && AllReturned(Run(labels), m);
      var after := labels;
      if Initial(pc) {
        RunSpawning(labels, m, pc);
        FinishIsAdvance(Run(labels).shared, pc, c);
        var n: nat :| Advance(Run(labels).shared, pc, c, n) ==
          (Finish(Run(labels).shared, pc, c).0, Done(Finish(Run(labels).shared, pc, c).1));
        RunGoing(labels + Spawning(m, pc), m, c, n);
        after := labels + Spawning(m, pc) + Going(m, c, n);
      }
      assert Run(after).shared == RunSerially(calls) && AllReturned(Run(after), |calls|);
    }
  }

  lemma NothingReturned()
    ensures Run([]).shared == RunSerially([]) && AllReturned(Run([]), 0)
  {
  }

  /**
   * In every serial run of start, password, code, cancel and probe calls the two tables mirror each other, every session
   * in the table waits for a password or a code, and the provider processes still open are exactly the providers of
   * the sessions waiting for a code, one each.
   */
  lemma SerialConservation(calls: seq<SerialCall>, sid: nat, p: nat)
    ensures var sh := RunSerially(calls);
      && (sid in sh.live ==>
            && sid in sh.objects && Resting(sh.objects[sid])
            && sh.objects[sid].source in sh.bySource && sh.bySource[sh.objects[sid].source] == sid
            && (sh.objects[sid].state == MfaRequired <==> sh.objects[sid].provider.Some?))
      && (p in sh.open <==>
            exists s :: s in sh.live && s in sh.objects && sh.objects[s].state == MfaRequired && sh.objects[s].provider == Some(p))
      && (forall a, b :: Provides(sh, a, p) && Provides(sh, b, p) ==> a == b)
  {
    hide RunSerially;
    var sh := RunSerially(calls);
    SerialRunsSettle(calls);
    if sid in sh.live { FitsNow(sh, sid); }
    if p in sh.open {
      var s :| s !in {} && Provides(sh, s, p);
      FitsNow(sh, s);
    }
    if s :| s in sh.live && s in sh.objects && sh.objects[s].state == MfaRequired && sh.objects[s].provider == Some(p) {
      assert Provides(sh, s, p) && s !in {};
    }
  }
}
