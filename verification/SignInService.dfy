/** The sign-in service itself: session objects and two tables, written field by field, one call at a time. */
module SignInService {
  import opened Text
  import opened SignIn
  import opened SignInSerial
  import opened SignInCalls

  class SignInSession {
    const source: int
    const account: string
    const expires: Time
    var state: State
    var provider: Option<nat>

    constructor (source: int, account: string, expires: Time)
      ensures Value() == Session(source, account, expires, PasswordRequired, None)
    {
      this.source, this.account, this.expires := source, account, expires;
      state, provider := PasswordRequired, None;
    }

    function Value(): Session
      reads this
    {
      Session(source, account, expires, state, provider)
    }
  }

  /** `all` remembers every session ever created; the service itself only knows those in `sessions`. */
  class SignInTables {
    var sessions: map<nat, SignInSession>
    var sourceSessions: map<int, nat>
    var open: set<nat>
    var created: nat
    var started: nat
    ghost var all: map<nat, SignInSession>

    ghost function Abs(): Shared
      reads this, all.Values
    {
      Shared(map sid | sid in all :: all[sid].Value(), sessions.Keys, sourceSessions, open, created, started)
    }

    /** The session table holds objects of `all`, and no object has two identifiers. */
    ghost predicate Laid()
      reads this`sessions, this`all
    {
      && (forall sid :: sid in sessions ==> sid in all && all[sid] == sessions[sid])
      && (forall a, b :: a in all && b in all && a != b ==> all[a] != all[b])
    }

    ghost predicate Valid()
      reads this, all.Values
    {
      Laid() && Settled(Abs())
    }

    constructor ()
      ensures Valid() && Abs() == NOTHING && fresh(all.Values)
    {
      sessions, sourceSessions, open, created, started, all := map[], map[], {}, 0, 0, map[];
      new;
      NothingIsSettled();
      assert Abs() == NOTHING;
    }

    method SetState(ghost sid: nat, session: SignInSession, state: State)
      requires Laid() && sid in all && all[sid] == session
      modifies session`state
      ensures Abs() == Write(old(Abs()), sid, old(session.Value()).(state := state))
      ensures session.provider == old(session.provider)
    {
      session.state := state;
    }

    method SetProvider(ghost sid: nat, session: SignInSession, provider: Option<nat>)
      requires Laid() && sid in all && all[sid] == session
      modifies session`provider
      ensures Abs() == Write(old(Abs()), sid, old(session.Value()).(provider := provider))
    {
      session.provider := provider;
    }

    method CloseProcess(process: Option<nat>)
      modifies this`open
      ensures Abs() == Close(old(Abs()), process)
    {
      if process.Some? { open := open - {process.value}; }
    }

    method StartProcess() returns (process: nat)
      modifies this`open, this`started
      ensures process == old(started) == old(Abs()).started
      ensures Abs() == old(Abs()).(open := old(Abs()).open + {process}, started := process + 1)
    {
      process := started;
      open, started := open + {process}, started + 1;
    }

    /** Take one session out of both tables, close its provider and forget it. */
    method Pop(sid: nat, session: SignInSession)
      requires Laid() && sid in all && all[sid] == session
      modifies this`sessions, this`sourceSessions, this`open, session`provider
      ensures Laid() && Abs() == Drop(old(Abs()), {sid})
      ensures sessions == old(sessions) - {sid}
    {
      hide SignInSession.Value;
      ghost var sh := Abs();
      DropOne(sh, sid);
      SourceOf(session);
      Unlist(sid, session.source);
      CloseProcess(session.provider);
      SetProvider(sid, session, None);
    }

    method Unlist(sid: nat, source: int)
      requires Laid()
      modifies this`sessions, this`sourceSessions
      ensures Laid() && sessions == old(sessions) - {sid}
      ensures Abs() == old(Abs()).(live := old(Abs()).live - {sid}, bySource := old(Abs()).bySource - {source})
    {
      sessions := sessions - {sid};
      sourceSessions := sourceSessions - {source};
    }

    // ---- calls ----

    method ExpireLocked(now: Time)
      requires Laid()
      modifies this`sessions, this`sourceSessions, this`open, all.Values
      ensures Laid() && Abs() == Expire(old(Abs()), now)
    {
      hide SignInSession.Value, Drop;
      ghost var sh := Abs();
      ghost var gone := Expired(sh, now);
      var expired := set sid | sid in sessions && sessions[sid].expires <= now;
      ExpiredHere(now, expired);
      DropNone(sh);
      assert gone - expired == {};
      while expired != {}
        invariant Laid() && expired <= sessions.Keys && expired <= gone
        invariant Abs() == Drop(sh, gone - expired)
        decreases expired
      {
        var sid :| sid in expired;
        DropMore(sh, gone - expired, sid);
        assert gone - (expired - {sid}) == gone - expired + {sid};
        Pop(sid, sessions[sid]);
        expired := expired - {sid};
      }
      assert gone - expired == gone;
    }

    lemma ExpiredHere(now: Time, expired: set<nat>)
      requires Laid() && expired == set sid | sid in sessions && sessions[sid].expires <= now
      ensures expired == Expired(Abs(), now)
    {
    }

    /** The lookup that begins every call on a session. */
    method RequireSession(sid: nat, source: int, now: Time) returns (refusal: Option<Reply>, session: SignInSession?)
      requires Laid()
      modifies this`sessions, this`sourceSessions, this`open, all.Values
      ensures Laid() && Abs() == Expire(old(Abs()), now) && refusal == Require(Abs(), sid, source)
      ensures refusal.None? ==> session != null && sid in all && session == all[sid]
    {
      hide SignInSession.Value, Expire;
      ExpireLocked(now);
      session := null;
      if sid !in sessions { return Some(Refused("expired")), null; }
      session := sessions[sid];
      SourceOf(session);
      refusal := if session.source != source then Some(Refused("session_mismatch")) else None;
    }

    method Start(source: int, account: string, now: Time, expires: Time, ghost c: Choice) returns (reply: Reply)
      requires Valid()
      modifies this, all.Values
      ensures Valid() && (Abs(), reply) == Finish(old(Abs()), StartLock(source, account, now, expires), c)
      ensures fresh(all.Values - old(all.Values))
    {
      hide SignInSession.Value, Settled, Finish, Expire, Enrol, OnSession, Require;
      ghost var pc := StartLock(source, account, now, expires);
      CallSettles(Abs(), pc, c);
      StartFinds(Abs(), now, source);
      ExpireLocked(now);
      StartFinishes(old(Abs()), source, account, now, expires, c);
      if source in sourceSessions {
        var existing := sessions[sourceSessions[source]];
        StateOf(existing);
        return Snapshot(sourceSessions[source], existing.state);
      }
      var taken := exists sid :: sid in sessions && sessions[sid].account == account;
      AccountTaken(account, taken);
      if taken { return Refused("account_authentication_active"); }
      reply := Snapshot(created, PasswordRequired);
      EnrolSession(source, account, expires);
    }

    /** Write the state that releases the session; a finished sign-in also leaves the tables. */
    method ReleaseSession(sid: nat, session: SignInSession, next: State, ghost c: Choice) returns (reply: Reply)
      requires Laid() && sid in all && all[sid] == session
      modifies this`sessions, this`sourceSessions, this`open, session
      ensures Laid() && (Abs(), reply) == Finish(old(Abs()), Release(sid, next), c)
    {
      hide SignInSession.Value, SignInTables.Abs, SignInTables.Laid, Finish, Drop, Write;
      StillThere(sid);
      Resume(Abs(), Release(sid, next), c);
      SetState(sid, session, next);
      StillThere(sid);
      reply := Snapshot(sid, next);
      if next == Authenticated {
        StillThere(sid);
        RemoveFinishes(Abs(), sid, next, c);
        Pop(sid, session);
      } else {
        Ends(Abs(), reply, c);
      }
    }

    lemma StillThere(sid: nat)
      requires sid in all
      ensures sid in Abs().objects && Abs().objects[sid] == all[sid].Value()
    {
    }

    /** The locked part is over: launch a provider, send the password, act on the answer. */
    method CheckPassword(sid: nat, session: SignInSession, c: Choice) returns (reply: Reply)
      requires Laid() && sid in all && all[sid] == session
      modifies this`sessions, this`sourceSessions, this`open, this`started, session
      ensures Laid() && (Abs(), reply) == Finish(old(Abs()), PasswordLaunch(sid), c)
    {
      hide SignInSession.Value, SignInTables.Abs, SignInTables.Laid, Finish, Drop, Write, Close;
      StillThere(sid);
      Resume(Abs(), PasswordLaunch(sid), c);
      if !c.starts {
        reply := ReleaseSession(sid, session, AuthenticationFailed, c);
        return;
      }
      var process := StartProcess();
      StillThere(sid);
      Resume(Abs(), PasswordSend(sid, process), c);
      if c.answer == Response(SaysMfa) {
        Resume(Abs(), PasswordStore(sid, process), c);
        SetProvider(sid, session, Some(process));
        reply := ReleaseSession(sid, session, MfaRequired, c);
        return;
      }
      CloseProcess(Some(process));
      var next := if c.answer == Response(SaysAuthenticated) then Authenticated else AuthenticationFailed;
      reply := ReleaseSession(sid, session, next, c);
    }

    method SubmitPassword(sid: nat, source: int, account: string, empty: bool, c: Choice) returns (reply: Reply)
      requires Valid()
      modifies this, all.Values
      ensures Valid() && (Abs(), reply) == Finish(old(Abs()), PasswordRequire(sid, source, account, empty), c)
      ensures all == old(all)
    {
      hide SignInSession.Value, SignInTables.Abs, SignInTables.Laid, Settled, Finish, Expire, Write, OnSession, StartStep;
      ghost var pc := PasswordRequire(sid, source, account, empty);
      CallSettles(Abs(), pc, c);
      var refusal, session := RequireSession(sid, source, c.now);
      Resume(old(Abs()), pc, c);
      ExpiryFinishes(old(Abs()), c.now, PasswordLookup(sid, source, account, empty), c);
      Resume(Abs(), PasswordLookup(sid, source, account, empty), c);
      if refusal.Some? {
        Ends(Abs(), refusal.value, c);
        return refusal.value;
      }
      StillThere(sid);
      StateOf(session);
      if account != session.account {
        Ends(Abs(), Refused("account_mismatch"), c);
        return Refused("account_mismatch");
      }
      if empty {
        Ends(Abs(), Refused("password_required"), c);
        return Refused("password_required");
      }
      reply := EnterPassword(sid, session, c);
    }

    method EnterPassword(sid: nat, session: SignInSession, c: Choice) returns (reply: Reply)
      requires Laid() && sid in all && all[sid] == session
      modifies this`sessions, this`sourceSessions, this`open, this`started, session
      ensures Laid() && (Abs(), reply) == Finish(old(Abs()), PasswordEnter(sid), c)
    {
      hide SignInSession.Value, SignInTables.Abs, SignInTables.Laid, Finish, Write, Drop;
      StillThere(sid);
      StateOf(session);
      Resume(Abs(), PasswordEnter(sid), c);
      if session.state != PasswordRequired && session.state != AuthenticationFailed {
        Ends(Abs(), Refused("invalid_state"), c);
        return Refused("invalid_state");
      }
      Resume(Abs(), PasswordMark(sid), c);
      SetState(sid, session, Authenticating);
      reply := CheckPassword(sid, session, c);
    }

    method SubmitMfa(sid: nat, source: int, wellFormed: bool, c: Choice) returns (reply: Reply)
      requires Valid()
      modifies this, all.Values
      ensures Valid() && (Abs(), reply) == Finish(old(Abs()), MfaRequire(sid, source, wellFormed), c)
      ensures all == old(all)
    {
      hide SignInSession.Value, SignInTables.Abs, SignInTables.Laid, Settled, Finish, Expire, Write, OnSession, StartStep;
      ghost var pc := MfaRequire(sid, source, wellFormed);
      CallSettles(Abs(), pc, c);
      var refusal, session := RequireSession(sid, source, c.now);
      Resume(old(Abs()), pc, c);
      ExpiryFinishes(old(Abs()), c.now, MfaLookup(sid, source, wellFormed), c);
      Resume(Abs(), MfaLookup(sid, source, wellFormed), c);
      if refusal.Some? {
        Ends(Abs(), refusal.value, c);
        return refusal.value;
      }
      reply := EnterMfa(sid, session, wellFormed, c);
    }

    /** The two locked checks, with the check of the code's form between them. */
    method EnterMfa(sid: nat, session: SignInSession, wellFormed: bool, c: Choice) returns (reply: Reply)
      requires Laid() && sid in all && all[sid] == session
      modifies this`sessions, this`sourceSessions, this`open, session
      ensures Laid() && (Abs(), reply) == Finish(old(Abs()), MfaCheck(sid, wellFormed), c)
    {
      hide SignInSession.Value, SignInTables.Abs, SignInTables.Laid, Finish, Write, Drop;
      StillThere(sid);
      StateOf(session);
      CodeChecks(Abs(), sid, wellFormed, c);
      if session.state != MfaRequired || session.provider.None? { return Refused("invalid_state"); }
      if !wellFormed { return Snapshot(sid, session.state); }
      SetState(sid, session, Authenticating);
      reply := CheckCode(sid, session, c);
    }

    method CheckCode(sid: nat, session: SignInSession, c: Choice) returns (reply: Reply)
      requires Laid() && sid in all && all[sid] == session
      modifies this`sessions, this`sourceSessions, this`open, session
      ensures Laid() && (Abs(), reply) == Finish(old(Abs()), MfaRead(sid), c)
    {
      hide SignInSession.Value, SignInTables.Abs, SignInTables.Laid, Finish, Write, Drop, Close;
      StillThere(sid);
      StateOf(session);
      Resume(Abs(), MfaRead(sid), c);
      var process := session.provider;
      Resume(Abs(), MfaSend(sid, process), c);
      if process.None? {
        Ends(Abs(), Crashed, c);
        return Crashed;
      }
      if c.answer == Response(SaysMfa) {
        reply := ReleaseSession(sid, session, MfaRequired, c);
        return;
      }
      CloseProcess(process);
      var next := if c.answer == Response(SaysAuthenticated) then Authenticated else AuthenticationFailed;
      StillThere(sid);
      Resume(Abs(), MfaClear(sid, next), c);
      SetProvider(sid, session, None);
      reply := ReleaseSession(sid, session, next, c);
    }

    method Cancel(sid: nat, source: int, ghost c: Choice, now: Time) returns (reply: Reply)
      requires Valid() && now == c.now
      modifies this, all.Values
      ensures Valid() && (Abs(), reply) == Finish(old(Abs()), CancelRequire(sid, source), c)
      ensures all == old(all)
    {
      hide SignInSession.Value, SignInTables.Abs, SignInTables.Laid, Settled, Finish, Expire, Write, OnSession, StartStep;
      ghost var pc := CancelRequire(sid, source);
      CallSettles(Abs(), pc, c);
      var refusal, session := RequireSession(sid, source, now);
      Resume(old(Abs()), pc, c);
      ExpiryFinishes(old(Abs()), c.now, CancelLookup(sid, source), c);
      Resume(Abs(), CancelLookup(sid, source), c);
      if refusal.Some? {
        Ends(Abs(), refusal.value, c);
        return refusal.value;
      }
      reply := MarkAndRemove(sid, session, c);
    }

    method MarkAndRemove(sid: nat, session: SignInSession, ghost c: Choice) returns (reply: Reply)
      requires Laid() && sid in all && all[sid] == session
      modifies this`sessions, this`sourceSessions, this`open, session
      ensures Laid() && (Abs(), reply) == Finish(old(Abs()), CancelMark(sid), c)
    {
      hide SignInSession.Value, SignInTables.Abs, SignInTables.Laid, Finish, Write, Drop;
      StillThere(sid);
      Resume(Abs(), CancelMark(sid), c);
      SetState(sid, session, Cancelled);
      StillThere(sid);
      RemoveFinishes(Abs(), sid, Cancelled, c);
      Pop(sid, session);
      reply := Snapshot(sid, Cancelled);
    }

    /** A probe starts a process of its own and closes it whatever it answers. */
    method Probe(c: Choice) returns (answer: Answer)
      requires Valid()
      modifies this`open, this`started
      ensures Valid() && (Abs(), ProbeResult(answer)) == Finish(old(Abs()), ProbeLaunch, c)
      ensures open == old(open)
    {
      hide SignInSession.Value, Settled, Finish;
      CallSettles(Abs(), ProbeLaunch, c);
      BeforeProbe();
      Resume(Abs(), ProbeLaunch, c);
      if !c.starts {
        Ends(Abs(), ProbeResult(Failure), c);
        return Failure;
      }
      var process := StartProcess();
      Resume(Abs(), ProbeSend(process), c);
      CloseProcess(Some(process));
      answer := c.answer;
      Ends(Abs(), ProbeResult(answer), c);
    }

    lemma BeforeProbe()
      requires Valid()
      ensures started !in open
    {
    }

    lemma AccountTaken(account: string, taken: bool)
      requires Laid() && taken == exists sid :: sid in sessions && sessions[sid].account == account
      ensures taken == exists sid :: sid in Abs().live && sid in Abs().objects && Abs().objects[sid].account == account
    {
      if taken {
        var sid :| sid in sessions && sessions[sid].account == account;
        assert sid in Abs().live && sid in Abs().objects && Abs().objects[sid].account == account;
      }
    }

    method EnrolSession(source: int, account: string, expires: Time)
      requires Laid() && created !in all
      modifies this
      ensures Laid() && Abs() == Enrol(old(Abs()), source, account, expires)
      ensures fresh(all.Values - old(all.Values))
    {
      hide SignInSession.Value;
      ghost var sh := Abs();
      var session := new SignInSession(source, account, expires);
      all := all[created := session];
      assert Abs().objects == sh.objects[sh.created := session.Value()];
      List(source, session);
    }

    method List(source: int, session: SignInSession)
      requires Laid() && created in all && all[created] == session
      modifies this`sessions, this`sourceSessions, this`created
      ensures Laid()
      ensures Abs() == old(Abs()).(live := old(Abs()).live + {old(created)},
        bySource := old(Abs()).bySource[source := old(created)], created := old(created) + 1)
    {
      sessions := sessions[created := session];
      sourceSessions := sourceSessions[source := created];
      created := created + 1;
    }
  }

  lemma SourceOf(o: SignInSession)
    ensures o.Value().source == o.source && o.Value().provider == o.provider
  {
  }

  // ---- what a call starts from ----

  lemma CallSettles(sh: Shared, pc: Pc, c: Choice)
    requires Settled(sh) && Initial(pc)
    ensures Settled(Finish(sh, pc, c).0)
  {
    hide Settled, Finish, AloneAt;
    AloneIsSettled(sh, pc);
    FinishSettles(sh, pc, c);
  }

  /** The entry that start finds for its source is in the session table, and a new identifier is free. */
  lemma StartFinds(sh: Shared, now: Time, source: int)
    requires Settled(sh)
    ensures var e := Expire(sh, now); e.created !in e.objects && (source in e.bySource ==> e.bySource[source] in e.live)
  {
    hide Balanced, Expire;
    ExpiredIsSettled(sh, now);
  }

  lemma StateOf(o: SignInSession)
    ensures o.Value().state == o.state && o.Value().provider == o.provider && o.Value().account == o.account
  {
  }
}
