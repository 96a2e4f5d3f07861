/** Every sign-in call on its own: what it replies and what it leaves, from the tables before it and the answers it gets. */
module SignInCalls {
  import opened Text
  import opened SignIn
  import opened SignInSafety
  import opened SignInSerial

  /** The session is in the table and has not expired. */
  predicate Usable(sh: Shared, sid: nat, now: Time) {
    sid in sh.live && sid in sh.objects && sh.objects[sid].expires > now
  }

  /** A call first drops what has expired, and leaves usable sessions alone. */
  lemma ExpireDrops(sh: Shared, now: Time)
    requires TablesSound(sh)
    ensures var e := Expire(sh, now);
      && e.created == sh.created && e.objects.Keys == sh.objects.Keys
      && (forall sid :: sid in e.live <==> Usable(sh, sid, now))
      && (forall sid :: Usable(sh, sid, now) ==> e.objects[sid] == sh.objects[sid])
  {
  }

  // ---- the end of a call ----

  /**
   * What a call that replies with this state has made of its session, starting from `e`: a session that was signed in or
   * cancelled has left both tables, one that waits for a code has a provider, and nothing else has changed but processes.
   */
  ghost predicate Leaves(e: Shared, u: Shared, sid: nat, state: State)
    requires sid in e.objects
  {
    && u.objects.Keys == e.objects.Keys && u.created == e.created
    && SameOwner(u.objects[sid], e.objects[sid]) && u.objects[sid].state == state
    && (u.objects[sid].provider.Some? <==> state == MfaRequired)
    && (forall x :: x in e.objects && x != sid ==> u.objects[x] == e.objects[x])
    && if state == Authenticated || state == Cancelled
       then u.live == e.live - {sid} && u.bySource == e.bySource - {e.objects[sid].source}
       else u.live == e.live && u.bySource == e.bySource
  }

  /** The session has been written on the way, and the tables are as they were. */
  ghost predicate Underway(e: Shared, u: Shared, sid: nat)
    requires sid in e.objects
  {
    && u.objects.Keys == e.objects.Keys && u.created == e.created && u.live == e.live && u.bySource == e.bySource
    && SameOwner(u.objects[sid], e.objects[sid])
    && (forall x :: x in e.objects && x != sid ==> u.objects[x] == e.objects[x])
  }

  lemma RemovalLeaves(e: Shared, u: Shared, sid: nat, state: State)
    requires sid in e.objects && Underway(e, u, sid) && u.objects[sid].state == state
    requires state == Authenticated || state == Cancelled
    ensures Leaves(e, Drop(u, {sid}), sid, state)
  {
    assert Sources(u, {sid}) == {u.objects[sid].source} by {
      assert sid in {sid} && u.objects[sid].source in Sources(u, {sid});
    }
  }

  lemma ReleaseFinishes(e: Shared, sh: Shared, sid: nat, next: State, c: Choice)
    requires sid in e.objects && Underway(e, sh, sid) && next != Cancelled
    requires sh.objects[sid].provider.Some? <==> next == MfaRequired
    ensures var (u, reply) := Finish(sh, Release(sid, next), c); reply == Snapshot(sid, next) && Leaves(e, u, sid, next)
  {
    hide Finish, Drop;
    var u := Write(sh, sid, sh.objects[sid].(state := next));
    Resume(sh, Release(sid, next), c);
    if next == Authenticated {
      RemoveFinishes(u, sid, next, c);
      RemovalLeaves(e, u, sid, next);
    } else {
      Ends(u, Snapshot(sid, next), c);
    }
  }

  // ---- passwords ----

  lemma AnsweredPassword(e: Shared, sh: Shared, sid: nat, process: nat, c: Choice)
    requires sid in e.objects && Underway(e, sh, sid) && sh.objects[sid].provider.None?
    ensures var (u, reply) := Finish(sh, PasswordSend(sid, process), c);
      var state := if c.answer == Response(SaysAuthenticated) then Authenticated
                   else if c.answer == Response(SaysMfa) then MfaRequired
                   else AuthenticationFailed;
      reply == Snapshot(sid, state) && Leaves(e, u, sid, state)
  {
    hide Finish, Leaves;
    Resume(sh, PasswordSend(sid, process), c);
    if c.answer == Response(SaysMfa) {
      var stored := Write(sh, sid, sh.objects[sid].(provider := Some(process)));
      Resume(sh, PasswordStore(sid, process), c);
      ReleaseFinishes(e, stored, sid, MfaRequired, c);
    } else {
      ReleaseFinishes(e, Close(sh, Some(process)), sid,
        if c.answer == Response(SaysAuthenticated) then Authenticated else AuthenticationFailed, c);
    }
  }

  lemma PasswordFinishes(e: Shared, sid: nat, c: Choice)
    requires sid in e.objects && e.objects[sid].provider.None?
    requires e.objects[sid].state == PasswordRequired || e.objects[sid].state == AuthenticationFailed
    ensures var (u, reply) := Finish(e, PasswordEnter(sid), c);
      var state := if c.starts && c.answer == Response(SaysAuthenticated) then Authenticated
                   else if c.starts && c.answer == Response(SaysMfa) then MfaRequired
                   else AuthenticationFailed;
      reply == Snapshot(sid, state) && Leaves(e, u, sid, state)
  {
    hide Finish, Leaves;
    var marked := Write(e, sid, e.objects[sid].(state := Authenticating));
    Resume(e, PasswordEnter(sid), c);
    Resume(e, PasswordMark(sid), c);
    Resume(marked, PasswordLaunch(sid), c);
    if c.starts {
      AnsweredPassword(e, marked.(open := marked.open + {marked.started}, started := marked.started + 1), sid, marked.started, c);
    } else {
      ReleaseFinishes(e, marked, sid, AuthenticationFailed, c);
    }
  }

  lemma PasswordLooksUp(sh: Shared, sid: nat, source: int, account: string, empty: bool, c: Choice)
    requires Settled(sh)
    ensures var pc := PasswordRequire(sid, source, account, empty);
      Finish(sh, pc, c) == Finish(Expire(sh, c.now), PasswordLookup(sid, source, account, empty), c)
  {
    hide Finish, Expire, Settled;
    Resume(sh, PasswordRequire(sid, source, account, empty), c);
    ExpiryFinishes(sh, c.now, PasswordLookup(sid, source, account, empty), c);
  }

  /**
   * A password alone: it is refused for an expired or foreign session, for another account, when empty and in a state
   * that does not expect one. Otherwise it reaches the provider, and the reply is `authenticated` exactly when the answer
   * is, `mfa_required` exactly when the answer asks for a code, and `authentication_failed` in every other case; a session
   * signed in leaves the tables.
   */
  lemma PasswordOutcome(sh: Shared, sid: nat, source: int, account: string, empty: bool, c: Choice)
    requires Settled(sh)
    ensures var (u, reply) := Finish(sh, PasswordRequire(sid, source, account, empty), c);
      var e := Expire(sh, c.now);
      if !Usable(sh, sid, c.now) then u == e && reply == Refused("expired")
      else
        var s := sh.objects[sid];
        if s.source != source then u == e && reply == Refused("session_mismatch")
        else if s.account != account then u == e && reply == Refused("account_mismatch")
        else if empty then u == e && reply == Refused("password_required")
        else if s.state == MfaRequired then u == e && reply == Refused("invalid_state")
        else
          var state := if c.starts && c.answer == Response(SaysAuthenticated) then Authenticated
                       else if c.starts && c.answer == Response(SaysMfa) then MfaRequired
                       else AuthenticationFailed;
          sid in e.objects && reply == Snapshot(sid, state) && Leaves(e, u, sid, state)
  {
    hide Finish, Expire, Leaves, Balanced, ProvidersFit;
    var e := Expire(sh, c.now);
    var lookup := PasswordLookup(sid, source, account, empty);
    ExpireDrops(sh, c.now);
    PasswordLooksUp(sh, sid, source, account, empty, c);
    Resume(e, lookup, c);
    if Next(e, lookup, c).1.Done? {
      Ends(e, Next(e, lookup, c).1.reply, c);
    } else {
      FitsNow(sh, sid);
      if e.objects[sid].state == MfaRequired {
        Resume(e, PasswordEnter(sid), c);
        Ends(e, Refused("invalid_state"), c);
      } else {
        PasswordFinishes(e, sid, c);
      }
    }
  }

  // ---- codes ----

  lemma AnsweredCode(e: Shared, sh: Shared, sid: nat, provider: nat, c: Choice)
    requires sid in e.objects && Underway(e, sh, sid) && sh.objects[sid].provider == Some(provider)
    ensures var (u, reply) := Finish(sh, MfaSend(sid, Some(provider)), c);
      var state := if c.answer == Response(SaysAuthenticated) then Authenticated
                   else if c.answer == Response(SaysMfa) then MfaRequired
                   else AuthenticationFailed;
      reply == Snapshot(sid, state) && Leaves(e, u, sid, state)
  {
    hide Finish, Leaves;
    Resume(sh, MfaSend(sid, Some(provider)), c);
    if c.answer == Response(SaysMfa) {
      ReleaseFinishes(e, sh, sid, MfaRequired, c);
    } else {
      var state := if c.answer == Response(SaysAuthenticated) then Authenticated else AuthenticationFailed;
      var closed := Close(sh, Some(provider));
      Resume(closed, MfaClear(sid, state), c);
      ReleaseFinishes(e, Write(closed, sid, closed.objects[sid].(provider := None)), sid, state, c);
    }
  }

  lemma CodeFinishes(e: Shared, sid: nat, c: Choice)
    requires sid in e.objects && e.objects[sid].provider.Some?
    ensures var (u, reply) := Finish(Write(e, sid, e.objects[sid].(state := Authenticating)), MfaRead(sid), c);
      var state := if c.answer == Response(SaysAuthenticated) then Authenticated
                   else if c.answer == Response(SaysMfa) then MfaRequired
                   else AuthenticationFailed;
      reply == Snapshot(sid, state) && Leaves(e, u, sid, state)
  {
    hide Finish, Leaves;
    var marked := Write(e, sid, e.objects[sid].(state := Authenticating));
    Resume(marked, MfaRead(sid), c);
    AnsweredCode(e, marked, sid, e.objects[sid].provider.value, c);
  }

  lemma CodeLooksUp(sh: Shared, sid: nat, source: int, wellFormed: bool, c: Choice)
    requires Settled(sh)
    ensures Finish(sh, MfaRequire(sid, source, wellFormed), c) == Finish(Expire(sh, c.now), MfaLookup(sid, source, wellFormed), c)
  {
    hide Finish, Expire, Settled;
    Resume(sh, MfaRequire(sid, source, wellFormed), c);
    ExpiryFinishes(sh, c.now, MfaLookup(sid, source, wellFormed), c);
  }

  /**
   * A code alone: it is refused for an expired or foreign session and where no code is expected, and an ill-formed one is
   * answered with the state as it is. Otherwise it reaches the provider, whose answer decides as for a password; only a
   * request for another code keeps the provider.
   */
  lemma CodeOutcome(sh: Shared, sid: nat, source: int, wellFormed: bool, c: Choice)
    requires Settled(sh)
    ensures var (u, reply) := Finish(sh, MfaRequire(sid, source, wellFormed), c);
      var e := Expire(sh, c.now);
      if !Usable(sh, sid, c.now) then u == e && reply == Refused("expired")
      else
        var s := sh.objects[sid];
        if s.source != source then u == e && reply == Refused("session_mismatch")
        else if s.state != MfaRequired then u == e && reply == Refused("invalid_state")
        else if !wellFormed then u == e && reply == Snapshot(sid, MfaRequired)
        else
          var state := if c.answer == Response(SaysAuthenticated) then Authenticated
                       else if c.answer == Response(SaysMfa) then MfaRequired
                       else AuthenticationFailed;
          sid in e.objects && reply == Snapshot(sid, state) && Leaves(e, u, sid, state)
  {
    hide Finish, Expire, Leaves, Balanced, ProvidersFit;
    var e := Expire(sh, c.now);
    var lookup := MfaLookup(sid, source, wellFormed);
    ExpireDrops(sh, c.now);
    CodeLooksUp(sh, sid, source, wellFormed, c);
    Resume(e, lookup, c);
    if Next(e, lookup, c).1.Done? {
      Ends(e, Next(e, lookup, c).1.reply, c);
    } else {
      FitsNow(sh, sid);
      CodeChecks(e, sid, wellFormed, c);
      if e.objects[sid].state == MfaRequired && wellFormed { CodeFinishes(e, sid, c); }
    }
  }

  // ---- cancellations ----

  /** A cancellation alone takes the session out of both tables, in whatever state, and closes its provider. */
  lemma CancelOutcome(sh: Shared, sid: nat, source: int, c: Choice)
    requires Settled(sh)
    ensures var (u, reply) := Finish(sh, CancelRequire(sid, source), c);
      var e := Expire(sh, c.now);
      if !Usable(sh, sid, c.now) then u == e && reply == Refused("expired")
      else if sh.objects[sid].source != source then u == e && reply == Refused("session_mismatch")
      else
        && sid in e.objects && reply == Snapshot(sid, Cancelled) && Leaves(e, u, sid, Cancelled)
        && u.open == if sh.objects[sid].provider.Some? then e.open - {sh.objects[sid].provider.value} else e.open
  {
    hide Finish, Expire, Leaves, Balanced, ProvidersFit;
    var e := Expire(sh, c.now);
    var lookup := CancelLookup(sid, source);
    ExpireDrops(sh, c.now);
    CancelLooksUp(sh, sid, source, c);
    Resume(e, lookup, c);
    if Next(e, lookup, c).1.Done? {
      Ends(e, Next(e, lookup, c).1.reply, c);
    } else {
      CancelFinishes(e, sid, c);
    }
  }

  lemma CancelLooksUp(sh: Shared, sid: nat, source: int, c: Choice)
    requires Settled(sh)
    ensures Finish(sh, CancelRequire(sid, source), c) == Finish(Expire(sh, c.now), CancelLookup(sid, source), c)
  {
    hide Finish, Expire, Settled;
    Resume(sh, CancelRequire(sid, source), c);
    ExpiryFinishes(sh, c.now, CancelLookup(sid, source), c);
  }

  lemma CancelFinishes(e: Shared, sid: nat, c: Choice)
    requires sid in e.objects
    ensures var (u, reply) := Finish(e, CancelMark(sid), c);
      && reply == Snapshot(sid, Cancelled) && Leaves(e, u, sid, Cancelled)
      && u.open == if e.objects[sid].provider.Some? then e.open - {e.objects[sid].provider.value} else e.open
  {
    hide Finish, Drop, Leaves;
    var marked := Write(e, sid, e.objects[sid].(state := Cancelled));
    Resume(e, CancelMark(sid), c);
    RemoveFinishes(marked, sid, Cancelled, c);
    RemovalLeaves(e, marked, sid, Cancelled);
    DropOne(marked, sid);
  }

  // ---- starts ----

  /** A usable session of this source. */
  predicate Continues(sh: Shared, sid: nat, source: int, now: Time) {
    Usable(sh, sid, now) && sh.objects[sid].source == source
  }

  lemma StartFinishes(sh: Shared, source: int, account: string, now: Time, expires: Time, c: Choice)
    ensures var (u, pc) := StartStep(Expire(sh, now), source, account, expires);
      pc.Done? && Finish(sh, StartLock(source, account, now, expires), c) == (u, pc.reply)
  {
    hide Finish, Expire, StartStep;
    var e := Expire(sh, now);
    var tables := StartTables(source, account, expires);
    Resume(sh, StartLock(source, account, now, expires), c);
    ExpiryFinishes(sh, now, tables, c);
    Resume(e, tables, c);
    StartEnds(e, source, account, expires);
    Ends(StartStep(e, source, account, expires).0, StartStep(e, source, account, expires).1.reply, c);
  }

  lemma ExpiredIsSettled(sh: Shared, now: Time)
    requires Settled(sh)
    ensures Settled(Expire(sh, now))
  {
    hide Settled, Drop;
    ExpiredAreListed(sh, now);
    DropAlone(sh, Expired(sh, now));
  }

  /**
   * A start alone: a source that has a usable session continues it; otherwise an account that has one is refused, and an
   * account that has none gets a new session for exactly this source, account and time, found through its source.
   */
  lemma StartOutcome(sh: Shared, source: int, account: string, now: Time, expires: Time, c: Choice)
    requires Settled(sh)
    ensures var (u, reply) := Finish(sh, StartLock(source, account, now, expires), c);
      var e := Expire(sh, now);
      && (forall sid :: Continues(sh, sid, source, now) ==> u == e && reply == Snapshot(sid, sh.objects[sid].state))
      && ((forall sid :: !Continues(sh, sid, source, now)) ==>
            if exists sid :: Usable(sh, sid, now) && sh.objects[sid].account == account
            then u == e && reply == Refused("account_authentication_active")
            else
              && reply == Snapshot(sh.created, PasswordRequired)
              && u == e.(objects := e.objects[sh.created := Session(source, account, expires, PasswordRequired, None)],
                         live := e.live + {sh.created}, bySource := e.bySource[source := sh.created],
                         created := sh.created + 1))
  {
    hide Finish, Expire, Balanced, ProvidersFit;
    var e := Expire(sh, now);
    ExpireDrops(sh, now);
    ExpiredIsSettled(sh, now);
    StartFinishes(sh, source, account, now, expires, c);
    assert forall sid :: Continues(sh, sid, source, now) ==> source in e.bySource && e.bySource[source] == sid;
    if source in e.bySource { assert Continues(sh, e.bySource[source], source, now); }
  }

  // ---- probes ----

  /** A probe alone replies with the answer of its own process, which it closes, or with a failure when none starts. */
  lemma ProbeOutcome(sh: Shared, c: Choice)
    requires Settled(sh)
    ensures var (u, reply) := Finish(sh, ProbeLaunch, c);
      && reply == ProbeResult(if c.starts then c.answer else Failure)
      && u == sh.(started := sh.started + if c.starts then 1 else 0)
  {
    hide Finish;
    var launched := sh.(open := sh.open + {sh.started}, started := sh.started + 1);
    Resume(sh, ProbeLaunch, c);
    if c.starts {
      Resume(launched, ProbeSend(sh.started), c);
      Ends(Close(launched, Some(sh.started)), ProbeResult(c.answer), c);
      assert launched.open - {sh.started} == sh.open;
    } else {
      Ends(sh, ProbeResult(Failure), c);
    }
  }
}
