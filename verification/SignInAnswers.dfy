/** What the provider's answers make of a sign-in: the outcome of every call, alone and under every interleaving. */
module SignInAnswers {
  import opened SignIn
  import opened SignInSafety
  import opened SignInRuns
  import opened SignInLimits
  import opened SignInLosses

  // ---- from the answer to the reply, under every interleaving ----

  /** The thread waits for an answer of the session's provider. */
  predicate Asking(pc: Pc, sid: nat) {
    (pc.PasswordSend? && pc.sid == sid) || (pc.MfaSend? && pc.provider.Some? && pc.sid == sid)
  }

  /** The thread has its answer, and is about to reply with this state. */
  predicate Ending(pc: Pc, sid: nat, state: State) {
    || (pc.PasswordStore? && pc.sid == sid && state == MfaRequired)
    || pc == MfaClear(sid, state) || pc == Release(sid, state) || pc == Remove(sid, state)
    || pc == Closing(sid, Done(Snapshot(sid, state))) || pc == Clearing(sid, Done(Snapshot(sid, state)))
    || pc == Done(Snapshot(sid, state))
  }

  lemma AnswerEnds(sh: Shared, pc: Pc, c: Choice, sid: nat)
    requires Asking(pc, sid) && sid in sh.objects
    ensures Ending(Next(sh, pc, c).1, sid,
      if c.answer == Response(SaysAuthenticated) then Authenticated
      else if c.answer == Response(SaysMfa) then MfaRequired
      else AuthenticationFailed)
  {
    StepsOnSession(sh, pc, c);
    hide Next;
  }

  lemma EndingNext(sh: Shared, pc: Pc, c: Choice, sid: nat, state: State)
    requires Ending(pc, sid, state) && sid in sh.objects
    ensures Ending(Next(sh, pc, c).1, sid, state)
  {
    if pc.Done? {
      DoneStays(sh, pc, c);
    } else {
      StepsOnSession(sh, pc, c);
    }
    hide Next;
  }

  lemma DoneStays(sh: Shared, pc: Pc, c: Choice)
    requires pc.Done?
    ensures Next(sh, pc, c) == (sh, pc)
  {
  }

  lemma {:induction false} EndingStays(labels: seq<Label>, more: seq<Label>, tid: nat, sid: nat, state: State)
    requires tid in Run(labels).threads && Ending(Run(labels).threads[tid], sid, state) && sid in Run(labels).shared.objects
    ensures tid in Run(labels + more).threads && Ending(Run(labels + more).threads[tid], sid, state)
    decreases |more|
  {
    hide Run, Next, Ending, Enabled;
    if more == [] {
      assert labels + more == labels;
    } else {
      var n := |more| - 1;
      var s := Run(labels + more[..n]);
      EndingStays(labels, more[..n], tid, sid, state);
      SessionStays(labels, more[..n], sid);
      SplitRun(labels, more);
      if more[n].Go? { EndingNext(s.shared, s.threads[tid], more[n].choice, sid, state); }
    }
  }

  /**
   * Whatever other threads do, the provider's answer to a password or a code decides the reply: the call that has received
   * it replies, if it has replied, with `authenticated` when the answer is that, with `mfa_required` when the answer asks
   * for a code, and with `authentication_failed` otherwise, an answer that never came included.
   */
  lemma AnswerDecidesReply(labels: seq<Label>, tid: nat, sid: nat, c: Choice, more: seq<Label>)
    requires tid in Run(labels).threads && Asking(Run(labels).threads[tid], sid)
    ensures var s := Run(labels + [Go(tid, c)] + more);
      && tid in s.threads
      && (s.threads[tid].Done? ==>
            s.threads[tid].reply == Snapshot(sid,
              if c.answer == Response(SaysAuthenticated) then Authenticated
              else if c.answer == Response(SaysMfa) then MfaRequired
              else AuthenticationFailed))
  {
    hide Run, Next, Asking;
    var state := if c.answer == Response(SaysAuthenticated) then Authenticated
                 else if c.answer == Response(SaysMfa) then MfaRequired
                 else AuthenticationFailed;
    AskingSteps(labels, tid, sid, c);
    EndingStays(labels + [Go(tid, c)], more, tid, sid, state);
  }

  lemma AskingSteps(labels: seq<Label>, tid: nat, sid: nat, c: Choice)
    requires tid in Run(labels).threads && Asking(Run(labels).threads[tid], sid)
    ensures var s := Run(labels + [Go(tid, c)]);
      tid in s.threads && sid in s.shared.objects && Ending(s.threads[tid], sid,
        if c.answer == Response(SaysAuthenticated) then Authenticated
        else if c.answer == Response(SaysMfa) then MfaRequired
        else AuthenticationFailed)
  {
    hide Run, Next, Ending;
    var s := Run(labels);
    EveryRunIsSound(labels);
    assert ThreadSound(s.shared, s.threads[tid]);
    hide Invariant;
    SessionExists(s.shared, s.threads[tid]);
    AnswerEnds(s.shared, s.threads[tid], c, sid);
    ObjectsStay(s.shared, s.threads[tid], c);
    AskingIsEnabled(s, tid, sid);
    RunNext(labels, Go(tid, c));
  }

  lemma AskingIsEnabled(s: System, tid: nat, sid: nat)
    requires tid in s.threads && Asking(s.threads[tid], sid)
    ensures Enabled(s, tid)
  {
  }

  // ---- from the state back to the answer ----

  /** The k-th step is the answer `authenticated` to a password or a code of the session. */
  predicate SaysYes(labels: seq<Label>, k: nat, tid: nat, sid: nat) {
    && k < |labels| && labels[k].Go? && labels[k].tid == tid && labels[k].choice.answer == Response(SaysAuthenticated)
    && tid in At(labels, k).threads && Asking(At(labels, k).threads[tid], sid)
  }

  /** The thread asks nothing between the two steps, so the answer at `k` is its last one at `n`. */
  predicate AsksNothing(labels: seq<Label>, k: nat, n: nat, tid: nat) {
    forall j: nat :: k < j < n && j < |labels| && labels[j].Go? && labels[j].tid == tid ==>
      tid in At(labels, j).threads && !At(labels, j).threads[tid].PasswordSend? && !At(labels, j).threads[tid].MfaSend?
  }

  /** Right after a yes the thread is on its way to sign the session in. */
  predicate SigningIn(pc: Pc, sid: nat) {
    pc == MfaClear(sid, Authenticated) || pc == Release(sid, Authenticated)
  }

  lemma SigningInBegins(sh: Shared, pc: Pc, c: Choice, sid: nat)
    requires ThreadSound(sh, pc) && SigningIn(Next(sh, pc, c).1, sid)
    ensures SigningIn(pc, sid) || (Asking(pc, sid) && c.answer == Response(SaysAuthenticated))
  {
    hide Next, OnSession, ThreadSound;
    if HasSession(pc) {
      SessionExists(sh, pc);
      StepsOnSession(sh, pc, c);
      SessionSignsIn(sh, pc, c, sid);
    } else {
      LookupSignsNobodyIn(sh, pc, c, sid);
    }
  }

  lemma SessionSignsIn(sh: Shared, pc: Pc, c: Choice, sid: nat)
    requires ThreadSound(sh, pc) && HasSession(pc) && pc.sid in sh.objects
    requires SigningIn(OnSession(sh, pc, c, sh.objects[pc.sid]).1, sid)
    ensures SigningIn(pc, sid) || (Asking(pc, sid) && c.answer == Response(SaysAuthenticated))
  {
    hide Write, Close, Detach, SessionSound;
  }

  lemma LookupSignsNobodyIn(sh: Shared, pc: Pc, c: Choice, sid: nat)
    requires ThreadSound(sh, pc) && !HasSession(pc)
    ensures !SigningIn(Next(sh, pc, c).1, sid)
  {
    hide StartStep, OnSession, Expired, Detach, Inside, SessionSound;
    if pc.StartTables? { StartEnds(sh, pc.source, pc.account, pc.expires); }
  }

  lemma {:induction false} SigningInWasAnswered(labels: seq<Label>, n: nat, tid: nat, sid: nat)
    requires n <= |labels| && tid in At(labels, n).threads && SigningIn(At(labels, n).threads[tid], sid)
    ensures exists k: nat :: k < n && SaysYes(labels, k, tid, sid) && AsksNothing(labels, k, n, tid)
    decreases n
  {
    hide Run, Next, SigningIn, Asking, Invariant, Enabled;
    if n == 0 {
      NothingMoves();
    } else {
      var m := n - 1;
      var s := At(labels, m);
      AtNext(labels, m);
      EveryRunIsSound(labels[..m]);
      SigningInBefore(s, labels[m], tid, sid);
      if tid in s.threads && SigningIn(s.threads[tid], sid) {
        SigningInWasAnswered(labels, m, tid, sid);
        var k: nat :| k < m && SaysYes(labels, k, tid, sid) && AsksNothing(labels, k, m, tid);
        NotAsking(s.threads[tid], sid);
        assert AsksNothing(labels, k, n, tid);
      } else {
        assert SaysYes(labels, m, tid, sid) && AsksNothing(labels, m, n, tid);
      }
    }
  }

  lemma NotAsking(pc: Pc, sid: nat)
    requires SigningIn(pc, sid)
    ensures !pc.PasswordSend? && !pc.MfaSend?
  {
  }

  lemma NothingMoves()
    ensures Run([]).threads == map[] && Run([]).shared == NOTHING
  {
  }

  lemma SigningInBefore(s: System, l: Label, tid: nat, sid: nat)
    requires Invariant(s) && tid in Step(s, l).threads && SigningIn(Step(s, l).threads[tid], sid)
    ensures tid in s.threads
    ensures SigningIn(s.threads[tid], sid) ||
      (l.Go? && l.tid == tid && l.choice.answer == Response(SaysAuthenticated) && Asking(s.threads[tid], sid))
  {
    hide Next, TablesSound, ProvidersFit, ThreadSound, Exclusive, NeedsLock, HoldsLock;
    if l.Go? && l.tid == tid && Enabled(s, tid) { SigningInBegins(s.shared, s.threads[tid], l.choice, sid); }
  }

  /** Only the write that ends a successful call marks a session as authenticated. */
  lemma MarkedAuthenticated(sh: Shared, pc: Pc, c: Choice, sid: nat)
    requires TablesSound(sh) && ThreadSound(sh, pc)
    requires var u := Next(sh, pc, c).0; sid in u.objects && u.objects[sid].state == Authenticated
    ensures (sid in sh.objects && sh.objects[sid].state == Authenticated) || pc == Release(sid, Authenticated)
  {
    hide Next, OnSession, ThreadSound, TablesSound;
    if HasSession(pc) {
      SessionExists(sh, pc);
      StepsOnSession(sh, pc, c);
      SessionMarks(sh, pc, c, sid);
    } else {
      LookupMarks(sh, pc, c, sid);
    }
  }

  lemma SessionMarks(sh: Shared, pc: Pc, c: Choice, sid: nat)
    requires HasSession(pc) && pc.sid in sh.objects
    requires var u := OnSession(sh, pc, c, sh.objects[pc.sid]).0; sid in u.objects && u.objects[sid].state == Authenticated
    ensures (sid in sh.objects && sh.objects[sid].state == Authenticated) || pc == Release(sid, Authenticated)
  {
  }

  lemma LookupMarks(sh: Shared, pc: Pc, c: Choice, sid: nat)
    requires TablesSound(sh) && !HasSession(pc)
    requires var u := Next(sh, pc, c).0; sid in u.objects && u.objects[sid].state == Authenticated
    ensures sid in sh.objects && sh.objects[sid].state == Authenticated
  {
    hide OnSession, Expired, Require, Oldest, TablesSound;
  }

  /** The session was marked as authenticated at `n` by a thread whose last answer, at `k`, was yes. */
  predicate SignedInBy(labels: seq<Label>, k: nat, n: nat, tid: nat, sid: nat) {
    && k < n < |labels| && SaysYes(labels, k, tid, sid) && AsksNothing(labels, k, n, tid)
    && labels[n].Go? && labels[n].tid == tid && tid in At(labels, n).threads
    && At(labels, n).threads[tid] == Release(sid, Authenticated)
  }

  lemma PrefixSignsIn(labels: seq<Label>, m: nat, k: nat, n: nat, tid: nat, sid: nat)
    requires m <= |labels| && SignedInBy(labels[..m], k, n, tid, sid)
    ensures SignedInBy(labels, k, n, tid, sid)
  {
    hide Run, Asking;
    AtPrefix(labels, k, m);
    AtPrefix(labels, n, m);
    forall j: nat | k < j < n && labels[j].Go? && labels[j].tid == tid
      ensures tid in At(labels, j).threads && !At(labels, j).threads[tid].PasswordSend? && !At(labels, j).threads[tid].MfaSend?
    {
      AtPrefix(labels, j, m);
      assert labels[..m][j] == labels[j];
    }
  }

  /**
   * Under every interleaving a session is signed in only by an answer: its state is `authenticated` only when some thread
   * wrote that whose last answer, for this session, was `authenticated`.
   */
  lemma {:induction false} AuthenticatedWasAnswered(labels: seq<Label>, sid: nat)
    requires sid in Run(labels).shared.objects && Run(labels).shared.objects[sid].state == Authenticated
    ensures exists k: nat, n: nat, tid: nat :: SignedInBy(labels, k, n, tid, sid)
    decreases |labels|
  {
    hide Run, Next, Asking, SigningIn, Invariant, Enabled, SignedInBy;
    if labels == [] {
      NothingMoves();
    } else {
      var m := |labels| - 1;
      var s := At(labels, m);
      AtNext(labels, m);
      assert labels[..|labels|] == labels;
      EveryRunIsSound(labels[..m]);
      if sid in s.shared.objects && s.shared.objects[sid].state == Authenticated {
        AuthenticatedWasAnswered(labels[..m], sid);
        var k: nat, n: nat, tid: nat :| SignedInBy(labels[..m], k, n, tid, sid);
        PrefixSignsIn(labels, m, k, n, tid, sid);
      } else {
        MarkingStep(s, labels[m], sid);
        SigningWriter(labels, m, sid);
      }
    }
  }

  lemma MarkingStep(s: System, l: Label, sid: nat)
    requires Invariant(s)
    requires var u := Step(s, l).shared; sid in u.objects && u.objects[sid].state == Authenticated
    requires !(sid in s.shared.objects && s.shared.objects[sid].state == Authenticated)
    ensures l.Go? && l.tid in s.threads && s.threads[l.tid] == Release(sid, Authenticated)
  {
    hide Next, TablesSound, ProvidersFit, ThreadSound, Exclusive, NeedsLock, HoldsLock;
    if l.Go? && Enabled(s, l.tid) { MarkedAuthenticated(s.shared, s.threads[l.tid], l.choice, sid); }
  }

  lemma SigningWriter(labels: seq<Label>, m: nat, sid: nat)
    requires m < |labels| && labels[m].Go? && labels[m].tid in At(labels, m).threads
    requires At(labels, m).threads[labels[m].tid] == Release(sid, Authenticated)
    ensures exists k: nat, n: nat, tid: nat :: SignedInBy(labels, k, n, tid, sid)
  {
    hide Run, Asking;
    var tid := labels[m].tid;
    SigningInWasAnswered(labels, m, tid, sid);
    var k: nat :| k < m && SaysYes(labels, k, tid, sid) && AsksNothing(labels, k, m, tid);
    assert SignedInBy(labels, k, m, tid, sid);
  }
}
