/**
 * From the provider's answer into the sign-in, under every interleaving: what a line sent to the helper makes of the call
 * that waits for its answer, and what a line without an answer does.
 */
module HelperFailures {
  import opened SignIn
  import opened SignInSafety
  import opened SignInRuns
  import opened SignInLimits
  import opened HelperProtocol
  import opened HelperAnswers
  import opened SignInAnswers

  /** The thread's code call on this session has failed; the value says how far it has got since. */
  predicate Failing(pc: Pc, sid: nat) {
    || pc == MfaClear(sid, AuthenticationFailed)
    || pc == Release(sid, AuthenticationFailed)
    || pc == Done(Snapshot(sid, AuthenticationFailed))
  }

  lemma FailingNext(sh: Shared, pc: Pc, c: Choice, sid: nat)
    requires Failing(pc, sid) && sid in sh.objects
    ensures Failing(Next(sh, pc, c).1, sid)
  {
  }

  lemma FailureBegins(sh: Shared, pc: Pc, c: Choice)
    requires pc.MfaSend? && pc.provider.Some? && pc.sid in sh.objects && c.answer == Failure
    ensures Next(sh, pc, c) == (Close(sh, pc.provider), MfaClear(pc.sid, AuthenticationFailed))
  {
  }

  lemma {:induction false} FailingStays(labels: seq<Label>, more: seq<Label>, tid: nat, sid: nat)
    requires tid in Run(labels).threads && Failing(Run(labels).threads[tid], sid) && sid in Run(labels).shared.objects
    ensures tid in Run(labels + more).threads && Failing(Run(labels + more).threads[tid], sid)
    ensures sid in Run(labels + more).shared.objects
    decreases |more|
  {
    hide Run, Next, Failing, Enabled;
    if more == [] {
      assert labels + more == labels;
    } else {
      var n := |more| - 1;
      var s := Run(labels + more[..n]);
      FailingStays(labels, more[..n], tid, sid);
      SessionStays(labels, more, sid);
      SplitRun(labels, more);
      if more[n].Go? { FailingNext(s.shared, s.threads[tid], more[n].choice, sid); }
    }
  }

  /** The session failed, has no provider, and the check for a password lets the next one in. */
  ghost predicate Reopened(sh: Shared, sid: nat) {
    && sid in sh.objects && sh.objects[sid].state == AuthenticationFailed && sh.objects[sid].provider.None?
    && forall c :: Next(sh, PasswordEnter(sid), c) == (sh, PasswordMark(sid))
  }

  ghost predicate NextReopens(s: System, tid: nat, sid: nat) {
    forall c :: Reopened(Step(s, Go(tid, c)).shared, sid)
  }

  /** The write that ends the failed call leaves the session without a provider, open to a password. */
  lemma FailureReleases(s: System, tid: nat, sid: nat)
    requires Invariant(s) && tid in s.threads && s.threads[tid] == Release(sid, AuthenticationFailed)
    ensures NextReopens(s, tid, sid)
  {
    hide TablesSound, ProvidersFit, RemovalSound;
    assert ThreadSound(s.shared, s.threads[tid]);
    assert Enabled(s, tid);
  }

  /**
   * Whatever other threads do, a code that gets no answer takes its call to `authentication_failed` and nowhere else, and
   * the call's last write leaves the session without a provider, in a state from which a password is accepted again.
   */
  lemma FailedCodeReopensPassword(labels: seq<Label>, tid: nat, c: Choice, more: seq<Label>)
    requires tid in Run(labels).threads && Run(labels).threads[tid].MfaSend? && Run(labels).threads[tid].provider.Some?
    requires c.answer == Failure
    ensures var (sid, s) := (Run(labels).threads[tid].sid, Run(labels + [Go(tid, c)] + more));
      && tid in s.threads && Failing(s.threads[tid], sid)
      && (s.threads[tid].Release? ==> NextReopens(s, tid, sid))
  {
    hide Run, Next, Step, Invariant, NextReopens;
    var pc := Run(labels).threads[tid];
    CodeSends(labels, tid, c);
    FailingStays(labels + [Go(tid, c)], more, tid, pc.sid);
    var s := Run(labels + [Go(tid, c)] + more);
    EveryRunIsSound(labels + [Go(tid, c)] + more);
    if s.threads[tid].Release? {
      FailureReleases(s, tid, pc.sid);
    }
  }

  lemma CodeSends(labels: seq<Label>, tid: nat, c: Choice)
    requires tid in Run(labels).threads && Run(labels).threads[tid].MfaSend? && Run(labels).threads[tid].provider.Some?
    requires c.answer == Failure
    ensures var (sid, s) := (Run(labels).threads[tid].sid, Run(labels + [Go(tid, c)]));
      tid in s.threads && Failing(s.threads[tid], sid) && sid in s.shared.objects
  {
    hide Run, Next, TablesSound, ProvidersFit, RemovalSound;
    var s := Run(labels);
    EveryRunIsSound(labels);
    assert ThreadSound(s.shared, s.threads[tid]);
    assert Enabled(s, tid);
    RunNext(labels, Go(tid, c));
    FailureBegins(s.shared, s.threads[tid], c);
  }

  /**
   * A code sent to a helper that has exited, as every helper has after three refused codes: however the exchange ends, the
   * call that waits for it ends in `authentication_failed`, and reopens its session to a password.
   */
  lemma ExitedHelperReopensPassword(
    moves: seq<Move>, line: Line, noticed: bool, later: seq<Move>, labels: seq<Label>, tid: nat, c: Choice, more: seq<Label>)
    requires var k := Talk(moves); k.helper.Gone? && !k.waiting && !k.closed
    requires var (k, u) := (Talk(moves), Talk(moves + [Send(line, noticed)] + later));
      |u.log| > |k.log| && c.answer == u.log[|k.log|].answer
    requires tid in Run(labels).threads && Run(labels).threads[tid].MfaSend? && Run(labels).threads[tid].provider.Some?
    ensures var (sid, s) := (Run(labels).threads[tid].sid, Run(labels + [Go(tid, c)] + more));
      && tid in s.threads && Failing(s.threads[tid], sid)
      && (s.threads[tid].Release? ==> NextReopens(s, tid, sid))
  {
    hide Run, Talk, NextReopens;
    ExitedHelperFails(moves, line, noticed, later);
    FailedCodeReopensPassword(labels, tid, c, more);
  }

  /**
   * From the line to the reply: a call that waits for the answer to the i-th line of a conversation replies, if it replies,
   * that the session is signed in exactly when this line deserves it, as a request that the provider takes without a code
   * or as a right code; and it asks for a code exactly when the line deserves that.
   */
  lemma LineDecidesReply(moves: seq<Move>, i: nat, labels: seq<Label>, tid: nat, sid: nat, c: Choice, more: seq<Label>)
    requires i < |Talk(moves).log| && Talk(moves).log[i].answer.Response? && c.answer == Talk(moves).log[i].answer
    requires tid in Run(labels).threads && SignInAnswers.Asking(Run(labels).threads[tid], sid)
    ensures i < |Sent(moves)| && i < |Met(moves)|
    ensures var s := Run(labels + [Go(tid, c)] + more);
      && tid in s.threads
      && (s.threads[tid].Done? ==>
            && (s.threads[tid].reply == Snapshot(sid, Authenticated) <==>
                  Deserves(i, Sent(moves)[i], Met(moves)[i], SaysAuthenticated))
            && (s.threads[tid].reply == Snapshot(sid, MfaRequired) <==> Deserves(i, Sent(moves)[i], Met(moves)[i], SaysMfa)))
  {
    hide Run, Talk, Sent, Met, RequestDeserves, CodeDeserves;
    AnswersAreDeserved(moves, i, SaysAuthenticated);
    AnswersAreDeserved(moves, i, SaysMfa);
    AnswerDecidesReply(labels, tid, sid, c, more);
  }
}
