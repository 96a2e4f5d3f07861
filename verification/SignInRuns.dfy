/** Building concrete interleavings: threads that are spawned, and threads that run for some steps. */
module SignInRuns {
  import opened Text
  import opened SignIn

  function Spawning(tid: nat, call: Pc): seq<Label> {
    [Spawn(tid, call)]
  }

  /** `n` steps of one thread under the same choice. */
  function Going(tid: nat, c: Choice, n: nat): seq<Label> {
    seq(n, _ => Go(tid, c))
  }

  /** Where a thread gets in `n` steps when nobody else moves. */
  function Advance(sh: Shared, pc: Pc, c: Choice, n: nat): (Shared, Pc)
    decreases n
  {
    if n == 0 then (sh, pc) else Advance(Next(sh, pc, c).0, Next(sh, pc, c).1, c, n - 1)
  }

  lemma RunNext(labels: seq<Label>, l: Label)
    ensures Run(labels + [l]) == Step(Run(labels), l)
  {
    hide Step;
    assert (labels + [l])[..|labels|] == labels;
  }

  lemma RunSpawning(labels: seq<Label>, tid: nat, call: Pc)
    requires tid !in Run(labels).threads && Initial(call)
    ensures Run(labels + Spawning(tid, call)) == System(Run(labels).shared, Run(labels).threads[tid := call])
  {
    hide Initial;
    RunNext(labels, Spawn(tid, call));
  }

  /** No other thread is in the way. */
  predicate LockIsFreeFor(s: System, tid: nat) {
    forall t :: t in s.threads && t != tid ==> !HoldsLock(s.threads[t])
  }

  lemma NeederIsEnabled(s: System, tid: nat)
    requires tid in s.threads && LockIsFreeFor(s, tid)
    ensures Enabled(s, tid)
  {
  }

  lemma {:induction false} RunGoing(labels: seq<Label>, tid: nat, c: Choice, n: nat)
    requires tid in Run(labels).threads && LockIsFreeFor(Run(labels), tid)
    ensures var (sh, pc) := Advance(Run(labels).shared, Run(labels).threads[tid], c, n);
      Run(labels + Going(tid, c, n)) == System(sh, Run(labels).threads[tid := pc])
    decreases n
  {
    hide Next, HoldsLock, Enabled, Run;
    var s := Run(labels);
    if n == 0 {
      assert labels + Going(tid, c, 0) == labels;
      assert s.threads[tid := s.threads[tid]] == s.threads;
    } else {
      var first := labels + [Go(tid, c)];
      NeederIsEnabled(s, tid);
      RunNext(labels, Go(tid, c));
      RunGoing(first, tid, c, n - 1);
      assert labels + Going(tid, c, n) == first + Going(tid, c, n - 1);
      var (u, next) := Next(s.shared, s.threads[tid], c);
      assert Run(first) == System(u, s.threads[tid := next]);
    }
  }

  lemma {:induction false} AdvanceJoined(sh: Shared, pc: Pc, c: Choice, m: nat, n: nat)
    ensures Advance(sh, pc, c, m + n) == Advance(Advance(sh, pc, c, m).0, Advance(sh, pc, c, m).1, c, n)
    decreases m
  {
    hide Next;
    if m > 0 { AdvanceJoined(Next(sh, pc, c).0, Next(sh, pc, c).1, c, m - 1, n); }
  }

  // ---- the parts of a call, when no session expires ----

  lemma NoSweep(sh: Shared, call: Pc, c: Choice)
    ensures Next(sh, Sweep({}, call), c) == (sh, call)
  {
  }

  lemma StartAdvances(sh: Shared, source: int, account: string, expires: Time, c: Choice)
    requires Expired(sh, c.now) == {} && source !in sh.bySource
    requires forall sid :: sid in sh.live && sid in sh.objects ==> sh.objects[sid].account != account
    ensures Advance(sh, StartLock(source, account, c.now, expires), c, 3) ==
      (Enrol(sh, source, account, expires), Done(Snapshot(sh.created, PasswordRequired)))
  {
    var tables := StartTables(source, account, expires);
    assert Next(sh, StartLock(source, account, c.now, expires), c) == (sh, Sweep({}, tables));
    NoSweep(sh, tables, c);
    assert Next(sh, tables, c) == StartStep(sh, source, account, expires);
    hide Next, StartStep;
    AdvanceThrice(sh, StartLock(source, account, c.now, expires), c);
  }

  lemma StartRefused(sh: Shared, source: int, account: string, expires: Time, c: Choice, sid: nat)
    requires Expired(sh, c.now) == {} && source !in sh.bySource
    requires sid in sh.live && sid in sh.objects && sh.objects[sid].account == account
    ensures Advance(sh, StartLock(source, account, c.now, expires), c, 3) == (sh, Done(Refused("account_authentication_active")))
  {
    var tables := StartTables(source, account, expires);
    assert Next(sh, StartLock(source, account, c.now, expires), c) == (sh, Sweep({}, tables));
    NoSweep(sh, tables, c);
    assert Next(sh, tables, c) == StartStep(sh, source, account, expires);
    assert StartStep(sh, source, account, expires).1.reply == Refused("account_authentication_active");
    hide Next, StartStep;
    AdvanceThrice(sh, StartLock(source, account, c.now, expires), c);
  }

  lemma AdvanceThrice(sh: Shared, pc: Pc, c: Choice)
    ensures var (a, p) := Next(sh, pc, c);
      var (b, q) := Next(a, p, c);
      Advance(sh, pc, c, 3) == Next(b, q, c)
  {
    hide Next;
    var (a, p) := Next(sh, pc, c);
    var (b, q) := Next(a, p, c);
    var (d, r) := Next(b, q, c);
    assert Advance(d, r, c, 0) == (d, r);
    assert Advance(b, q, c, 1) == (d, r);
    assert Advance(a, p, c, 2) == (d, r);
  }

  lemma CancelSteps(sh: Shared, sid: nat, c: Choice)
    requires Expired(sh, c.now) == {} && sid in sh.live && sid in sh.objects
    ensures var s := sh.objects[sid];
      && Next(sh, CancelRequire(sid, s.source), c) == (sh, Sweep({}, CancelLookup(sid, s.source)))
      && Next(sh, CancelLookup(sid, s.source), c) == (sh, CancelMark(sid))
      && Next(sh, CancelMark(sid), c) == (Write(sh, sid, s.(state := Cancelled)), Remove(sid, Cancelled))
  {
    hide Write, Expired;
  }

  /** A cancellation finds its session and marks it. */
  lemma CancelAdvances(sh: Shared, sid: nat, c: Choice)
    requires Expired(sh, c.now) == {} && sid in sh.live && sid in sh.objects
    ensures var s := sh.objects[sid];
      Advance(sh, CancelRequire(sid, s.source), c, 4) == (Write(sh, sid, s.(state := Cancelled)), Remove(sid, Cancelled))
  {
    hide Next, Write, Expired, Advance;
    var call := CancelRequire(sid, sh.objects[sid].source);
    CancelSteps(sh, sid, c);
    NoSweep(sh, CancelLookup(sid, sh.objects[sid].source), c);
    AdvanceThrice(sh, call, c);
    AdvanceJoined(sh, call, c, 3, 1);
    AdvanceOnce(sh, CancelMark(sid), c);
  }

  lemma AdvanceOnce(sh: Shared, pc: Pc, c: Choice)
    ensures Advance(sh, pc, c, 1) == Next(sh, pc, c)
  {
    hide Next;
    assert Advance(Next(sh, pc, c).0, Next(sh, pc, c).1, c, 0) == Next(sh, pc, c);
  }

  /** The three steps of a removal. */
  lemma RemoveAdvances(sh: Shared, sid: nat, result: State, c: Choice)
    requires sid in sh.objects
    ensures var s := sh.objects[sid];
      Advance(sh, Remove(sid, result), c, 3) ==
        (Write(Close(Detach(sh, sid), s.provider), sid, s.(provider := None)), Done(Snapshot(sid, result)))
  {
    var s := sh.objects[sid];
    var done := Done(Snapshot(sid, result));
    var detached := Detach(sh, sid);
    assert Next(sh, Remove(sid, result), c) == (detached, Closing(sid, done));
    assert Next(detached, Closing(sid, done), c) == (Close(detached, s.provider), Clearing(sid, done));
    var closed := Close(detached, s.provider);
    assert Next(closed, Clearing(sid, done), c) == (Write(closed, sid, s.(provider := None)), done);
    hide Next, Detach, Close, Write;
    AdvanceThrice(sh, Remove(sid, result), c);
  }

  /** An accepted password up to the store of its provider, which asks for a code. */
  lemma PasswordAdvances(sh: Shared, sid: nat, c: Choice)
    requires Expired(sh, c.now) == {} && sid in sh.live && sid in sh.objects && sh.objects[sid].state == PasswordRequired
    requires c.starts && c.answer == Response(SaysMfa)
    ensures var s := sh.objects[sid];
      var u := Write(sh, sid, s.(state := Authenticating));
      Advance(sh, PasswordRequire(sid, s.source, s.account, false), c, 7) ==
        (u.(open := u.open + {u.started}, started := u.started + 1), PasswordStore(sid, u.started))
  {
    var s := sh.objects[sid];
    var call := PasswordRequire(sid, s.source, s.account, false);
    var lookup := PasswordLookup(sid, s.source, s.account, false);
    var u := Write(sh, sid, s.(state := Authenticating));
    var v := u.(open := u.open + {u.started}, started := u.started + 1);
    assert Next(sh, call, c) == (sh, Sweep({}, lookup));
    NoSweep(sh, lookup, c);
    assert Next(sh, lookup, c) == (sh, PasswordEnter(sid));
    assert Next(sh, PasswordEnter(sid), c) == (sh, PasswordMark(sid));
    assert Next(sh, PasswordMark(sid), c) == (u, PasswordLaunch(sid));
    assert Next(u, PasswordLaunch(sid), c) == (v, PasswordSend(sid, u.started));
    assert Next(v, PasswordSend(sid, u.started), c) == (v, PasswordStore(sid, u.started));
    hide Next, Write;
    AdvanceThrice(sh, call, c);
    AdvanceThrice(sh, PasswordEnter(sid), c);
    AdvanceJoined(sh, call, c, 3, 3);
    AdvanceJoined(sh, call, c, 6, 1);
    AdvanceOnce(v, PasswordSend(sid, u.started), c);
  }
}
