/** The provider process: what it answers to each request line, and what parent and helper see of each other. */
module HelperProtocol {
  import opened Text
  import opened SignIn

  // ---- the helper ----

  const MFA_ATTEMPTS := 3

  const AUTHENTICATED := "authenticated"
  const AUTHENTICATION_REQUIRED := "authentication_required"
  const MFA_REQUIRED := "mfa_required"
  const AUTHENTICATION_FAILED := "authentication_failed"
  const SESSION_EXPIRED := "session_expired"
  const PROVIDER_UNAVAILABLE := "provider_unavailable"

  /** A line the helper reads: unusable, or an object with the fields it looks at (absent when not texts). */
  datatype Line = Unreadable | Object(operation: string, account: Option<string>, passwordUsable: bool, code: Option<string>)

  /** How the provider library takes a sign-in. */
  datatype Login =
    | Raises(name: string, serviceCode: Option<string>)
    | NoData
    | LegacyVerification
    | ModernMfa
    | SignedIn

  /** Waiting for the first request, for a code with this many attempts left, or exited. */
  datatype Helper = Fresh | Codes(left: nat) | Gone

  function SafeExceptionState(name: string): string {
    if name == "PyiCloudNoStoredPasswordAvailableException" || name == "PyiCloud2SARequiredException" then AUTHENTICATION_REQUIRED
    else if name == "PyiCloudFailedLoginException" || name == "PyiCloudFailedMFAException" then AUTHENTICATION_FAILED
    else if name == "PyiCloudAPIResponseException" then SESSION_EXPIRED
    else PROVIDER_UNAVAILABLE
  }

  predicate UsableFirst(line: Line) {
    && line.Object?
    && (line.operation == "probe" || line.operation == "authenticate")
    && line.account.Some? && Strip(line.account.value) != ""
    && (line.operation == "authenticate" ==> line.passwordUsable)
  }

  /** The answer to the first request and what the helper does next. */
  function FirstAnswer(line: Line, login: Login): (Helper, string) {
    if !UsableFirst(line) then (Gone, SafeExceptionState("ValueError"))
    else match login
      case Raises(name, _) => (Gone, SafeExceptionState(name))
      case NoData => (Gone, AUTHENTICATION_REQUIRED)
      case LegacyVerification => (Gone, AUTHENTICATION_FAILED)
      case ModernMfa => if line.operation == "probe" then (Gone, AUTHENTICATION_REQUIRED) else (Codes(MFA_ATTEMPTS), MFA_REQUIRED)
      case SignedIn => (Gone, AUTHENTICATED)
  }

  predicate UsableCode(line: Line) {
    line.Object? && line.operation == "mfa" && line.code.Some?
  }

  predicate SixDigits(code: string, isDigit: char -> bool) {
    |code| == 6 && forall k :: 0 <= k < 6 ==> isDigit(code[k])
  }

  /** What the world decides during one helper step: the provider's login, its verdict on a code, what a digit is. */
  datatype World = World(login: Login, accepts: bool, isDigit: char -> bool)

  predicate Validates(h: Helper, line: Line, w: World) {
    h.Codes? && UsableCode(line) && SixDigits(line.code.value, w.isDigit)
  }

  /** The answer to a code; after the last attempt the helper exits although it has asked for another code. */
  function CodeAnswer(left: nat, line: Line, w: World): (Helper, string) {
    if !UsableCode(line) then (Gone, SafeExceptionState("ValueError"))
    else if SixDigits(line.code.value, w.isDigit) && w.accepts then (Gone, AUTHENTICATED)
    else (if left <= 1 then Gone else Codes(left - 1), MFA_REQUIRED)
  }

  function HelperStep(h: Helper, line: Line, w: World): (Helper, string)
    requires !h.Gone?
  {
    match h
    case Fresh => FirstAnswer(line, w.login)
    case Codes(left) => CodeAnswer(left, line, w)
  }

  // ---- the parent's side ----

  /** The states the parent accepts; any other text is an invalid response. */
  function Accept(state: string): Answer {
    if state == AUTHENTICATED then Response(SaysAuthenticated)
    else if state == AUTHENTICATION_REQUIRED then Response(SaysRequired)
    else if state == MFA_REQUIRED then Response(SaysMfa)
    else if state == AUTHENTICATION_FAILED then Response(SaysFailed)
    else if state == SESSION_EXPIRED then Response(SaysExpired)
    else if state == PROVIDER_UNAVAILABLE then Response(SaysUnavailable)
    else Failure
  }

  predicate IsState(s: string) {
    || s == AUTHENTICATED || s == AUTHENTICATION_REQUIRED || s == MFA_REQUIRED
    || s == AUTHENTICATION_FAILED || s == SESSION_EXPIRED || s == PROVIDER_UNAVAILABLE
  }

  lemma AcceptsStates(s: string)
    ensures Accept(s).Response? <==> IsState(s)
  {
  }

  lemma ExceptionStates(name: string)
    ensures IsState(SafeExceptionState(name))
  {
  }

  lemma WritesStates(h: Helper, line: Line, w: World)
    requires !h.Gone?
    ensures IsState(HelperStep(h, line, w).1)
  {
    hide SafeExceptionState, UsableFirst, UsableCode, SixDigits;
    ExceptionStates("ValueError");
    if w.login.Raises? { ExceptionStates(w.login.name); }
  }

  /** Every state the helper can write is one the parent accepts. */
  lemma HelperIsUnderstood(h: Helper, line: Line, w: World)
    requires !h.Gone?
    ensures Accept(HelperStep(h, line, w).1).Response?
  {
    hide HelperStep, IsState, Accept;
    WritesStates(h, line, w);
    AcceptsStates(HelperStep(h, line, w).1);
  }

  // ---- both ends and the two pipes ----

  /** One request of the parent and how it ended: with the answer written for request number `answered`, or in failure. */
  datatype Exchange = Exchange(request: nat, answered: nat, answer: Answer)

  /**
   * `toHelper` and `toParent` are the pipes, each message marked with the number of the request it belongs to; `sent`
   * numbers the requests, `log` records the exchanges that have ended, `validated` counts the codes put to Apple.
   */
  datatype Link = Link(
    helper: Helper,
    toHelper: seq<(nat, Line)>,
    toParent: seq<(nat, string)>,
    waiting: bool,
    closed: bool,
    sent: nat,
    log: seq<Exchange>,
    validated: nat,
    written: nat)

  const NEW_LINK := Link(Fresh, [], [], false, false, 0, [], 0, 0)

  datatype Move =
    | Send(line: Line, exitNoticed: bool)
    | Work(world: World)
    | Receive
    | GiveUp

  /** The parent fails the current request and closes the process. */
  function FailRequest(k: Link): Link {
    k.(waiting := false, closed := true, helper := Gone, log := k.log + [Exchange(k.sent, k.sent, Failure)])
  }

  /**
   * The parent sends only when it waits for nothing, reads only when it waits, and gives up on a timeout, on an answer
   * that never comes or on one it does not understand. A helper that has exited may be noticed before the request is
   * written or only when no answer comes.
   */
  function Act(k: Link, m: Move): Link {
    match m
    case Send(line, exitNoticed) =>
      if k.waiting || k.closed then k
      else if k.helper.Gone? && exitNoticed then FailRequest(k.(sent := k.sent + 1))
      else k.(sent := k.sent + 1, waiting := true, toHelper := k.toHelper + [(k.sent + 1, line)])
    case Work(world) =>
      if k.helper.Gone? || k.toHelper == [] then k
      else
        var (number, line) := k.toHelper[0];
        var (helper, state) := HelperStep(k.helper, line, world);
        k.(helper := helper, toHelper := k.toHelper[1..], toParent := k.toParent + [(number, state)],
           written := k.written + 1, validated := k.validated + if Validates(k.helper, line, world) then 1 else 0)
    case Receive =>
      if !k.waiting || k.toParent == [] then k
      else
        var (number, state) := k.toParent[0];
        var answer := Accept(state);
        if answer.Failure? then FailRequest(k.(toParent := k.toParent[1..]))
        else k.(waiting := false, toParent := k.toParent[1..], log := k.log + [Exchange(k.sent, number, answer)])
    case GiveUp => if k.waiting then FailRequest(k) else k
  }

  function Talk(moves: seq<Move>): Link {
    if moves == [] then NEW_LINK else Act(Talk(moves[..|moves| - 1]), moves[|moves| - 1])
  }

  /** The number of answers the helper has written, bounded by where it stands. */
  predicate HelperBudget(k: Link) {
    match k.helper
    case Fresh => k.written == 0 && k.validated == 0
    case Codes(left) => 1 <= left <= MFA_ATTEMPTS && k.written <= 1 + (MFA_ATTEMPTS - left) && k.validated <= MFA_ATTEMPTS - left
    case Gone => k.written <= 1 + MFA_ATTEMPTS && k.validated <= MFA_ATTEMPTS
  }

  function Answered(log: seq<Exchange>): nat {
    if log == [] then 0 else Answered(log[..|log| - 1]) + if log[|log| - 1].answer.Response? then 1 else 0
  }

  predicate Lockstep(k: Link) {
    && (k.waiting && !k.closed ==>
          && |k.toHelper| + |k.toParent| <= 1
          && (forall i :: 0 <= i < |k.toHelper| ==> k.toHelper[i].0 == k.sent)
          && (forall i :: 0 <= i < |k.toParent| ==> k.toParent[i].0 == k.sent))
    && (!k.waiting && !k.closed ==> k.toHelper == [] && k.toParent == [])
    && (k.closed ==> !k.waiting && k.helper.Gone?)
    && (forall i :: 0 <= i < |k.toParent| ==> Accept(k.toParent[i].1).Response?)
    && |k.log| + (if k.waiting then 1 else 0) == k.sent
    && (forall i :: 0 <= i < |k.log| ==> k.log[i].request == i + 1 && k.log[i].answered == k.log[i].request)
    && (forall i :: 0 <= i < |k.log| - 1 ==> k.log[i].answer.Response?)
    && (|k.log| > 0 && !k.closed ==> k.log[|k.log| - 1].answer.Response?)
  }

  lemma AnsweredNext(log: seq<Exchange>, e: Exchange)
    ensures Answered(log + [e]) == Answered(log) + if e.answer.Response? then 1 else 0
  {
    assert (log + [e])[..|log|] == log;
  }

  predicate Bounded(k: Link) {
    HelperBudget(k) && Answered(k.log) + |k.toParent| <= k.written
  }

  lemma ActKeepsLockstep(k: Link, m: Move)
    requires Lockstep(k)
    ensures Lockstep(Act(k, m))
  {
    hide HelperStep, Accept, Validates;
    if m.Work? && !k.helper.Gone? && k.toHelper != [] {
      HelperIsUnderstood(k.helper, k.toHelper[0].1, m.world);
    }
  }

  lemma ActKeepsBudget(k: Link, m: Move)
    requires Bounded(k)
    ensures Bounded(Act(k, m))
  {
    hide Accept, SafeExceptionState, UsableFirst, UsableCode, SixDigits;
    match m {
      case Receive =>
        if k.waiting && k.toParent != [] {
          AnsweredNext(k.log, Exchange(k.sent, k.toParent[0].0, Accept(k.toParent[0].1)));
          AnsweredNext(k.log, Exchange(k.sent, k.sent, Failure));
        }
      case Send(_, _) => AnsweredNext(k.log, Exchange(k.sent + 1, k.sent + 1, Failure));
      case GiveUp => AnsweredNext(k.log, Exchange(k.sent, k.sent, Failure));
      case Work(_) =>
    }
  }

  lemma {:induction false} TalkIsSound(moves: seq<Move>)
    ensures Lockstep(Talk(moves)) && Bounded(Talk(moves))
  {
    hide Act, Lockstep, Bounded;
    if moves == [] {
      NewLinkIsSound();
    } else {
      TalkIsSound(moves[..|moves| - 1]);
      ActKeepsLockstep(Talk(moves[..|moves| - 1]), moves[|moves| - 1]);
      ActKeepsBudget(Talk(moves[..|moves| - 1]), moves[|moves| - 1]);
    }
  }

  lemma NewLinkIsSound()
    ensures Lockstep(NEW_LINK) && Bounded(NEW_LINK)
  {
  }

  // ---- results over all conversations ----

  /**
   * However requests, answers, timeouts and exits interleave, the k-th exchange is about the k-th request: every answer
   * that the parent reads was written for its most recent request, and at most one exchange fails, the last.
   */
  lemma AnswersMatchRequests(moves: seq<Move>, i: nat)
    requires i < |Talk(moves).log|
    ensures var log := Talk(moves).log;
      && log[i].request == i + 1 && log[i].answered == log[i].request
      && (log[i].answer.Failure? ==> i == |log| - 1 && Talk(moves).closed)
  {
    hide Talk;
    TalkIsSound(moves);
  }

  /** At most three codes of one provider process are put to Apple. */
  lemma AtMostThreeCodes(moves: seq<Move>)
    ensures Talk(moves).validated <= MFA_ATTEMPTS
  {
    hide Talk;
    TalkIsSound(moves);
  }

  lemma {:induction false} AnsweredPrefix(log: seq<Exchange>)
    requires forall i :: 0 <= i < |log| - 1 ==> log[i].answer.Response?
    ensures Answered(log) <= |log| && (|log| > 0 ==> Answered(log) >= |log| - 1)
    ensures |log| > 0 && log[|log| - 1].answer.Response? ==> Answered(log) == |log|
  {
    if log != [] {
      var n := |log| - 1;
      AnsweredPrefix(log[..n]);
      if n > 0 { assert log[..n][n - 1] == log[n - 1]; }
    }
  }

  /** An exchange was answered with a request for a code. */
  predicate Asked(e: Exchange) {
    e.answer == Response(SaysMfa)
  }

  /** A helper that goes on after an answer has asked for a code in it. */
  predicate AsksOn(k: Link) {
    && (forall i :: 0 <= i < |k.log| - 1 && k.log[i + 1].answer.Response? ==> Asked(k.log[i]))
    && (k.log != [] && k.log[|k.log| - 1].answer.Response? && (k.helper.Codes? || k.toParent != []) ==> Asked(k.log[|k.log| - 1]))
    && (k.helper.Codes? ==> forall i :: 0 <= i < |k.toParent| ==> k.toParent[i].1 == MFA_REQUIRED)
    && (k.helper.Fresh? ==> k.toParent == [] && forall i :: 0 <= i < |k.log| ==> k.log[i].answer.Failure?)
  }

  lemma StepAsks(h: Helper, line: Line, w: World)
    requires !h.Gone? && HelperStep(h, line, w).0.Codes?
    ensures HelperStep(h, line, w).1 == MFA_REQUIRED
  {
    hide UsableFirst, UsableCode, SixDigits, SafeExceptionState;
  }

  lemma StepLeavesFresh(h: Helper, line: Line, w: World)
    requires !h.Gone?
    ensures !HelperStep(h, line, w).0.Fresh?
  {
    hide UsableFirst, UsableCode, SixDigits, SafeExceptionState;
  }

  lemma ActKeepsAsking(k: Link, m: Move)
    requires AsksOn(k) && Lockstep(k)
    ensures AsksOn(Act(k, m))
  {
    hide HelperStep, Validates, UsableFirst, UsableCode, SixDigits;
    if m.Work? && !k.helper.Gone? && k.toHelper != [] {
      StepLeavesFresh(k.helper, k.toHelper[0].1, m.world);
      if HelperStep(k.helper, k.toHelper[0].1, m.world).0.Codes? { StepAsks(k.helper, k.toHelper[0].1, m.world); }
    }
  }

  lemma {:induction false} TalkAsksOn(moves: seq<Move>)
    ensures AsksOn(Talk(moves))
  {
    hide Act, Lockstep, Bounded, AsksOn;
    if moves == [] {
      NewLinkAsksOn();
    } else {
      TalkAsksOn(moves[..|moves| - 1]);
      TalkIsSound(moves[..|moves| - 1]);
      ActKeepsAsking(Talk(moves[..|moves| - 1]), moves[|moves| - 1]);
    }
  }

  lemma NewLinkAsksOn()
    ensures AsksOn(NEW_LINK)
  {
  }

  /**
   * A process answers a password and at most three codes, and has then exited: the fifth exchange fails and ends the
   * conversation, and all but the last answered one had asked for a code.
   */
  lemma FourthCodeFails(moves: seq<Move>)
    requires |Talk(moves).log| > MFA_ATTEMPTS
    ensures var k := Talk(moves);
      && (k.log[MFA_ATTEMPTS].answer.Response? ==> k.helper.Gone? && forall j :: 0 <= j < MFA_ATTEMPTS ==> Asked(k.log[j]))
      && (|k.log| > 1 + MFA_ATTEMPTS ==> |k.log| == 2 + MFA_ATTEMPTS && k.log[1 + MFA_ATTEMPTS].answer == Failure && k.closed)
  {
    hide Talk;
    var k := Talk(moves);
    TalkIsSound(moves);
    TalkAsksOn(moves);
    AnsweredPrefix(k.log);
    assert k.log[MFA_ATTEMPTS].answer.Response? ==> Answered(k.log) > MFA_ATTEMPTS;
    forall j | 0 <= j < MFA_ATTEMPTS && k.log[MFA_ATTEMPTS].answer.Response? ensures Asked(k.log[j]) {
      assert k.log[j + 1].answer.Response?;
    }
  }

  // ---- the last refused code ----

  const REFUSING := World(ModernMfa, false, c => '0' <= c <= '9')
  const PASSWORD_LINE := Object("authenticate", Some("a@b"), true, None)
  const CODE_LINE := Object("mfa", None, true, Some("123456"))

  /** A request, its answer, and the read of the answer. */
  function Asking(line: Line): seq<Move> {
    [Send(line, false), Work(REFUSING), Receive]
  }

  lemma TalkMore(moves: seq<Move>, m: Move)
    ensures Talk(moves + [m]) == Act(Talk(moves), m)
  {
    hide Act;
    assert (moves + [m])[..|moves|] == moves;
  }

  lemma TalkAsking(moves: seq<Move>, line: Line)
    ensures Talk(moves + Asking(line)) == Act(Act(Act(Talk(moves), Send(line, false)), Work(REFUSING)), Receive)
  {
    hide Act, Talk;
    TalkMore(moves, Send(line, false));
    TalkMore(moves + [Send(line, false)], Work(REFUSING));
    TalkMore(moves + [Send(line, false)] + [Work(REFUSING)], Receive);
    assert moves + Asking(line) == moves + [Send(line, false)] + [Work(REFUSING)] + [Receive];
  }

  /** The conversation of a password and three codes that Apple refuses. */
  function Refusals(n: nat): seq<Move> {
    if n == 0 then Asking(PASSWORD_LINE) else Refusals(n - 1) + Asking(CODE_LINE)
  }

  function AskedFor(n: nat): seq<Exchange> {
    seq(n, k requires k >= 0 => Exchange(k + 1, k + 1, Response(SaysMfa)))
  }

  lemma {:induction false} Refuses(n: nat)
    requires n <= MFA_ATTEMPTS
    ensures var k := Talk(Refusals(n));
      && k.helper == (if n == MFA_ATTEMPTS then Gone else Codes(MFA_ATTEMPTS - n))
      && k.toHelper == [] && k.toParent == [] && !k.waiting && !k.closed && k.sent == n + 1 && k.log == AskedFor(n + 1)
  {
    hide Talk, Act, Asking, HelperStep;
    if n == 0 {
      TalkAsking([], PASSWORD_LINE);
      assert [] + Asking(PASSWORD_LINE) == Asking(PASSWORD_LINE);
      FreshLink();
      assert HelperStep(Fresh, PASSWORD_LINE, REFUSING) == (Codes(MFA_ATTEMPTS), MFA_REQUIRED) by { PasswordAsks(); }
      AskingAnswers(NEW_LINK, PASSWORD_LINE);
    } else {
      Refuses(n - 1);
      TalkAsking(Refusals(n - 1), CODE_LINE);
      CodeRefused(MFA_ATTEMPTS - (n - 1));
      AskingAnswers(Talk(Refusals(n - 1)), CODE_LINE);
      assert AskedFor(n) + [Exchange(n + 1, n + 1, Response(SaysMfa))] == AskedFor(n + 1);
    }
  }

  lemma PasswordAsks()
    ensures HelperStep(Fresh, PASSWORD_LINE, REFUSING) == (Codes(MFA_ATTEMPTS), MFA_REQUIRED)
  {
    assert Stripped("a@b");
    StripIsProjection("a@b");
    hide Strip, SafeExceptionState;
  }

  lemma CodeRefused(left: nat)
    ensures HelperStep(Codes(left), CODE_LINE, REFUSING) == (if left <= 1 then Gone else Codes(left - 1), MFA_REQUIRED)
  {
    hide SafeExceptionState;
  }

  /** An exchange on an idle link in which the helper asks for a code. */
  lemma AskingAnswers(k: Link, line: Line)
    requires !k.helper.Gone? && k.toHelper == [] && k.toParent == [] && !k.waiting && !k.closed
    requires HelperStep(k.helper, line, REFUSING).1 == MFA_REQUIRED
    ensures var u := Act(Act(Act(k, Send(line, false)), Work(REFUSING)), Receive);
      && u.helper == HelperStep(k.helper, line, REFUSING).0
      && u.toHelper == [] && u.toParent == [] && !u.waiting && !u.closed
      && u.sent == k.sent + 1 && u.log == k.log + [Exchange(u.sent, u.sent, Response(SaysMfa))]
  {
    hide HelperStep, Validates;
  }

  lemma FreshLink()
    ensures Talk([]) == NEW_LINK
  {
  }

  /**
   * The third refusal asks for another code that nobody will read: the helper has exited, and the parent, which has
   * received the request for a code, does not know it.
   */
  lemma ThirdRefusalIsLast()
    ensures var k := Talk(Refusals(MFA_ATTEMPTS));
      k.helper.Gone? && !k.waiting && !k.closed && |k.log| == 1 + MFA_ATTEMPTS && Asked(k.log[MFA_ATTEMPTS])
  {
    hide Talk;
    Refuses(MFA_ATTEMPTS);
  }

  // ---- a helper that has exited ----

  /** What every conversation comes to that sends a request to an exited helper. */
  predicate Unanswered(before: Link, k: Link) {
    && k.helper.Gone? && k.toParent == []
    && (if k.waiting then k.log == before.log
        else k.closed && k.log == before.log + [Exchange(k.sent, k.sent, Failure)])
  }

  lemma {:induction false} GoneNeverAnswers(moves: seq<Move>, line: Line, noticed: bool, more: seq<Move>)
    requires var k := Talk(moves); k.helper.Gone? && !k.waiting && !k.closed
    ensures Unanswered(Talk(moves), Talk(moves + [Send(line, noticed)] + more))
    decreases |more|
  {
    hide Talk;
    var sent := moves + [Send(line, noticed)];
    if more == [] {
      assert sent + more == sent;
      TalkMore(moves, Send(line, noticed));
      TalkIsSound(moves);
    } else {
      var n := |more| - 1;
      GoneNeverAnswers(moves, line, noticed, more[..n]);
      assert sent + more == sent + more[..n] + [more[n]];
      TalkMore(sent + more[..n], more[n]);
      TalkIsSound(sent + more[..n]);
    }
  }

  /** However the conversation goes on, a request sent to an exited helper is the last, and ends in failure if it ends. */
  lemma ExitedHelperFails(moves: seq<Move>, line: Line, noticed: bool, more: seq<Move>)
    requires var k := Talk(moves); k.helper.Gone? && !k.waiting && !k.closed
    ensures var (k, u) := (Talk(moves), Talk(moves + [Send(line, noticed)] + more));
      && |u.log| <= |k.log| + 1
      && (|u.log| == |k.log| + 1 ==> u.log[|k.log|].answer == Failure)
      && Act(u, GiveUp).closed && |Act(u, GiveUp).log| == |k.log| + 1
  {
    hide Talk;
    GoneNeverAnswers(moves, line, noticed, more);
  }
}
