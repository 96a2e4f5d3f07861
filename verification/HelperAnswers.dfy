/** What each answer of the provider process means: the request or code it is for, and how Apple took it. */
module HelperAnswers {
  import opened Text
  import opened SignIn
  import opened HelperProtocol

  // ---- requests and codes ----

  /** A request the helper can use: a probe, or a sign-in with a text as password, for an account that is not blank. */
  predicate ReadsRequest(line: Line) {
    && line.Object? && (line.operation == "probe" || (line.operation == "authenticate" && line.passwordUsable))
    && line.account.Some? && exists k :: 0 <= k < |line.account.value| && !IsSpace(line.account.value[k])
  }

  predicate ReadsCode(line: Line) {
    line.Object? && line.operation == "mfa" && line.code.Some?
  }

  /** The code has six digits and Apple accepts it. */
  predicate RightCode(line: Line, w: World)
    requires ReadsCode(line)
  {
    |line.code.value| == 6 && (forall x :: x in line.code.value ==> w.isDigit(x)) && w.accepts
  }

  /** The name under which the helper writes a state. */
  function Name(state: ProviderState): string {
    match state
    case SaysAuthenticated => "authenticated"
    case SaysRequired => "authentication_required"
    case SaysMfa => "mfa_required"
    case SaysFailed => "authentication_failed"
    case SaysExpired => "session_expired"
    case SaysUnavailable => "provider_unavailable"
  }

  predicate LoginRaises(w: World, names: set<string>) {
    w.login.Raises? && w.login.name in names
  }

  const WANTS_SIGN_IN := {"PyiCloudNoStoredPasswordAvailableException", "PyiCloud2SARequiredException"}
  const REJECTED := {"PyiCloudFailedLoginException", "PyiCloudFailedMFAException"}
  const EXPIRED := {"PyiCloudAPIResponseException"}

  /** When the answer to a request line is this state. */
  predicate RequestDeserves(line: Line, w: World, state: ProviderState) {
    match state
    case SaysAuthenticated => ReadsRequest(line) && w.login.SignedIn?
    case SaysMfa => ReadsRequest(line) && line.operation == "authenticate" && w.login.ModernMfa?
    case SaysRequired =>
      && ReadsRequest(line)
      && (w.login.NoData? || (line.operation == "probe" && w.login.ModernMfa?) || LoginRaises(w, WANTS_SIGN_IN))
    case SaysFailed => ReadsRequest(line) && (w.login.LegacyVerification? || LoginRaises(w, REJECTED))
    case SaysExpired => ReadsRequest(line) && LoginRaises(w, EXPIRED)
    case SaysUnavailable =>
      !ReadsRequest(line) || (w.login.Raises? && w.login.name !in WANTS_SIGN_IN + REJECTED + EXPIRED)
  }

  /** When the answer to a code line is this state. */
  predicate CodeDeserves(line: Line, w: World, state: ProviderState) {
    match state
    case SaysAuthenticated => ReadsCode(line) && RightCode(line, w)
    case SaysMfa => ReadsCode(line) && !RightCode(line, w)
    case SaysUnavailable => !ReadsCode(line)
    case _ => false
  }

  /** When the answer to the n-th line, counted from zero, is this state. */
  predicate Deserves(n: nat, line: Line, w: World, state: ProviderState) {
    if n == 0 then RequestDeserves(line, w, state) else CodeDeserves(line, w, state)
  }

  // ---- what the helper writes ----

  lemma {:induction false} BlankStripsToNothing(s: string)
    ensures Strip(s) != "" <==> exists k :: 0 <= k < |s| && !IsSpace(s[k])
  {
    TrimStartBlank(s);
    TrimStartEnds(s);
    if TrimStart(s) != "" { TrimEndKeeps(TrimStart(s)); }
    hide IsSpace;
  }

  lemma {:induction false} TrimStartBlank(s: string)
    ensures TrimStart(s) != "" <==> exists k :: 0 <= k < |s| && !IsSpace(s[k])
  {
    hide IsSpace;
    if s != "" && IsSpace(s[0]) {
      TrimStartBlank(s[1..]);
      if k :| 0 <= k < |s| && !IsSpace(s[k]) { assert s[1..][k - 1] == s[k]; }
    }
  }

  lemma {:induction false} TrimEndKeeps(s: string)
    requires s != "" && !IsSpace(s[0])
    ensures TrimEnd(s) != ""
  {
    if IsSpace(s[|s| - 1]) { TrimEndKeeps(s[..|s| - 1]); }
  }

  lemma ReadsAsUsable(line: Line)
    ensures UsableFirst(line) <==> ReadsRequest(line)
  {
    if line.Object? && line.account.Some? { BlankStripsToNothing(line.account.value); }
    hide Strip, IsSpace;
  }

  lemma RightIsAccepted(line: Line, w: World)
    requires ReadsCode(line)
    ensures RightCode(line, w) <==> SixDigits(line.code.value, w.isDigit) && w.accepts
  {
    var code := line.code.value;
    if SixDigits(code, w.isDigit) {
      forall x | x in code ensures w.isDigit(x) {
        var k :| 0 <= k < |code| && code[k] == x;
      }
    } else if |code| == 6 {
      var k :| 0 <= k < 6 && !w.isDigit(code[k]);
      assert code[k] in code;
    }
  }

  /** The names differ in length, but for the two of 21 characters. */
  lemma NamesDiffer(a: ProviderState, b: ProviderState)
    ensures Name(a) == Name(b) <==> a == b
  {
    assert |Name(SaysFailed)| == 21 && |Name(SaysUnavailable)| == 20;
    assert Name(SaysUnavailable)[0] == 'p' && Name(SaysFailed)[0] == 'a';
  }

  lemma FirstWrites(line: Line, w: World, state: ProviderState)
    ensures FirstAnswer(line, w.login).1 == Name(state) <==> RequestDeserves(line, w, state)
  {
    hide FirstAnswer, RequestDeserves, Name;
    var written := FirstState(line, w);
    NamesDiffer(written, state);
    if RequestDeserves(line, w, state) { OneRequestAnswer(line, w, written, state); }
  }

  lemma OneRequestAnswer(line: Line, w: World, a: ProviderState, b: ProviderState)
    requires RequestDeserves(line, w, a) && RequestDeserves(line, w, b)
    ensures a == b
  {
  }

  lemma FirstState(line: Line, w: World) returns (state: ProviderState)
    ensures RequestDeserves(line, w, state) && FirstAnswer(line, w.login).1 == Name(state)
  {
    ReadsAsUsable(line);
    hide UsableFirst, ReadsRequest;
    if !ReadsRequest(line) { return SaysUnavailable; }
    ReadsSignIn(line);
    match w.login {
      case Raises(name, _) =>
        state := if name in WANTS_SIGN_IN then SaysRequired
                 else if name in REJECTED then SaysFailed
                 else if name in EXPIRED then SaysExpired
                 else SaysUnavailable;
      case NoData => state := SaysRequired;
      case LegacyVerification => state := SaysFailed;
      case ModernMfa => state := if line.operation == "probe" then SaysRequired else SaysMfa;
      case SignedIn => state := SaysAuthenticated;
    }
  }

  lemma ReadsSignIn(line: Line)
    requires ReadsRequest(line)
    ensures line.Object? && (line.operation == "probe" || line.operation == "authenticate")
  {
  }

  lemma CodeWrites(left: nat, line: Line, w: World, state: ProviderState)
    ensures CodeAnswer(left, line, w).1 == Name(state) <==> CodeDeserves(line, w, state)
  {
    if ReadsCode(line) { RightIsAccepted(line, w); }
    NamesDiffer(SaysAuthenticated, state);
    NamesDiffer(SaysMfa, state);
    NamesDiffer(SaysUnavailable, state);
    hide RightCode, SixDigits;
  }

  lemma StepWrites(n: nat, h: Helper, line: Line, w: World, state: ProviderState)
    requires !h.Gone? && (n == 0 <==> h.Fresh?)
    ensures HelperStep(h, line, w).1 == Name(state) <==> Deserves(n, line, w, state)
  {
    hide FirstAnswer, CodeAnswer, RequestDeserves, CodeDeserves, Name;
    if h.Fresh? { FirstWrites(line, w, state); } else { CodeWrites(h.left, line, w, state); }
  }

  // ---- what the parent reads ----

  /** The lines the parent has sent. */
  function Sent(moves: seq<Move>): seq<Line> {
    if moves == [] then []
    else
      var (before, m) := (Sent(moves[..|moves| - 1]), moves[|moves| - 1]);
      var k := Talk(moves[..|moves| - 1]);
      if m.Send? && !k.waiting && !k.closed then before + [m.line] else before
  }

  /** How the world took the lines that the helper has worked on. */
  function Met(moves: seq<Move>): seq<World> {
    if moves == [] then []
    else
      var (before, m) := (Met(moves[..|moves| - 1]), moves[|moves| - 1]);
      var k := Talk(moves[..|moves| - 1]);
      if m.Work? && !k.helper.Gone? && k.toHelper != [] then before + [m.world] else before
  }

  /** Every answer, read or still on its way, is the one that its own line deserves. */
  ghost predicate Answering(k: Link, lines: seq<Line>, worlds: seq<World>) {
    && |lines| == k.sent && |worlds| == k.written
    && (!k.closed ==> k.written == |k.log| + |k.toParent| && (k.helper.Fresh? <==> k.written == 0))
    && (k.helper.Fresh? ==> k.written == 0)
    && (forall i :: 0 <= i < |k.toHelper| ==> 1 <= k.toHelper[i].0 <= |lines| && k.toHelper[i].1 == lines[k.toHelper[i].0 - 1])
    && (forall i, x :: 0 <= i < |k.toParent| && 1 <= k.toParent[i].0 <= |lines| && k.toParent[i].0 <= |worlds| ==>
          var n := k.toParent[i].0 - 1; k.toParent[i].1 == Name(x) <==> Deserves(n, lines[n], worlds[n], x))
    && (forall i, x :: 0 <= i < |k.log| && k.log[i].answer.Response? && i < |lines| ==>
          i < |worlds| && (k.log[i].answer == Response(x) <==> Deserves(i, lines[i], worlds[i], x)))
  }

  lemma AcceptsNames(state: string, x: ProviderState)
    requires Accept(state).Response?
    ensures Accept(state) == Response(x) <==> state == Name(x)
  {
    NamesDiffer(SaysAuthenticated, x);
    NamesDiffer(SaysRequired, x);
    NamesDiffer(SaysMfa, x);
    NamesDiffer(SaysFailed, x);
    NamesDiffer(SaysExpired, x);
    NamesDiffer(SaysUnavailable, x);
  }

  lemma WorkAnswers(k: Link, w: World, lines: seq<Line>, worlds: seq<World>)
    requires Lockstep(k) && Answering(k, lines, worlds) && !k.helper.Gone? && k.toHelper != []
    ensures Answering(Act(k, Work(w)), lines, worlds + [w])
  {
    hide HelperStep, Deserves, Name, Validates, Accept;
    var (number, line) := k.toHelper[0];
    assert k.waiting && !k.closed && k.toParent == [] && number == k.sent && k.written == k.sent - 1;
    forall x ensures HelperStep(k.helper, line, w).1 == Name(x) <==> Deserves(number - 1, line, w, x) {
      StepWrites(number - 1, k.helper, line, w, x);
    }
    StepLeavesFresh(k.helper, line, w);
  }

  lemma ReceiveAnswers(k: Link, lines: seq<Line>, worlds: seq<World>)
    requires Lockstep(k) && Answering(k, lines, worlds) && k.waiting && k.toParent != []
    ensures Answering(Act(k, Receive), lines, worlds)
  {
    hide Deserves, Name, Accept;
    var (number, state) := k.toParent[0];
    assert number == k.sent && k.written == k.sent && Accept(state).Response?;
    forall x ensures Accept(state) == Response(x) <==> Deserves(number - 1, lines[number - 1], worlds[number - 1], x) {
      AcceptsNames(state, x);
    }
  }

  lemma OtherwiseAnswers(k: Link, m: Move, lines: seq<Line>, worlds: seq<World>)
    requires Lockstep(k) && Answering(k, lines, worlds) && (m.Send? || m.GiveUp?)
    ensures Answering(Act(k, m), if m.Send? && !k.waiting && !k.closed then lines + [m.line] else lines, worlds)
  {
    hide Deserves, Name, Accept;
  }

  lemma {:induction false} TalkAnswers(moves: seq<Move>)
    ensures Answering(Talk(moves), Sent(moves), Met(moves))
  {
    hide Act, Lockstep, Bounded, Answering;
    if moves == [] {
      NewLinkAnswers();
    } else {
      var before := moves[..|moves| - 1];
      var m := moves[|moves| - 1];
      TalkAnswers(before);
      TalkIsSound(before);
      var k := Talk(before);
      match m {
        case Work(w) =>
          if k.helper.Gone? || k.toHelper == [] { NoMove(k, m); }
          else { WorkAnswers(k, w, Sent(before), Met(before)); }
        case Receive =>
          if !k.waiting || k.toParent == [] { NoMove(k, m); }
          else { ReceiveAnswers(k, Sent(before), Met(before)); }
        case _ => OtherwiseAnswers(k, m, Sent(before), Met(before));
      }
    }
  }

  lemma NoMove(k: Link, m: Move)
    requires (m.Work? && (k.helper.Gone? || k.toHelper == [])) || (m.Receive? && (!k.waiting || k.toParent == []))
    ensures Act(k, m) == k
  {
  }

  lemma NewLinkAnswers()
    ensures Answering(NEW_LINK, [], [])
  {
  }

  /**
   * In every conversation each answer that the parent has read is the one that its line deserves: the first line by how the
   * provider took the request, each later one by whether it holds a right code. In particular a sign-in that asked for a
   * code is answered `authenticated` exactly when that line holds six digits that Apple accepts.
   */
  lemma AnswersAreDeserved(moves: seq<Move>, i: nat, x: ProviderState)
    requires i < |Talk(moves).log| && Talk(moves).log[i].answer.Response?
    ensures i < |Sent(moves)| && i < |Met(moves)|
    ensures Talk(moves).log[i].answer == Response(x) <==>
      if i == 0 then RequestDeserves(Sent(moves)[0], Met(moves)[0], x) else CodeDeserves(Sent(moves)[i], Met(moves)[i], x)
  {
    hide Talk, Sent, Met, RequestDeserves, CodeDeserves;
    TalkAnswers(moves);
    TalkIsSound(moves);
  }
}
