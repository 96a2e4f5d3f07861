/** The helper program: its loop over the lines it reads, and what it writes for them. */
module HelperProgram {
  import opened SignIn
  import opened HelperProtocol
  import opened HelperAnswers

  /** What the helper reads next: a line, or the end of its input, which it cannot use. */
  function LineAt(lines: seq<Line>, n: nat): Line {
    if n < |lines| then lines[n] else Unreadable
  }

  /**
   * What the helper writes for these lines: each answer is the one that its line deserves, the first is the last unless it
   * asks for a code, and so is a later one unless it does, up to the third code.
   */
  ghost predicate Conversation(lines: seq<Line>, worlds: nat -> World, output: seq<string>) {
    && 1 <= |output| <= 4
    && (forall x :: output[0] == Name(x) <==> RequestDeserves(LineAt(lines, 0), worlds(0), x))
    && (forall n: nat, x :: 1 <= n < |output| ==> (output[n] == Name(x) <==> CodeDeserves(LineAt(lines, n), worlds(n), x)))
    && (forall n: nat :: n < |output| ==> (n < |output| - 1 <==> output[n] == Name(SaysMfa) && n < 3))
  }

  /** The n-th line is a code that the helper refuses. */
  predicate Refused(lines: seq<Line>, worlds: nat -> World, n: nat) {
    ReadsCode(LineAt(lines, n)) && !RightCode(LineAt(lines, n), worlds(n))
  }

  /** The request signs in by itself, or asks for a code and one of the next three lines is the right one. */
  ghost predicate SignsIn(lines: seq<Line>, worlds: nat -> World) {
    && ReadsRequest(LineAt(lines, 0))
    && (|| worlds(0).login.SignedIn?
        || (&& worlds(0).login.ModernMfa? && LineAt(lines, 0).operation == "authenticate"
            && exists m: nat :: 1 <= m <= 3 && ReadsCode(LineAt(lines, m)) && RightCode(LineAt(lines, m), worlds(m))
                 && forall j: nat :: 1 <= j < m ==> Refused(lines, worlds, j)))
  }

  /**
   * The helper program reads one request, then up to three codes, and an input that ends early as an unusable line. It
   * always exits, having written for each line the state it deserves, and its last word is `authenticated` exactly when
   * the provider took the request without a code, or one of the three lines after it holds a right code and those before
   * that only refused ones.
   */
  method RunHelper(lines: seq<Line>, worlds: nat -> World) returns (output: seq<string>)
    ensures Conversation(lines, worlds, output)
    ensures output[|output| - 1] == "authenticated" <==> SignsIn(lines, worlds)
  {
    hide FirstAnswer, CodeAnswer, RequestDeserves, CodeDeserves, ReadsRequest, ReadsCode, RightCode, Name, SignsIn;
    var (left, state) := FirstAnswer(LineAt(lines, 0), worlds(0).login);
    output := [state];
    FirstEnds(LineAt(lines, 0), worlds(0));
    forall x ensures state == Name(x) <==> RequestDeserves(LineAt(lines, 0), worlds(0), x) {
      FirstWrites(LineAt(lines, 0), worlds(0), x);
    }
    for attempt := 0 to MFA_ATTEMPTS
      invariant 1 <= |output| <= attempt + 1
      invariant left == Gone || (left == Codes(MFA_ATTEMPTS - attempt) && |output| == attempt + 1 && attempt < MFA_ATTEMPTS)
      invariant forall x :: output[0] == Name(x) <==> RequestDeserves(LineAt(lines, 0), worlds(0), x)
      invariant forall n: nat, x :: 1 <= n < |output| ==> (output[n] == Name(x) <==> CodeDeserves(LineAt(lines, n), worlds(n), x))
      invariant forall n: nat :: n < |output| - 1 ==> output[n] == Name(SaysMfa)
      invariant left.Codes? ==> output[|output| - 1] == Name(SaysMfa)
      invariant left.Gone? ==> output[|output| - 1] != Name(SaysMfa) || |output| == 4
    {
      if left.Gone? { break; }
      var n := |output|;
      var (after, reply) := CodeAnswer(left.left, LineAt(lines, n), worlds(n));
      CodeEnds(left.left, LineAt(lines, n), worlds(n));
      forall x ensures reply == Name(x) <==> CodeDeserves(LineAt(lines, n), worlds(n), x) {
        CodeWrites(left.left, LineAt(lines, n), worlds(n), x);
      }
      output := output + [reply];
      left := after;
    }
    LastWord(lines, worlds, output);
  }

  lemma FirstEnds(line: Line, w: World)
    ensures var (h, state) := FirstAnswer(line, w.login);
      (h == Gone && state != Name(SaysMfa)) || (h == Codes(MFA_ATTEMPTS) && state == Name(SaysMfa))
  {
    hide UsableFirst;
  }

  lemma CodeEnds(left: nat, line: Line, w: World)
    ensures var (h, state) := CodeAnswer(left, line, w);
      if state == Name(SaysMfa) then h == (if left <= 1 then Gone else Codes(left - 1)) else h == Gone
  {
    hide UsableCode, SixDigits;
  }

  lemma CodeMeans(lines: seq<Line>, worlds: nat -> World, output: seq<string>, n: nat)
    requires Conversation(lines, worlds, output) && 1 <= n < |output|
    ensures output[n] == "authenticated" <==> ReadsCode(LineAt(lines, n)) && RightCode(LineAt(lines, n), worlds(n))
    ensures output[n] == "mfa_required" <==> Refused(lines, worlds, n)
  {
    hide ReadsCode, RightCode;
    assert output[n] == Name(SaysAuthenticated) <==> CodeDeserves(LineAt(lines, n), worlds(n), SaysAuthenticated);
    assert output[n] == Name(SaysMfa) <==> CodeDeserves(LineAt(lines, n), worlds(n), SaysMfa);
  }

  lemma RequestMeans(lines: seq<Line>, worlds: nat -> World, output: seq<string>)
    requires Conversation(lines, worlds, output)
    ensures var (line, w) := (LineAt(lines, 0), worlds(0));
      && (output[0] == "authenticated" <==> ReadsRequest(line) && w.login.SignedIn?)
      && (output[0] == "mfa_required" <==> ReadsRequest(line) && line.operation == "authenticate" && w.login.ModernMfa?)
  {
    hide ReadsRequest;
    assert output[0] == Name(SaysAuthenticated) <==> RequestDeserves(LineAt(lines, 0), worlds(0), SaysAuthenticated);
    assert output[0] == Name(SaysMfa) <==> RequestDeserves(LineAt(lines, 0), worlds(0), SaysMfa);
  }

  lemma LastWord(lines: seq<Line>, worlds: nat -> World, output: seq<string>)
    requires Conversation(lines, worlds, output)
    ensures output[|output| - 1] == "authenticated" <==> SignsIn(lines, worlds)
  {
    hide Conversation, ReadsCode, RightCode, ReadsRequest;
    var last := |output| - 1;
    assert 1 <= |output| <= 4 && forall n: nat :: n < |output| ==> (n < last <==> output[n] == "mfa_required" && n < 3) by {
      WordsBefore(lines, worlds, output);
    }
    RequestMeans(lines, worlds, output);
    forall n: nat | 1 <= n < |output|
      ensures output[n] == "authenticated" <==> ReadsCode(LineAt(lines, n)) && RightCode(LineAt(lines, n), worlds(n))
      ensures output[n] == "mfa_required" <==> Refused(lines, worlds, n)
    {
      CodeMeans(lines, worlds, output, n);
    }
    if output[last] == "authenticated" && last > 0 {
      assert output[0] == "mfa_required";
      forall j: nat | 1 <= j < last ensures Refused(lines, worlds, j) {
        assert output[j] == "mfa_required";
      }
    }
    if SignsIn(lines, worlds) && !worlds(0).login.SignedIn? {
      var m: nat :| 1 <= m <= 3 && ReadsCode(LineAt(lines, m)) && RightCode(LineAt(lines, m), worlds(m))
        && forall j: nat :: 1 <= j < m ==> Refused(lines, worlds, j);
      RightIsLast(lines, worlds, output, m);
    }
  }

  lemma WordsBefore(lines: seq<Line>, worlds: nat -> World, output: seq<string>)
    requires Conversation(lines, worlds, output)
    ensures 1 <= |output| <= 4
    ensures forall n: nat :: n < |output| ==> (n < |output| - 1 <==> output[n] == "mfa_required" && n < 3)
  {
  }

  /** The first right code gets the last word. */
  lemma RightIsLast(lines: seq<Line>, worlds: nat -> World, output: seq<string>, m: nat)
    requires Conversation(lines, worlds, output) && output[0] == "mfa_required"
    requires 1 <= m <= 3 && ReadsCode(LineAt(lines, m)) && RightCode(LineAt(lines, m), worlds(m))
    requires forall j: nat :: 1 <= j < m ==> Refused(lines, worlds, j)
    ensures |output| == m + 1 && output[m] == "authenticated"
  {
    hide Conversation, ReadsCode, RightCode, Refused;
    WordsBefore(lines, worlds, output);
    assert 0 < |output| - 1;
    if m > 1 { CodeMeans(lines, worlds, output, 1); }
    if m > 2 { CodeMeans(lines, worlds, output, 2); }
    assert m < |output|;
    CodeMeans(lines, worlds, output, m);
  }
}
