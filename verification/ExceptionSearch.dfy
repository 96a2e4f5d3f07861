/** The search for an Apple service code in an exception and everything linked to it, cycles included. */
module ExceptionSearch {
  import opened Text

  /** An attribute or JSON field that may hold a code: only texts and integers count. */
  datatype Code = NoCode | Code(text: string) | Number(value: int)

  datatype Entry = NotAnObject | ErrorEntry(code: Code)

  /** A field of the parsed reason: absent or empty values are skipped by `or`, a value that is no list is not. */
  datatype Field = Empty | List(entries: seq<Entry>) | OtherValue

  datatype Reason = NoPayload | Payload(serviceErrors: Field, service_errors: Field)

  /** An exception object; `links` are its cause, its context and the exceptions among its arguments, by object number. */
  datatype Failure = Failure(code: Code, reason: Reason, links: seq<nat>)

  function Digits(n: nat): string {
    if n < 10 then [(n + '0' as int) as char] else Digits(n / 10) + [(n % 10 + '0' as int) as char]
  }

  /** The code as text, if it begins with a minus sign. */
  function NegativeCode(c: Code): Option<string> {
    match c
    case NoCode => None
    case Code(text) => if text != "" && text[0] == '-' then Some(text) else None
    case Number(value) => if value < 0 then Some("-" + Digits(-value)) else None
  }

  function Errors(r: Reason): seq<Entry> {
    if r.NoPayload? then []
    else if r.serviceErrors.List? && r.serviceErrors.entries != [] then r.serviceErrors.entries
    else if r.serviceErrors.OtherValue? then []
    else if r.service_errors.List? then r.service_errors.entries
    else []
  }

  function EntryCode(e: Entry): Option<string> {
    if e.NotAnObject? then None else NegativeCode(e.code)
  }

  function FirstEntryCode(es: seq<Entry>): Option<string> {
    if es == [] then None else if EntryCode(es[0]).Some? then EntryCode(es[0]) else FirstEntryCode(es[1..])
  }

  /** The code that one exception carries itself. */
  function OwnCode(f: Failure): Option<string> {
    if NegativeCode(f.code).Some? then NegativeCode(f.code) else FirstEntryCode(Errors(f.reason))
  }

  lemma {:induction false} FirstEntryIsFirst(es: seq<Entry>, k: nat)
    requires k < |es| && EntryCode(es[k]).Some? && forall j :: 0 <= j < k ==> EntryCode(es[j]).None?
    ensures FirstEntryCode(es) == EntryCode(es[k])
  {
    if k > 0 { FirstEntryIsFirst(es[1..], k - 1); }
  }

  lemma {:induction false} NoEntryCode(es: seq<Entry>)
    ensures FirstEntryCode(es).None? <==> forall j :: 0 <= j < |es| ==> EntryCode(es[j]).None?
  {
    if es != [] {
      NoEntryCode(es[1..]);
      assert forall j :: 0 < j < |es| ==> es[j] == es[1..][j - 1];
    }
  }

  // ---- what a code is ----

  /** Read a text of decimal digits. */
  function Reading(s: string): nat {
    if s == "" then 0 else 10 * Reading(s[..|s| - 1]) + if '0' <= s[|s| - 1] <= '9' then s[|s| - 1] as int - '0' as int else 0
  }

  /** Decimal notation: digits without a leading zero that read as the number. */
  lemma {:induction false} DigitsAreDecimal(n: nat)
    ensures var s := Digits(n);
      && s != "" && (forall k :: 0 <= k < |s| ==> '0' <= s[k] <= '9') && (n > 0 ==> s[0] != '0') && Reading(s) == n
  {
    if n < 10 {
      var s := Digits(n);
      assert s[..0] == "" && Reading(s) == 10 * Reading(s[..0]) + n;
    } else {
      DigitsAreDecimal(n / 10);
      var front := Digits(n / 10);
      assert Digits(n)[..|front|] == front;
    }
  }

  /** The value is this text, which begins with a minus sign, or a negative number that the text denotes. */
  predicate Carries(c: Code, text: string) {
    || (c.Code? && c.text == text && text != "" && text[0] == '-')
    || (c.Number? && c.value < 0 && text == "-" + Digits(-c.value))
  }

  predicate EntryCarries(e: Entry, text: string) {
    e.ErrorEntry? && Carries(e.code, text)
  }

  /** The error list that is looked through: the first of the two fields, or the second when the first is empty. */
  predicate Lists(r: Reason, es: seq<Entry>) {
    && r.Payload? && es != []
    && (r.serviceErrors == List(es) ||
        ((r.serviceErrors.Empty? || r.serviceErrors == List([])) && r.service_errors == List(es)))
  }

  /** The k-th entry is the first one that carries a code. */
  ghost predicate FirstCarrying(es: seq<Entry>, k: nat) {
    && k < |es| && (exists text :: EntryCarries(es[k], text))
    && forall j, text :: 0 <= j < k ==> !EntryCarries(es[j], text)
  }

  lemma EntryCodeMeans(e: Entry, text: string)
    ensures EntryCode(e) == Some(text) <==> EntryCarries(e, text)
    ensures EntryCode(e).Some? ==> EntryCarries(e, EntryCode(e).value)
  {
    hide Digits;
  }

  lemma ListsErrors(r: Reason, es: seq<Entry>)
    ensures Lists(r, es) <==> Errors(r) == es && es != []
  {
  }

  /** The first entry with a code decides a list. */
  lemma FirstCodeMeans(es: seq<Entry>, text: string)
    ensures FirstEntryCode(es) == Some(text) <==> exists k: nat :: FirstCarrying(es, k) && EntryCarries(es[k], text)
  {
    hide EntryCode, EntryCarries;
    forall e, x ensures EntryCode(e) == Some(x) <==> EntryCarries(e, x) { EntryCodeMeans(e, x); }
    NoEntryCode(es);
    if k: nat :| FirstCarrying(es, k) {
      forall j | 0 <= j < k ensures EntryCode(es[j]).None? { CarriesNothing(es[j]); }
      FirstEntryIsFirst(es, k);
      forall m: nat | FirstCarrying(es, m) ensures m == k { OneFirst(es, k, m); }
    } else if FirstEntryCode(es).Some? {
      var k := FirstWithCode(es);
      FirstCarries(es, k);
    }
  }

  lemma CarriesNothing(e: Entry)
    requires forall text :: !EntryCarries(e, text)
    ensures EntryCode(e).None?
  {
    hide EntryCode, EntryCarries;
    EntryCodeMeans(e, EntryCode(e).GetOr(""));
  }

  lemma FirstCarries(es: seq<Entry>, k: nat)
    requires k < |es| && EntryCode(es[k]).Some? && forall j :: 0 <= j < k ==> EntryCode(es[j]).None?
    ensures FirstCarrying(es, k)
  {
    hide EntryCode, EntryCarries;
    EntryCodeMeans(es[k], EntryCode(es[k]).value);
    forall j, text | 0 <= j < k ensures !EntryCarries(es[j], text) { EntryCodeMeans(es[j], text); }
  }

  lemma OneFirst(es: seq<Entry>, k: nat, m: nat)
    requires FirstCarrying(es, k) && FirstCarrying(es, m)
    ensures k == m
  {
  }

  lemma {:induction false} FirstWithCode(es: seq<Entry>) returns (k: nat)
    requires FirstEntryCode(es).Some?
    ensures k < |es| && EntryCode(es[k]).Some? && forall j :: 0 <= j < k ==> EntryCode(es[j]).None?
  {
    hide EntryCode;
    if EntryCode(es[0]).Some? {
      k := 0;
    } else {
      k := FirstWithCode(es[1..]);
      k := k + 1;
    }
  }

  /**
   * The code of one exception is the text of its attribute, when that begins with a minus sign, and otherwise that of the
   * first entry that has such a code, in `serviceErrors`, or in `service_errors` when the former is empty.
   */
  lemma OwnCodeMeans(f: Failure, text: string)
    ensures OwnCode(f) == Some(text) <==>
      || Carries(f.code, text)
      || ((forall x :: !Carries(f.code, x)) &&
          exists es, k: nat :: Lists(f.reason, es) && FirstCarrying(es, k) && EntryCarries(es[k], text))
  {
    EntryCodeMeans(ErrorEntry(f.code), text);
    assert NegativeCode(f.code).Some? ==> Carries(f.code, NegativeCode(f.code).value) by {
      EntryCodeMeans(ErrorEntry(f.code), NegativeCode(f.code).GetOr(""));
    }
    forall x | Carries(f.code, x) ensures NegativeCode(f.code) == Some(x) { EntryCodeMeans(ErrorEntry(f.code), x); }
    hide NegativeCode, Carries, Errors, EntryCarries, FirstCarrying, Lists, FirstEntryCode;
    FirstCodeMeans(Errors(f.reason), text);
    ListsErrors(f.reason, Errors(f.reason));
    forall es | Lists(f.reason, es) ensures es == Errors(f.reason) { ListsErrors(f.reason, es); }
    if Errors(f.reason) == [] { NothingFirst(text); }
  }

  lemma NothingFirst(text: string)
    ensures FirstEntryCode([]) != Some(text)
  {
  }

  // ---- reachability ----

  predicate WellLinked(g: seq<Failure>) {
    forall x, k :: 0 <= x < |g| && 0 <= k < |g[x].links| ==> g[x].links[k] < |g|
  }

  predicate Linked(g: seq<Failure>, x: nat, y: nat) {
    x < |g| && y < |g| && y in g[x].links
  }

  ghost predicate IsPath(g: seq<Failure>, path: seq<nat>) {
    && path != [] && path[0] < |g|
    && (forall i, j :: 0 <= i && j == i + 1 && j < |path| ==> Linked(g, path[i], path[j]))
  }

  ghost predicate Reaches(g: seq<Failure>, start: nat, x: nat) {
    exists path :: IsPath(g, path) && path[0] == start && path[|path| - 1] == x
  }

  lemma ReachesItself(g: seq<Failure>, start: nat)
    requires start < |g|
    ensures Reaches(g, start, start)
  {
    assert IsPath(g, [start]);
  }

  lemma ReachesLink(g: seq<Failure>, start: nat, x: nat, k: nat)
    requires WellLinked(g) && Reaches(g, start, x) && x < |g| && k < |g[x].links|
    ensures Reaches(g, start, g[x].links[k])
  {
    var path :| IsPath(g, path) && path[0] == start && path[|path| - 1] == x;
    var longer := path + [g[x].links[k]];
    assert g[x].links[k] in g[x].links;
    assert IsPath(g, longer);
  }

  /** A set that holds the start and every link of its members holds everything reachable. */
  lemma {:induction false} ClosedHoldsPath(g: seq<Failure>, closed: set<nat>, path: seq<nat>, i: nat)
    requires IsPath(g, path) && path[0] in closed && i < |path|
    requires forall x, y :: x in closed && x < |g| && y in g[x].links ==> y in closed
    ensures path[i] in closed
  {
    if i > 0 {
      ClosedHoldsPath(g, closed, path, i - 1);
      assert Linked(g, path[i - 1], path[i]);
    }
  }

  lemma ClosedHoldsReachable(g: seq<Failure>, closed: set<nat>, start: nat, x: nat)
    requires start in closed && Reaches(g, start, x)
    requires forall x, y :: x in closed && x < |g| && y in g[x].links ==> y in closed
    ensures x in closed
  {
    var path :| IsPath(g, path) && path[0] == start && path[|path| - 1] == x;
    ClosedHoldsPath(g, closed, path, |path| - 1);
  }

  // ---- the search ----

  ghost function Numbers(n: nat): (all: set<nat>)
    ensures forall x: nat :: x in all <==> x < n
  {
    if n == 0 then {} else Numbers(n - 1) + {n - 1}
  }

  /** The code a single exception carries, as the loop body looks for it. */
  method FindOwnCode(f: Failure) returns (code: Option<string>)
    ensures code == OwnCode(f)
  {
    code := NegativeCode(f.code);
    if code.Some? { return; }
    var errors := Errors(f.reason);
    for k := 0 to |errors|
      invariant forall j :: 0 <= j < k ==> EntryCode(errors[j]).None?
    {
      code := EntryCode(errors[k]);
      if code.Some? {
        FirstEntryIsFirst(errors, k);
        return;
      }
    }
    NoEntryCode(errors);
    code := None;
  }

  /** What the worklist has established: everything visited is reachable, without a code, and its links are known. */
  ghost predicate Searched(g: seq<Failure>, start: nat, visited: set<nat>, pending: seq<nat>) {
    && (forall x :: x in visited ==> x < |g| && OwnCode(g[x]).None?)
    && (forall x :: x in visited ==> forall y :: y in g[x].links ==> y in visited || y in pending)
    && (forall k :: 0 <= k < |pending| ==> pending[k] < |g| && Reaches(g, start, pending[k]))
    && (start in visited || start in pending)
  }

  /**
   * The search ends on every finite graph, cyclic or not, and finds nothing exactly when nothing reachable carries a
   * negative code; the code of the exception itself comes first.
   */
  method AppleServiceErrorCode(g: seq<Failure>, start: nat) returns (code: Option<string>)
    requires WellLinked(g) && start < |g|
    ensures code.None? <==> forall x: nat :: Reaches(g, start, x) ==> x < |g| && OwnCode(g[x]).None?
    ensures code.Some? ==> exists x: nat :: Reaches(g, start, x) && x < |g| && OwnCode(g[x]) == code
    ensures OwnCode(g[start]).Some? ==> code == OwnCode(g[start])
  {
    hide OwnCode, Reaches;
    var pending := [start];
    var visited: set<nat> := {};
    ghost var all := Numbers(|g|);
    ReachesItself(g, start);
    while pending != []
      invariant Searched(g, start, visited, pending) && visited <= all
      invariant visited == {} ==> pending == [start]
      invariant visited != {} ==> start in visited
      decreases all - visited, |pending|
    {
      var current := pending[|pending| - 1];
      pending := pending[..|pending| - 1];
      if current in visited {
        continue;
      }
      code := FindOwnCode(g[current]);
      if code.Some? { return; }
      LinksReachable(g, start, current);
      assert current in all;
      visited := visited + {current};
      pending := pending + g[current].links;
    }
    forall x: nat | Reaches(g, start, x) ensures x < |g| && OwnCode(g[x]).None? {
      ClosedHoldsReachable(g, visited, start, x);
    }
    code := None;
  }

  lemma LinksReachable(g: seq<Failure>, start: nat, x: nat)
    requires WellLinked(g) && x < |g| && Reaches(g, start, x)
    ensures forall k :: 0 <= k < |g[x].links| ==> g[x].links[k] < |g| && Reaches(g, start, g[x].links[k])
  {
    forall k | 0 <= k < |g[x].links| ensures Reaches(g, start, g[x].links[k]) { ReachesLink(g, start, x, k); }
  }
}
