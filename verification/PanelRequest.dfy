/**
 One authenticated call to the panel: a rejected API token is dropped for good, a stale
 session is renewed, and a request is sent again only after an answer that refused it.
 */
module PanelRequest {
  import opened Results
  import opened Sums

  datatype Body = NotJson | Envelope(success: bool, msg: string, obj: string)

  datatype Reply = Reply(status: int, body: Body)

  /**
   One request and its answer, if one arrived; `took` says whether the request had its effect.
   `issued` and `logins` count the CSRF tokens that the panel had given out and the logins
   that had begun when the request was sent.
   */
  datatype Exchange = Exchange(token: string, csrf: string, answer: Option<Reply>, took: bool, issued: nat, logins: nat)

  datatype CallError = Broken | Refused(status: int) | Malformed | Declined(msg: string)

  datatype Credentials = Credentials(token: string, csrf: string)

  // --- what an answer means -------------------------------------------------

  function Lower(s: string): string {
    seq(|s|, i requires 0 <= i < |s| => if 'A' <= s[i] <= 'Z' then (s[i] as int + 32) as char else s[i])
  }

  predicate ContainsAt(s: string, part: string, i: int) {
    0 <= i <= |s| - |part| && s[i..i + |part|] == part
  }

  predicate Contains(s: string, part: string) {
    exists i | 0 <= i <= |s| :: ContainsAt(s, part, i)
  }

  const CSRF_HINTS := ["csrf", "invalid token", "token mismatch", "expired"]

  predicate IsStaleCsrf(msg: string) {
    exists i | 0 <= i < |CSRF_HINTS| :: Contains(Lower(msg), CSRF_HINTS[i])
  }

  predicate IsOk(status: int) {
    200 <= status < 300
  }

  predicate Accepted(reply: Reply) {
    IsOk(reply.status) && reply.body.Envelope? && reply.body.success
  }

  /** The panel says that it did not carry out the request. */
  predicate Rejected(reply: Reply) {
    reply.status in {401, 403, 419} || (reply.body.Envelope? && !reply.body.success)
  }

  predicate DropsToken(x: Exchange) {
    x.token != "" && x.answer.Some? && x.answer.value.status in {401, 403}
  }

  predicate DeclinedAsStale(reply: Reply) {
    IsOk(reply.status) && reply.body.Envelope? && !reply.body.success && IsStaleCsrf(reply.body.msg)
  }

  /** The answers after which the request is sent once more. */
  predicate Retried(x: Exchange) {
    && x.answer.Some?
    && if x.token != "" then x.answer.value.status in {401, 403}
       else x.answer.value.status in {401, 403, 419} || DeclinedAsStale(x.answer.value)
  }

  function Final(x: Exchange): Result<string, CallError> {
    match x.answer
    case None => Failure(Broken)
    case Some(reply) =>
      if !IsOk(reply.status) then Failure(Refused(reply.status))
      else
        match reply.body
        case NotJson => Failure(Malformed)
        case Envelope(success, msg, obj) => if success then Success(obj) else Failure(Declined(msg))
  }

  /** A panel that keeps to its answers: what it rejects has no effect, what it accepts has. */
  predicate Honest(x: Exchange) {
    x.answer.Some? ==> (Rejected(x.answer.value) ==> !x.took) && (Accepted(x.answer.value) ==> x.took)
  }

  // --- one call -------------------------------------------------------------

  /**
   `sent` are the exchanges of one call that started with `token` and left `token'`. A call
   that cannot get its credentials ends early as Broken.
   */
  predicate Called(sent: seq<Exchange>, token: string, token': string, r: Result<string, CallError>) {
    match |sent|
    case 0 => token' == token && r == Failure(Broken)
    case 1 =>
      && sent[0].token == token
      && token' == (if DropsToken(sent[0]) then "" else token)
      && r == (if Retried(sent[0]) then Failure(Broken) else Final(sent[0]))
    case 2 =>
      && sent[0].token == token
      && token' == (if DropsToken(sent[0]) then "" else token)
      && Retried(sent[0]) && sent[1].token == token' && r == Final(sent[1])
    case _ => false
  }

  predicate IssuedSince(issued: seq<string>, from: nat, csrf: string) {
    exists k | from <= k < |issued| :: issued[k] == csrf
  }

  /**
   What changed before a request was sent again: a dead session or a rejected token led to
   a login, and a session's write carries a CSRF token that was given out after the refusal.
   */
  predicate Renewed(sent: seq<Exchange>, issued: seq<string>, unsafe: bool) {
    |sent| == 2 && sent[0].answer.Some? ==>
      && (DropsToken(sent[0]) || sent[0].answer.value.status in {401, 419} ==> sent[1].logins > sent[0].logins)
      && (unsafe && sent[1].token == "" ==> IssuedSince(issued, sent[0].issued, sent[1].csrf))
  }

  /** The four hints are looked for in the message without regard to case. */
  lemma StaleHints(msg: string)
    ensures IsStaleCsrf(msg) <==>
      var m := Lower(msg);
      Contains(m, "csrf") || Contains(m, "invalid token") || Contains(m, "token mismatch") || Contains(m, "expired")
  {
    assert CSRF_HINTS[0] == "csrf" && CSRF_HINTS[1] == "invalid token";
    assert CSRF_HINTS[2] == "token mismatch" && CSRF_HINTS[3] == "expired";
  }

  /** An answer that refused the request for its credentials. */
  predicate RefusesCredentials(token: string, reply: Reply) {
    || reply.status == 401 || reply.status == 403
    || (token == "" && reply.status == 419)
    || (token == "" && 200 <= reply.status < 300 && reply.body.Envelope? && !reply.body.success
        && IsStaleCsrf(reply.body.msg))
  }

  /**
   A call succeeds exactly if its last answer has a success status and an envelope that says so,
   and then it returns that envelope's object. It asks twice only after the credentials were refused.
   */
  lemma CallReports(sent: seq<Exchange>, token: string, token': string, r: Result<string, CallError>)
    requires Called(sent, token, token', r)
    ensures r.Success? <==>
      && sent != [] && sent[|sent| - 1].answer.Some?
      && (var reply := sent[|sent| - 1].answer.value;
          200 <= reply.status < 300 && reply.body.Envelope? && reply.body.success)
    ensures r.Success? ==> r.value == sent[|sent| - 1].answer.value.body.obj
    ensures r.Failure? && r.error.Refused? ==>
      && sent != [] && sent[|sent| - 1].answer.Some? && sent[|sent| - 1].answer.value.status == r.error.status
      && !(200 <= r.error.status < 300)
    ensures r.Failure? && r.error.Declined? ==>
      && sent != [] && sent[|sent| - 1].answer.Some? && sent[|sent| - 1].answer.value.body.Envelope?
      && sent[|sent| - 1].answer.value.body.msg == r.error.msg
    ensures |sent| == 2 ==> sent[0].answer.Some? && RefusesCredentials(token, sent[0].answer.value)
    ensures |sent| == 1 && sent[0].answer.Some? && RefusesCredentials(token, sent[0].answer.value) ==>
      r == Failure(Broken)
    ensures token' == (if token != "" && sent != [] && sent[0].answer.Some?
                          && (sent[0].answer.value.status == 401 || sent[0].answer.value.status == 403)
                       then "" else token)
  {
    if |sent| == 1 {
      assert sent[|sent| - 1] == sent[0];
    } else if |sent| == 2 {
      assert sent[|sent| - 1] == sent[1];
    }
  }

  const TOOK: Exchange -> int := (x: Exchange) => if x.took then 1 else 0

  /** How often the request took effect. */
  function Effects(sent: seq<Exchange>): int {
    Sum(sent, TOOK)
  }

  lemma SumOfOne(x: Exchange)
    ensures Effects([x]) == TOOK(x)
  {
    SumAppend([], x, TOOK);
    assert [] + [x] == [x];
  }

  lemma SumOfTwo(x: Exchange, y: Exchange)
    ensures Effects([x, y]) == TOOK(x) + TOOK(y)
  {
    SumOfOne(x);
    SumAppend([x], y, TOOK);
    assert [x] + [y] == [x, y];
  }

  /** A call has its effect at most once, and exactly once when it reports success. */
  lemma EffectAtMostOnce(sent: seq<Exchange>, token: string, token': string, r: Result<string, CallError>)
    requires Called(sent, token, token', r) && forall i | 0 <= i < |sent| :: Honest(sent[i])
    ensures 0 <= Effects(sent) <= 1
    ensures r.Success? ==> Effects(sent) == 1
  {
    if |sent| == 1 {
      assert sent == [sent[0]];
      SumOfOne(sent[0]);
    } else if |sent| == 2 {
      assert sent == [sent[0], sent[1]];
      SumOfTwo(sent[0], sent[1]);
    }
  }

  // --- a session of many calls ----------------------------------------------

  datatype Call = Call(sent: seq<Exchange>, before: string, after: string, r: Result<string, CallError>)

  /** Calls one after the other: each starts with the token that the previous one left. */
  predicate Session(calls: seq<Call>) {
    && (forall i | 0 <= i < |calls| :: Called(calls[i].sent, calls[i].before, calls[i].after, calls[i].r))
    && (forall i | 0 < i < |calls| :: calls[i].before == calls[i - 1].after)
  }

  /** A dropped token never comes back: every later request of the session goes without one. */
  lemma {:induction false} TokenNeverReturns(calls: seq<Call>, i: nat, j: nat)
    requires Session(calls) && i < j < |calls| && calls[i].after == ""
    ensures calls[j].before == "" && calls[j].after == ""
    ensures forall k | 0 <= k < |calls[j].sent| :: calls[j].sent[k].token == ""
    decreases j
  {
    if i + 1 < j {
      TokenNeverReturns(calls, i, j - 1);
    }
    assert calls[j].before == calls[j - 1].after;
    assert Called(calls[j].sent, calls[j].before, calls[j].after, calls[j].r);
  }

  const EFFECTS: Call -> int := (c: Call) => Effects(c.sent)
  const SUCCEEDED: Call -> int := (c: Call) => if c.r.Success? then 1 else 0
  const ONE: Call -> int := (c: Call) => 1

  lemma {:induction false} SumOfOnes(calls: seq<Call>)
    ensures Sum(calls, ONE) == |calls|
  {
    if calls != [] {
      SumOfOnes(calls[..|calls| - 1]);
    }
  }

  /** Over a session the panel carries out no more changes than there were calls, and none that succeeded is missing. */
  lemma EffectsMatchCalls(calls: seq<Call>)
    requires Session(calls)
    requires forall i, k | 0 <= i < |calls| && 0 <= k < |calls[i].sent| :: Honest(calls[i].sent[k])
    ensures Sum(calls, SUCCEEDED) <= Sum(calls, EFFECTS) <= |calls|
  {
    forall i | 0 <= i < |calls|
      ensures SUCCEEDED(calls[i]) <= EFFECTS(calls[i]) <= ONE(calls[i])
    {
      EffectAtMostOnce(calls[i].sent, calls[i].before, calls[i].after, calls[i].r);
    }
    SumOrdered(calls, SUCCEEDED, EFFECTS);
    SumOrdered(calls, EFFECTS, ONE);
    SumOfOnes(calls);
  }

  // --- the program ----------------------------------------------------------

  /** The panel's HTTP side: any answer is possible, and any request can break on the way. */
  class Server {
    ghost var log: seq<Exchange>
    ghost var issued: seq<string>
    ghost var logins: nat

    constructor ()
      ensures log == [] && issued == [] && logins == 0
    {
      log, issued, logins := [], [], 0;
    }

    method CsrfToken() returns (r: Result<string, CallError>)
      modifies this`issued
      ensures r.Failure? ==> r.error == Broken && issued == old(issued)
      ensures r.Success? ==> issued == old(issued) + [r.value]
    {
      var broken: bool := *;
      if broken { return Failure(Broken); }
      var token: string := *;
      issued := issued + [token];
      r := Success(token);
    }

    /** The visit that a login starts with. */
    method Visit()
      modifies this`logins
      ensures logins == old(logins) + 1
    {
      logins := logins + 1;
    }

    method LogIn(csrf: string) returns (ok: bool)
    {
      ok := *;
    }

    method Send(auth: Credentials) returns (answer: Option<Reply>)
      modifies this`log
      ensures |log| == |old(log)| + 1 && old(log) <= log
      ensures log[|old(log)|] == Exchange(auth.token, auth.csrf, answer, log[|old(log)|].took, |issued|, logins)
    {
      var status: int := *;
      var body: Body := *;
      var broken: bool := *;
      answer := if broken then None else Some(Reply(status, body));
      ghost var took: bool := *;
      ghost var x := Exchange(auth.token, auth.csrf, answer, took, |issued|, logins);
      log := log + [x];
      assert log == old(log) + [x];
    }
  }

  class XuiClient {
    var apiToken: string
    var csrf: string
    var loggedIn: bool
    const server: Server

    constructor (server: Server, apiToken: string)
      ensures this.server == server && this.apiToken == apiToken && csrf == "" && !loggedIn
    {
      this.server := server;
      this.apiToken := apiToken;
      csrf, loggedIn := "", false;
    }

    /** The cached CSRF token of the session, or a new one. */
    method CsrfToken() returns (r: Result<string, CallError>)
      modifies this`csrf, server`issued
      ensures old(server.issued) <= server.issued
      ensures old(csrf) != "" ==> r == Success(old(csrf)) && csrf == old(csrf) && server.issued == old(server.issued)
      ensures old(csrf) == "" && r.Success? ==> IssuedSince(server.issued, |old(server.issued)|, r.value)
      ensures r.Success? ==> csrf == r.value
      ensures r.Failure? ==> r.error == Broken && csrf == old(csrf)
    {
      if csrf != "" { return Success(csrf); }
      r := server.CsrfToken();
      if r.Success? {
        csrf := r.value;
        assert server.issued[|old(server.issued)|] == csrf;
      }
    }

    method Headers(unsafe: bool) returns (r: Result<Credentials, CallError>)
      modifies this`csrf, server`issued
      ensures old(server.issued) <= server.issued
      ensures r.Failure? ==> r.error == Broken
      ensures r.Success? ==> r.value.token == apiToken
      ensures r.Success? && apiToken == "" && unsafe ==>
        r.value.csrf == csrf
        && if old(csrf) != "" then csrf == old(csrf) else IssuedSince(server.issued, |old(server.issued)|, csrf)
      ensures apiToken != "" ==> r == Success(Credentials(apiToken, "")) && csrf == old(csrf)
    {
      if apiToken != "" { return Success(Credentials(apiToken, "")); }
      if !unsafe { return Success(Credentials("", "")); }
      var token :- CsrfToken();
      r := Success(Credentials("", token));
    }

    /** Log in with username and password; the CSRF token of the anonymous session is not kept. */
    method LogIn() returns (ok: bool)
      modifies this`csrf, this`loggedIn, server`issued, server`logins
      ensures old(server.issued) <= server.issued && server.logins == old(server.logins) + 1
      ensures csrf == "" || IssuedSince(server.issued, |old(server.issued)|, csrf)
      ensures ok ==> loggedIn && csrf == ""
      ensures !ok ==> loggedIn == old(loggedIn)
    {
      csrf := "";
      server.Visit();
      var token := CsrfToken();
      if token.Failure? { return false; }
      ok := server.LogIn(token.value);
      if ok {
        csrf := "";
        loggedIn := true;
      }
    }

    /** _request: two attempts, of which the second always ends the call. */
    method Request(unsafe: bool) returns (r: Result<string, CallError>)
      modifies this, server
      ensures old(server.log) <= server.log
      ensures Called(server.log[|old(server.log)|..], old(apiToken), apiToken, r)
      ensures Renewed(server.log[|old(server.log)|..], server.issued, unsafe)
    {
      ghost var sent: seq<Exchange> := [];
      for attempt := 0 to 2
        invariant server.log == old(server.log) + sent && |sent| == attempt
        invariant attempt == 0 ==> apiToken == old(apiToken)
        invariant attempt == 1 ==>
          (sent[0].token == old(apiToken) && Retried(sent[0])
           && apiToken == (if DropsToken(sent[0]) then "" else old(apiToken))
           && sent[0].issued <= |server.issued|
           && (csrf == "" || IssuedSince(server.issued, sent[0].issued, csrf))
           && (DropsToken(sent[0]) || sent[0].answer.value.status in {401, 419} ==> server.logins > sent[0].logins))
        invariant attempt < 2
      {
        var auth :- Headers(unsafe);
        var answer := server.Send(auth);
        sent := sent + [server.log[|server.log| - 1]];
        if answer.None? { return Failure(Broken); }
        var reply := answer.value;
        if attempt == 0 {
          if apiToken != "" && reply.status in {401, 403} {
            apiToken, csrf := "", "";
            var _ := LogIn();
            continue;
          }
          if apiToken == "" {
            if reply.status == 401 || reply.status == 419 {
              var _ := LogIn();
              continue;
            }
            if reply.status == 403 {
              csrf := "";
              continue;
            }
          }
        }
        if !IsOk(reply.status) { return Failure(Refused(reply.status)); }
        if reply.body.NotJson? { return Failure(Malformed); }
        if !reply.body.success {
          if attempt == 0 && apiToken == "" && IsStaleCsrf(reply.body.msg) {
            csrf := "";
            continue;
          }
          return Failure(Declined(reply.body.msg));
        }
        return Success(reply.body.obj);
      }
    }
  }
}
