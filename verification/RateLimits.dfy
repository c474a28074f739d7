/** The in-memory rate limiter, and why dropping old stamps never changes an answer. */
module RateLimits {
  import opened Results

  /** Time is counted in microseconds. */
  const SECOND := 1_000_000
  const MAX_ENTRY_AGE_SECONDS := 3600
  const MAX_AGE := MAX_ENTRY_AGE_SECONDS * SECOND

  type Stamps = map<int, map<string, int>>

  datatype Answer = Granted | Wait(seconds: int)

  datatype Call =
    | Check(user: int, action: string, seconds: int, now: int)
    | Reset(user: int, what: string)

  function Stamp(m: Stamps, user: int, action: string): Option<int> {
    if user in m && action in m[user] then Some(m[user][action]) else None
  }

  function Recent(actions: map<string, int>, now: int): map<string, int> {
    map a | a in actions && actions[a] >= now - MAX_AGE :: actions[a]
  }

  function Prune(m: Stamps, now: int): Stamps {
    map u | u in m && Recent(m[u], now) != map[] :: Recent(m[u], now)
  }

  function Put(m: Stamps, user: int, action: string, now: int): Stamps {
    m[user := (if user in m then m[user] else map[])[action := now]]
  }

  /** The decision on a table of stamps, and the table after it. */
  function Decide(m: Stamps, user: int, action: string, seconds: int, now: int): (Stamps, Answer) {
    match Stamp(m, user, action)
    case None => (Put(m, user, action, now), Granted)
    case Some(last) =>
      if now - last >= seconds * SECOND then (Put(m, user, action, now), Granted)
      else (m, Wait((seconds * SECOND - (now - last)) / SECOND))
  }

  function Forget(m: Stamps, user: int, what: string): Stamps {
    if user !in m then m
    else if what != "" then m[user := m[user] - {what}]
    else m - {user}
  }

  /** Midway through the pruning: the users in `left` are as before, all others are done. */
  ghost predicate HalfPruned(before: Stamps, m: Stamps, left: set<int>, now: int) {
    && (forall u | u in left :: u in before && u in m && m[u] == before[u])
    && (forall u | u !in left :: u in m <==> u in Prune(before, now))
    && (forall u | u in m && u !in left :: m[u] == Prune(before, now)[u])
  }

  lemma HasMember(s: set<int>)
    requires s != {}
    ensures exists x :: x in s
  {
    if forall x :: x !in s {
      assert false;
    }
  }

  class RateLimiter {
    var actions: Stamps

    constructor ()
      ensures actions == map[]
    {
      actions := map[];
    }

    /** The inner loop: drop the old stamps of one user. */
    method PruneUser(user: int, now: int)
      requires user in actions
      modifies this
      ensures actions == old(actions)[user := Recent(old(actions)[user], now)]
    {
      var cutoff := now - MAX_AGE;
      var kept := actions[user];
      var names := kept.Keys;
      while names != {}
        invariant names <= old(actions)[user].Keys
        invariant forall a :: a in kept <==> a in old(actions)[user] && (a in names || old(actions)[user][a] >= cutoff)
        invariant forall a | a in kept :: kept[a] == old(actions)[user][a]
        decreases names
      {
        var a :| a in names;
        if kept[a] < cutoff {
          kept := kept - {a};
        }
        names := names - {a};
      }
      assert kept == Recent(actions[user], now);
      actions := actions[user := kept];
    }

    method PruneAll(now: int)
      modifies this
      ensures actions == Prune(old(actions), now)
    {
      var users: set<int> := actions.Keys;
      while users != {}
        invariant users <= old(actions).Keys
        invariant HalfPruned(old(actions), actions, users, now)
        decreases users
      {
        HasMember(users);
        var u :| u in users;
        PruneUser(u, now);
        if actions[u] == map[] {
          actions := actions - {u};
        }
        users := users - {u};
      }
      assert forall u :: u !in users;
      assert forall u :: u in actions <==> u in Prune(old(actions), now);
      assert forall u | u in actions :: actions[u] == Prune(old(actions), now)[u];
    }

    method CheckLimit(user: int, action: string, seconds: int, now: int) returns (answer: Answer)
      modifies this
      ensures (actions, answer) == Decide(Prune(old(actions), now), user, action, seconds, now)
    {
      PruneAll(now);
      if user !in actions {
        actions := actions[user := map[]];
      }
      if action !in actions[user] {
        actions := actions[user := actions[user][action := now]];
        assert actions == Put(Prune(old(actions), now), user, action, now);
        return Granted;
      }
      var passed := now - actions[user][action];
      if passed >= seconds * SECOND {
        actions := actions[user := actions[user][action := now]];
        return Granted;
      }
      answer := Wait((seconds * SECOND - passed) / SECOND);
    }

    method ResetUser(user: int, what: string)
      modifies this
      ensures actions == Forget(old(actions), user, what)
    {
      if user in actions {
        if what != "" {
          actions := actions[user := actions[user] - {what}];
        } else {
          actions := actions - {user};
        }
      }
    }
  }

  // --- runs -----------------------------------------------------------------

  /** The limiter's table after a call; with `pruning` off, every last stamp is kept forever. */
  function After(m: Stamps, call: Call, pruning: bool): Stamps {
    match call
    case Check(user, action, seconds, now) =>
      Decide(if pruning then Prune(m, now) else m, user, action, seconds, now).0
    case Reset(user, what) => Forget(m, user, what)
  }

  function AnswerTo(m: Stamps, call: Call, pruning: bool): Option<Answer> {
    match call
    case Check(user, action, seconds, now) =>
      Some(Decide(if pruning then Prune(m, now) else m, user, action, seconds, now).1)
    case Reset(_, _) => None
  }

  function Table(calls: seq<Call>, pruning: bool): Stamps {
    if calls == [] then map[] else After(Table(calls[..|calls| - 1], pruning), calls[|calls| - 1], pruning)
  }

  function Answers(calls: seq<Call>, pruning: bool): (answers: seq<Option<Answer>>)
    ensures |answers| == |calls|
  {
    if calls == [] then []
    else
      var before := calls[..|calls| - 1];
      Answers(before, pruning) + [AnswerTo(Table(before, pruning), calls[|calls| - 1], pruning)]
  }

  predicate Ordered(calls: seq<Call>) {
    forall i, j | 0 <= i < j < |calls| && calls[i].Check? && calls[j].Check? :: calls[i].now <= calls[j].now
  }

  /** The latest moment of a run so far. */
  predicate NotBefore(calls: seq<Call>, now: int) {
    forall i | 0 <= i < |calls| && calls[i].Check? :: calls[i].now <= now
  }

  /** The pruned table holds every stamp of the full one that can still matter at `now` or later. */
  ghost predicate Covers(pruned: Stamps, full: Stamps, now: int) {
    forall u, a ::
      && (Stamp(full, u, a).None? ==> Stamp(pruned, u, a).None?)
      && (Stamp(full, u, a).Some? ==>
            || Stamp(pruned, u, a) == Stamp(full, u, a)
            || (Stamp(pruned, u, a).None? && Stamp(full, u, a).value < now - MAX_AGE))
  }

  lemma PruneStamp(m: Stamps, now: int, user: int, action: string)
    ensures Stamp(Prune(m, now), user, action) ==
      if Stamp(m, user, action).Some? && Stamp(m, user, action).value >= now - MAX_AGE then Stamp(m, user, action) else None
  {
    if Stamp(m, user, action).Some? && Stamp(m, user, action).value >= now - MAX_AGE {
      assert action in Recent(m[user], now);
    }
  }

  lemma PruneCovers(pruned: Stamps, full: Stamps, before: int, now: int)
    requires Covers(pruned, full, before) && before <= now
    ensures Covers(Prune(pruned, now), full, now)
  {
    forall u, a
      ensures
        && (Stamp(full, u, a).None? ==> Stamp(Prune(pruned, now), u, a).None?)
        && (Stamp(full, u, a).Some? ==>
              || Stamp(Prune(pruned, now), u, a) == Stamp(full, u, a)
              || (Stamp(Prune(pruned, now), u, a).None? && Stamp(full, u, a).value < now - MAX_AGE))
    {
      PruneStamp(pruned, now, u, a);
    }
  }

  lemma DecideCovers(pruned: Stamps, full: Stamps, user: int, action: string, seconds: int, now: int)
    requires Covers(pruned, full, now) && seconds <= MAX_ENTRY_AGE_SECONDS
    ensures Decide(pruned, user, action, seconds, now).1 == Decide(full, user, action, seconds, now).1
    ensures Covers(Decide(pruned, user, action, seconds, now).0, Decide(full, user, action, seconds, now).0, now)
  {
    var p', f' := Decide(pruned, user, action, seconds, now).0, Decide(full, user, action, seconds, now).0;
    if Decide(full, user, action, seconds, now).1 == Granted {
      assert forall u, a :: Stamp(p', u, a) == if u == user && a == action then Some(now) else Stamp(pruned, u, a);
      assert forall u, a :: Stamp(f', u, a) == if u == user && a == action then Some(now) else Stamp(full, u, a);
    }
  }

  predicate Hits(user: int, what: string, u: int, a: string) {
    u == user && (what == "" || a == what)
  }

  /** A reset forgets the stamps that it names, all of the user's if it names none, and nothing else. */
  lemma ResetForgets(m: Stamps, user: int, what: string, u: int, a: string)
    ensures Stamp(Forget(m, user, what), u, a) ==
      if u == user && (what == "" || a == what) then None else Stamp(m, u, a)
  {
  }

  lemma ForgetCovers(pruned: Stamps, full: Stamps, user: int, what: string, now: int)
    requires Covers(pruned, full, now)
    ensures Covers(Forget(pruned, user, what), Forget(full, user, what), now)
  {
    forall u, a
      ensures Stamp(Forget(pruned, user, what), u, a) == if Hits(user, what, u, a) then None else Stamp(pruned, u, a)
      ensures Stamp(Forget(full, user, what), u, a) == if Hits(user, what, u, a) then None else Stamp(full, u, a)
    {
    }
  }

  /** The pruned limiter gives the answers of one that never forgets a stamp. */
  lemma {:induction false} PruningIsInvisible(calls: seq<Call>, now: int)
    requires Ordered(calls) && NotBefore(calls, now)
    requires forall i | 0 <= i < |calls| && calls[i].Check? :: calls[i].seconds <= MAX_ENTRY_AGE_SECONDS
    ensures Answers(calls, true) == Answers(calls, false)
    ensures Covers(Table(calls, true), Table(calls, false), now)
  {
    if calls != [] {
      var before, call := calls[..|calls| - 1], calls[|calls| - 1];
      if call.Check? {
        PruningIsInvisible(before, call.now);
        PruneCovers(Table(before, true), Table(before, false), call.now, call.now);
        DecideCovers(Prune(Table(before, true), call.now), Table(before, false),
                     call.user, call.action, call.seconds, call.now);
      } else {
        PruningIsInvisible(before, now);
        ForgetCovers(Table(before, true), Table(before, false), call.user, call.what, now);
      }
    }
  }

  ghost predicate SameAnswersFor(seconds: int) {
    forall calls: seq<Call> |
      Ordered(calls) && forall i | 0 <= i < |calls| && calls[i].Check? :: calls[i].seconds == seconds ::
      Answers(calls, true) == Answers(calls, false)
  }

  lemma LongWindowDiffers(seconds: int)
    requires seconds > MAX_ENTRY_AGE_SECONDS
    ensures
      var calls := [Check(1, "a", seconds, 0), Check(1, "a", seconds, MAX_AGE + 1)];
      Ordered(calls) && Answers(calls, true) != Answers(calls, false)
  {
    var first, second := Check(1, "a", seconds, 0), Check(1, "a", seconds, MAX_AGE + 1);
    var calls := [first, second];
    assert calls[..1] == [first] && [first][..0] == [];
    assert forall pruning :: Table([first], pruning) == After(map[], first, pruning) == map[1 := map["a" := 0]];
    PruneStamp(map[1 := map["a" := 0]], MAX_AGE + 1, 1, "a");
    assert Answers(calls, true)[1] == Some(Granted);
    assert Answers(calls, false)[1] != Some(Granted);
  }

  lemma LastMoment(calls: seq<Call>) returns (now: int)
    requires Ordered(calls)
    ensures NotBefore(calls, now)
  {
    if calls == [] {
      now := 0;
    } else {
      var last := calls[|calls| - 1];
      now := LastMoment(calls[..|calls| - 1]);
      if last.Check? {
        now := last.now;
      }
    }
  }

  /** One window length behaves as if nothing were ever pruned exactly when it is at most an hour. */
  lemma PruningInvisibleIff(seconds: int)
    ensures SameAnswersFor(seconds) <==> seconds <= 3600
  {
    if seconds <= MAX_ENTRY_AGE_SECONDS {
      forall calls: seq<Call> |
        Ordered(calls) && forall i | 0 <= i < |calls| && calls[i].Check? :: calls[i].seconds == seconds
        ensures Answers(calls, true) == Answers(calls, false)
      {
        var now := LastMoment(calls);
        PruningIsInvisible(calls, now);
      }
    } else {
      LongWindowDiffers(seconds);
    }
  }

  // --- spacing and memory ---------------------------------------------------

  /** The moments at which `action` was granted to `user`. */
  function Grants(calls: seq<Call>, user: int, action: string): seq<int> {
    if calls == [] then []
    else
      var before, call := calls[..|calls| - 1], calls[|calls| - 1];
      Grants(before, user, action)
      + if call.Check? && call.user == user && call.action == action
           && AnswerTo(Table(before, true), call, true) == Some(Granted) then [call.now] else []
  }

  /** All checks of this action use the window `seconds`, and it is never reset. */
  predicate Limited(calls: seq<Call>, user: int, action: string, seconds: int) {
    forall i | 0 <= i < |calls| && calls[i].user == user ::
      calls[i].Check? && (calls[i].action == action ==> calls[i].seconds == seconds)
  }

  predicate Spaced(times: seq<int>, gap: int) {
    forall i | 0 <= i < |times| - 1 :: times[i + 1] - times[i] >= gap
  }

  /** The kept stamp is the last grant; without one, the last grant is out of date. */
  predicate IsLastGrant(times: seq<int>, stamp: Option<int>, now: int) {
    match stamp
    case Some(last) => times != [] && times[|times| - 1] == last
    case None => times == [] || times[|times| - 1] < now - MAX_AGE
  }

  lemma DecideStamp(m: Stamps, call: Call, user: int, action: string)
    requires call.Check?
    ensures
      var stamp, d := Stamp(m, user, action), Decide(m, call.user, call.action, call.seconds, call.now);
      if call.user == user && call.action == action
      then
        && (d.1 == Granted <==> stamp.None? || call.now - stamp.value >= call.seconds * SECOND)
        && Stamp(d.0, user, action) == if d.1 == Granted then Some(call.now) else stamp
      else Stamp(d.0, user, action) == stamp
  {
  }

  lemma GrantIsSpaced(times: seq<int>, stamp: Option<int>, now: int, gap: int)
    requires Spaced(times, gap) && IsLastGrant(times, stamp, now) && gap <= MAX_AGE
    requires stamp.Some? ==> now - stamp.value >= gap
    ensures Spaced(times + [now], gap) && IsLastGrant(times + [now], Some(now), now)
  {
  }

  lemma CheckSpaced(m: Stamps, times: seq<int>, call: Call, user: int, action: string, gap: int)
    requires call.Check? && Spaced(times, gap) && gap <= MAX_AGE
    requires IsLastGrant(times, Stamp(m, user, action), call.now)
    requires call.user == user && call.action == action ==> call.seconds * SECOND == gap
    ensures
      var granted := call.user == user && call.action == action && AnswerTo(m, call, true) == Some(Granted);
      var times' := times + if granted then [call.now] else [];
      Spaced(times', gap) && IsLastGrant(times', Stamp(After(m, call, true), user, action), call.now)
  {
    var p := Prune(m, call.now);
    PruneStamp(m, call.now, user, action);
    DecideStamp(p, call, user, action);
    if call.user == user && call.action == action && AnswerTo(m, call, true) == Some(Granted) {
      GrantIsSpaced(times, Stamp(p, user, action), call.now, gap);
    } else {
      assert times + [] == times;
    }
  }

  lemma {:induction false} GrantsSpaced(calls: seq<Call>, user: int, action: string, seconds: int, now: int)
    requires Ordered(calls) && NotBefore(calls, now) && Limited(calls, user, action, seconds)
    requires seconds <= MAX_ENTRY_AGE_SECONDS
    ensures Spaced(Grants(calls, user, action), seconds * SECOND)
    ensures IsLastGrant(Grants(calls, user, action), Stamp(Table(calls, true), user, action), now)
  {
    if calls != [] {
      var before, call := calls[..|calls| - 1], calls[|calls| - 1];
      if call.Check? {
        GrantsSpaced(before, user, action, seconds, call.now);
        CheckSpaced(Table(before, true), Grants(before, user, action), call, user, action, seconds * SECOND);
      } else {
        GrantsSpaced(before, user, action, seconds, now);
        assert Stamp(Table(calls, true), user, action) == Stamp(Table(before, true), user, action);
        assert Grants(calls, user, action) == Grants(before, user, action);
      }
    }
  }

  lemma {:induction false} SpacedSpan(times: seq<int>, gap: int)
    requires times != [] && Spaced(times, gap)
    ensures times[|times| - 1] - times[0] >= (|times| - 1) * gap
  {
    if |times| > 1 {
      var before := times[..|times| - 1];
      SpacedSpan(before, gap);
      assert (|times| - 1) * gap == (|before| - 1) * gap + gap;
    }
  }

  /** What is left of the window after the last of these grants, in microseconds; not positive when it is over. */
  function Remaining(times: seq<int>, seconds: int, now: int): int
    requires times != []
  {
    times[|times| - 1] + seconds * 1_000_000 - now
  }

  /**
   A check is granted exactly if the window since the last grant is over; else the answer is
   the rest of the window, in whole seconds.
   */
  lemma GrantedIff(calls: seq<Call>, user: int, action: string, seconds: int, now: int)
    requires Ordered(calls) && NotBefore(calls, now) && Limited(calls, user, action, seconds) && seconds <= 3600
    ensures
      var answer, times := AnswerTo(Table(calls, true), Check(user, action, seconds, now), true), Grants(calls, user, action);
      && (answer == Some(Granted) <==> times == [] || Remaining(times, seconds, now) <= 0)
      && (times != [] && Remaining(times, seconds, now) > 0 ==>
            && answer.Some? && answer.value.Wait?
            && answer.value.seconds * 1_000_000 <= Remaining(times, seconds, now) < (answer.value.seconds + 1) * 1_000_000)
  {
    GrantsSpaced(calls, user, action, seconds, now);
    PruneStamp(Table(calls, true), now, user, action);
    DecideStamp(Prune(Table(calls, true), now), Check(user, action, seconds, now), user, action);
  }

  /** k grants of one action span at least k - 1 windows. */
  lemma GrantsSpan(calls: seq<Call>, user: int, action: string, seconds: int)
    requires Ordered(calls) && Limited(calls, user, action, seconds) && seconds <= MAX_ENTRY_AGE_SECONDS
    requires Grants(calls, user, action) != []
    ensures
      var times := Grants(calls, user, action);
      times[|times| - 1] - times[0] >= (|times| - 1) * (seconds * SECOND)
  {
    var now := LastMoment(calls);
    GrantsSpaced(calls, user, action, seconds, now);
    SpacedSpan(Grants(calls, user, action), seconds * SECOND);
  }

  /** Right after a check nothing older than an hour is kept, for any user. */
  lemma MemoryIsBounded(m: Stamps, user: int, action: string, seconds: int, now: int)
    ensures
      var m' := After(m, Check(user, action, seconds, now), true);
      forall u | u in m' :: m'[u] != map[] && forall a | a in m'[u] :: m'[u][a] >= now - MAX_AGE
  {
    var m' := After(m, Check(user, action, seconds, now), true);
    assert action in m'[user];
  }
}
