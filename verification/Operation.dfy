/**
 Operation-scoped deadline, time base and compression threshold. The three context
 variables are fields of a Context; the clocks are read from it too, so that time may
 pass by any amount between two readings.
 */
module Operation {
  import opened Basics
  import opened Errors

  /** A timeout argument: floats may also be infinite or not a number. */
  datatype Timeout = Finite(ticks: int) | NonFinite

  /** The values that leaving an operation puts back. */
  datatype Saved = Saved(deadline: Option<int>, started: Option<int>, threshold: nat)

  /** What a piece of client code does to the context; Nested is `with operation(...)`. */
  datatype Program =
    | Rpc(timeout: Option<int>)
    | Ttl(ttl: nat)
    | Throw
    | Then(first: Program, second: Program)
    | Try(body: Program, handler: Program)
    | Nested(closed: bool, limit: Option<Timeout>, threshold: nat, inner: Program)

  /**
   An RPC: its budget was computed at `asked`, the deadline was last looked at when the size of
   the request was checked, at `checked`, and the request left at `at`.
   */
  datatype Issue = Issue(requested: Option<int>, asked: int, checked: int, at: int, timeout: Option<int>)

  datatype Event =
    | Issued(issue: Issue)
    | Expires(ttl: nat, absolute: int)

  /** The timeout an RPC is given when its budget is computed at `asked`. */
  function Budget(end: Option<int>, asked: int, timeout: Option<int>): Option<int> {
    if end.None? then timeout
    else if timeout.Some? && timeout.value < end.value - asked then timeout
    else Some(end.value - asked)
  }

  /** The RPC these readings of the clock lead to; none if one of the two checks finds the deadline passed. */
  function IssueAt(end: Option<int>, requested: Option<int>, asked: int, checked: int, at: int): Option<Issue> {
    if end.Some? && (asked >= end.value || checked >= end.value) then None
    else Some(Issue(requested, asked, checked, at, Budget(end, asked, requested)))
  }

  /** The RPC is what its own readings lead to: it was checked, though perhaps not sent, before the deadline. */
  predicate OnTime(end: Option<int>, i: Issue) {
    i.asked <= i.checked <= i.at && IssueAt(end, i.requested, i.asked, i.checked, i.at) == Some(i)
  }

  predicate InTime(end: int, e: Event) {
    e.Issued? ==> OnTime(Some(end), e.issue)
  }

  /**
   The timeout fits the time left when it was computed. When the request leaves it still fits
   exactly if no time has passed since, or if the caller asked for no more than is left; in any
   case the RPC can outlive the deadline by no more than the time between the two moments.
   */
  lemma TimeoutFits(end: int, i: Issue)
    requires OnTime(Some(end), i)
    ensures i.asked <= i.checked <= i.at && i.checked < end
    ensures i.timeout.Some? && i.asked + i.timeout.value <= end
    ensures i.at + i.timeout.value <= end <==>
              i.at == i.asked || (i.requested.Some? && i.requested.value <= end - i.at)
    ensures i.at + i.timeout.value <= end + (i.at - i.asked)
  {
  }

  /** An RPC is refused exactly when the deadline has passed at one of the two checks; without one it never is. */
  lemma RefusedExactly(end: Option<int>, requested: Option<int>, asked: int, checked: int, at: int)
    ensures IssueAt(end, requested, asked, checked, at).None? <==>
              end.Some? && (end.value <= asked || end.value <= checked)
    ensures end.None? ==>
              IssueAt(end, requested, asked, checked, at) == Some(Issue(requested, asked, checked, at, requested))
  {
  }

  /** Under a deadline at 10: a timeout that exceeds the time left, and a request that leaves after the deadline. */
  lemma OverrunningReadings()
    ensures var i := IssueAt(Some(10), None, 0, 1, 2);
            i.Some? && OnTime(Some(10), i.value) && i.value.at + i.value.timeout.value > 10
    ensures var i := IssueAt(Some(10), None, 0, 9, 11);
            i.Some? && OnTime(Some(10), i.value) && i.value.at > 10
  {
  }

  // ---------- what a program does ----------

  /** The program may have left these events and ended like this, whatever its RPCs and clocks did. */
  ghost predicate Does(p: Program, events: seq<Event>, ok: bool)
    decreases p
  {
    match p
    case Rpc(timeout) =>
      || (events == [] && !ok)
      || (|events| == 1 && events[0].Issued? && events[0].issue.requested == timeout)
    case Ttl(ttl) => ok && |events| == 1 && events[0].Expires? && events[0].ttl == ttl
    case Throw => !ok && events == []
    case Then(first, second) =>
      exists k, done :: 0 <= k <= |events| && Splits(events, k) && Does(first, events[..k], done)
                        && if done then Does(second, events[k..], ok) else k == |events| && !ok
    case Try(body, handler) =>
      exists k, done :: 0 <= k <= |events| && Splits(events, k) && Does(body, events[..k], done)
                        && if done then k == |events| && ok else Does(handler, events[k..], ok)
    case Nested(_, _, _, inner) => (events == [] && !ok) || Does(inner, events, ok)
  }

  predicate Splits(events: seq<Event>, k: int) {
    0 <= k <= |events|
  }

  lemma DoesThen(first: Program, second: Program, a: seq<Event>, b: seq<Event>, done: bool, ok: bool)
    requires Does(first, a, done) && if done then Does(second, b, ok) else b == [] && !ok
    ensures Does(Then(first, second), a + b, ok)
  {
    var events := a + b;
    assert Splits(events, |a|) && events[..|a|] == a && events[|a|..] == b;
  }

  lemma DoesTry(body: Program, handler: Program, a: seq<Event>, b: seq<Event>, done: bool, ok: bool)
    requires Does(body, a, done) && if done then b == [] && ok else Does(handler, b, ok)
    ensures Does(Try(body, handler), a + b, ok)
  {
    var events := a + b;
    assert Splits(events, |a|) && events[..|a|] == a && events[|a|..] == b;
  }

  // ---------- RPCs one after the other ----------

  /** The RPCs run one after the other between two times: each is asked for when the one before has left. */
  ghost predicate InTurn(issues: seq<Issue>, from: int, to: int) {
    && from <= to
    && (forall i <- issues :: from <= i.asked <= i.checked <= i.at <= to)
    && (forall i, j :: 0 <= i < j < |issues| ==> issues[i].at <= issues[j].asked)
  }

  ghost predicate AllOnTime(end: int, issues: seq<Issue>) {
    forall i <- issues :: OnTime(Some(end), i)
  }

  /** Every RPC but the last leaves before the deadline. */
  ghost predicate OnlyLastLate(end: int, issues: seq<Issue>) {
    forall k :: 0 <= k < |issues| - 1 ==> issues[k].at < end
  }

  /**
   Under one deadline at most the last RPC of a sequence leaves late, because whatever is asked
   for after a late one is refused; so all leave in time exactly if the last one does.
   */
  lemma LateIsLast(end: int, issues: seq<Issue>, from: int, to: int)
    requires AllOnTime(end, issues) && InTurn(issues, from, to)
    ensures OnlyLastLate(end, issues)
    ensures (forall i <- issues :: i.at < end) <==> issues == [] || issues[|issues| - 1].at < end
  {
    forall k | 0 <= k < |issues| - 1
      ensures issues[k].at < end
    {
      var next := issues[k + 1];
      assert OnTime(Some(end), next) && issues[k].at <= next.asked;
    }
    forall i | i in issues && issues[|issues| - 1].at < end
      ensures i.at < end
    {
    }
  }

  /** And any last one may: whenever its two checks pass, it can leave at any time from the deadline on. */
  lemma LastMayBeLate(end: int, issues: seq<Issue>, from: int, to: int, requested: Option<int>,
                      asked: int, checked: int, at: int)
    requires AllOnTime(end, issues) && InTurn(issues, from, to)
    requires to <= asked <= checked < end <= at
    ensures var next := IssueAt(Some(end), requested, asked, checked, at);
            && next.Some? && next.value.at >= end
            && AllOnTime(end, issues + [next.value]) && InTurn(issues + [next.value], from, at)
  {
    var next := IssueAt(Some(end), requested, asked, checked, at).value;
    InTurnPush(issues, next, from, to, at);
  }

  lemma InTurnPush(issues: seq<Issue>, next: Issue, from: int, mid: int, to: int)
    requires InTurn(issues, from, mid) && mid <= next.asked <= next.checked <= next.at <= to
    ensures InTurn(issues + [next], from, to)
  {
    assert forall i :: 0 <= i < |issues| ==> issues[i] in issues;
  }

  lemma InTurnAppend(a: seq<Issue>, b: seq<Issue>, from: int, mid: int, to: int)
    requires InTurn(a, from, mid) && InTurn(b, mid, to)
    ensures InTurn(a + b, from, to)
  {
    assert forall i :: 0 <= i < |a| ==> a[i] in a;
    assert forall i :: 0 <= i < |b| ==> b[i] in b;
  }

  lemma InTurnWider(issues: seq<Issue>, from: int, to: int, from': int, to': int)
    requires InTurn(issues, from, to) && from' <= from && to <= to'
    ensures InTurn(issues, from', to')
  {
  }

  // ---------- the log of a program ----------

  function Issues(events: seq<Event>): seq<Issue> {
    if events == [] then []
    else
      var last := events[|events| - 1];
      Issues(events[..|events| - 1]) + if last.Issued? then [last.issue] else []
  }

  lemma {:induction false} IssuesAppend(a: seq<Event>, b: seq<Event>)
    ensures Issues(a + b) == Issues(a) + Issues(b)
  {
    if b == [] {
      assert a + b == a;
    } else {
      IssuesAppend(a, b[..|b| - 1]);
      assert (a + b)[..|a + b| - 1] == a + b[..|b| - 1];
    }
  }

  lemma {:induction false} IssuesOnTime(end: int, events: seq<Event>)
    requires AllInTime(end, events)
    ensures AllOnTime(end, Issues(events))
  {
    if events != [] {
      var n := |events| - 1;
      IssuesOnTime(end, events[..n]);
      assert events[n] in events && InTime(end, events[n]);
    }
  }

  /** The log has grown, by RPCs made in turn since `from`. */
  ghost predicate Logged(before: seq<Event>, after: seq<Event>, from: int, to: int) {
    before <= after && InTurn(Issues(after[|before|..]), from, to)
  }

  lemma LoggedNone(log: seq<Event>, from: int, to: int)
    requires from <= to
    ensures Logged(log, log, from, to)
  {
    assert log[|log|..] == [];
  }

  lemma LoggedPush(log: seq<Event>, e: Event, from: int, to: int)
    requires from <= to && (e.Issued? ==> from <= e.issue.asked <= e.issue.checked <= e.issue.at <= to)
    ensures Logged(log, log + [e], from, to)
  {
    assert (log + [e])[|log|..] == [e] && [e][..0] == [] && Issues([e][..0]) == [];
  }

  lemma LoggedTwice(a: seq<Event>, b: seq<Event>, c: seq<Event>, from: int, mid: int, to: int)
    requires Logged(a, b, from, mid) && Logged(b, c, mid, to)
    ensures Logged(a, c, from, to)
  {
    hide InTurn, Issues;
    assert c[|a|..] == b[|a|..] + c[|b|..];
    IssuesAppend(b[|a|..], c[|b|..]);
    InTurnAppend(Issues(b[|a|..]), Issues(c[|b|..]), from, mid, to);
  }

  lemma LoggedWider(a: seq<Event>, b: seq<Event>, from: int, to: int, from': int, to': int)
    requires Logged(a, b, from, to) && from' <= from && to <= to'
    ensures Logged(a, b, from', to')
  {
    hide Issues;
    InTurnWider(Issues(b[|a|..]), from, to, from', to');
  }

  lemma Sliced(a: seq<Event>, b: seq<Event>, c: seq<Event>)
    requires a <= b <= c
    ensures c[|a|..] == b[|a|..] + c[|b|..]
  {
  }

  /** A log made in turn under a deadline: at most its last RPC left late. */
  lemma LogOnlyLastLate(end: int, before: seq<Event>, after: seq<Event>, from: int, to: int)
    requires Logged(before, after, from, to) && AllInTime(end, after[|before|..])
    ensures OnlyLastLate(end, Issues(after[|before|..]))
  {
    hide InTurn, Issues, OnTime;
    IssuesOnTime(end, after[|before|..]);
    LateIsLast(end, Issues(after[|before|..]), from, to);
  }

  lemma NoneLate(end: Option<int>, log: seq<Event>)
    ensures end.Some? ==> OnlyLastLate(end.value, Issues(log[|log|..]))
  {
    assert log[|log|..] == [];
  }

  /** A deadline that was in force, or the one a timeout starts, has passed. */
  predicate Late(end: Option<int>, from: int, limit: Option<Timeout>, now: int) {
    if end.Some? then now >= end.value
    else limit.Some? && limit.value.Finite? && now >= from + limit.value.ticks
  }

  predicate Invalid(limit: Option<Timeout>) {
    limit.Some? && (limit.value.NonFinite? || limit.value.ticks < 0)
  }

  predicate Refused(closed: bool, limit: Option<Timeout>, end: Option<int>, from: int, now: int) {
    closed || Invalid(limit) || Late(end, from, limit, now)
  }

  predicate OneBase(base: int, e: Event) {
    e.Expires? ==> e.absolute == base + e.ttl
  }

  ghost predicate AllInTime(end: int, events: seq<Event>) {
    forall e <- events :: InTime(end, e)
  }

  ghost predicate AllOneBase(base: int, events: seq<Event>) {
    forall e <- events :: OneBase(base, e)
  }

  class Context {
    var deadline: Option<int>
    var started: Option<int>
    var threshold: nat
    var now: int           // the monotonic clock
    var wall: int          // the last reading of the wall clock, in milliseconds
    var log: seq<Event>

    constructor ()
      ensures deadline == None && started == None && threshold == 1024 && log == []
    {
      deadline, started, threshold := None, None, 1024;
      now, wall := *, *;
      log := [];
    }

    /** The deadline in force has passed. */
    predicate Expired()
      reads this
    {
      deadline.Some? && now >= deadline.value
    }

    /** time.monotonic() */
    method Monotonic() returns (t: int)
      modifies this`now
      ensures t == now >= old(now)
    {
      t :| t >= now;
      now := t;
    }

    /** int(time.time() * 1000), which may jump either way */
    method WallMillis() returns (t: int)
      modifies this`wall
      ensures t == wall
    {
      t := *;
      wall := t;
    }

    method Remaining(timeout: Option<int>) returns (r: Result<Option<int>, Error>)
      modifies this`now
      ensures now >= old(now)
      ensures r == if Expired() then Failure(DeadlineExceeded) else Success(Budget(deadline, now, timeout))
      ensures deadline.None? ==> r == Success(timeout)
      ensures deadline.Some? && now < deadline.value ==>
                var left := deadline.value - now;
                r == Success(Some(if timeout.Some? && timeout.value < left then timeout.value else left))
    {
      if deadline.None? {
        return Success(timeout);
      }
      var t := Monotonic();
      var left := deadline.value - t;
      if left <= 0 {
        return Failure(DeadlineExceeded);
      }
      r := Success(Some(if timeout.None? || left <= timeout.value then left else timeout.value));
    }

    method AbsoluteTtl(ttl: nat) returns (t: int)
      modifies this`wall
      ensures t == (if started.Some? then started.value else wall) + ttl
      ensures started.Some? ==> wall == old(wall)
    {
      var base;
      if started.Some? {
        base := started.value;
      } else {
        base := WallMillis();
      }
      t := base + ttl;
    }

    /** Entering `with operation(client, timeout)`; on failure everything is as it was. */
    method Enter(closed: bool, timeout: Option<Timeout>, clientThreshold: nat) returns (r: Result<Saved, Error>)
      modifies this`deadline, this`started, this`threshold, this`now, this`wall
      ensures now >= old(now)
      ensures r.Failure? ==>
                deadline == old(deadline) && started == old(started) && threshold == old(threshold)
      ensures closed <==> r == Failure(ClientClosed)
      ensures r == Failure(InvalidTimeout) <==>
                !closed && timeout.Some? && (timeout.value.NonFinite? || timeout.value.ticks < 0)
      ensures r.Failure? ==> r.error in {ClientClosed, InvalidTimeout, DeadlineExceeded}
      ensures r == Failure(DeadlineExceeded) ==> Late(old(deadline), old(now), timeout, now)
      ensures r.Success? ==> r.value == Saved(old(deadline), old(started), old(threshold))
      ensures r.Success? ==> threshold == clientThreshold && started.Some?
      // an outer time base wins; otherwise the wall clock starts one
      ensures r.Success? ==> started == if old(started).Some? then old(started) else Some(wall)
      // an outer deadline wins; otherwise the own timeout starts one
      ensures r.Success? && old(deadline).Some? ==> deadline == old(deadline)
      ensures r.Success? && old(deadline).None? && timeout.None? ==> deadline == None
      ensures r.Success? && old(deadline).None? && timeout.Some? ==>
                timeout.value.Finite? && timeout.value.ticks >= 0 && deadline.Some?
                && old(now) + timeout.value.ticks <= deadline.value <= now + timeout.value.ticks
      ensures r.Success? && deadline.Some? ==> now < deadline.value
    {
      if closed {
        return Failure(ClientClosed);
      }
      if Invalid(timeout) {
        return Failure(InvalidTimeout);
      }
      var end := deadline;
      if end.None? && timeout.Some? {
        var t := Monotonic();
        end := Some(t + timeout.value.ticks);
      }
      var saved := Saved(deadline, started, threshold);
      deadline := end;
      if started.None? {
        var base := WallMillis();
        started := Some(base);
      }
      threshold := clientThreshold;
      var left := Remaining(None);
      if left.Failure? {
        Leave(saved);
        return Failure(left.error);
      }
      r := Success(saved);
    }

    method Leave(saved: Saved)
      modifies this`deadline, this`started, this`threshold
      ensures Saved(deadline, started, threshold) == saved
    {
      threshold := saved.threshold;
      started := saved.started;
      deadline := saved.deadline;
    }

    /**
     Whatever the program does and however it ends, the context is put back. Under a deadline
     every RPC is checked against it and gets its budget from it, and at most the last RPC
     leaves late; once the time base is set every expiration is computed from it.
     */
    method Run(p: Program) returns (ok: bool)
      modifies this
      ensures deadline == old(deadline) && started == old(started) && threshold == old(threshold)
      ensures now >= old(now) && Logged(old(log), log, old(now), now)
      ensures Does(p, log[|old(log)|..], ok)
      // an RPC is refused, and an operation not entered, only for a reason
      ensures p.Rpc? && log == old(log) ==> Expired()
      ensures p.Nested? ==> Does(p.inner, log[|old(log)|..], ok)
                            || Refused(p.closed, p.limit, old(deadline), old(now), now)
      ensures deadline.Some? ==> AllInTime(deadline.value, log[|old(log)|..])
      ensures deadline.Some? ==> OnlyLastLate(deadline.value, Issues(log[|old(log)|..]))
      ensures started.Some? ==> AllOneBase(started.value, log[|old(log)|..])
      decreases p, 0
    {
      ghost var before, from := log, now;
      hide InTurn, Issues, OnlyLastLate;
      LoggedNone(before, from, now);
      match p {
        case Rpc(timeout) =>
          var budget := Remaining(timeout);
          var asked := now;
          LoggedNone(before, from, now);
          if budget.Failure? {
            NoneLate(deadline, before);
            return false;
          }
          var recheck := Remaining(None);
          var checked := now;
          LoggedNone(before, from, now);
          if recheck.Failure? {
            NoneLate(deadline, before);
            return false;
          }
          var at := Monotonic();
          LoggedPush(before, Issued(Issue(timeout, asked, checked, at, budget.value)), from, now);
          log := log + [Issued(Issue(timeout, asked, checked, at, budget.value))];
          ok := *;
        case Ttl(ttl) =>
          var t := AbsoluteTtl(ttl);
          LoggedPush(before, Expires(ttl, t), from, now);
          log := log + [Expires(ttl, t)];
          ok := true;
        case Throw =>
          ok := false;
        case Then(first, second) =>
          ok := Run(first);
          ghost var middle, mid, done := log, now, ok;
          if ok {
            ok := Run(second);
            LoggedTwice(before, middle, log, from, mid, now);
          }
          Sliced(before, middle, log);
          DoesThen(first, second, middle[|before|..], log[|middle|..], done, ok);
        case Try(body, handler) =>
          ok := Run(body);
          ghost var middle, mid, done := log, now, ok;
          if !ok {
            ok := Run(handler);
            LoggedTwice(before, middle, log, from, mid, now);
          }
          Sliced(before, middle, log);
          DoesTry(body, handler, middle[|before|..], log[|middle|..], done, ok);
        case Nested(closed, limit, clientThreshold, inner) =>
          ghost var end, base;
          ok, end, base := RunOperation(closed, limit, clientThreshold, inner);
      }
      if deadline.Some? {
        LogOnlyLastLate(deadline.value, before, log, from, now);
      }
    }

    /**
     One operation. The deadline inside is fixed on entry by the outermost operation that has
     a timeout, the time base by the outermost operation; both are returned as ghosts.
     */
    method RunOperation(closed: bool, limit: Option<Timeout>, clientThreshold: nat, inner: Program)
      returns (ok: bool, ghost end: Option<int>, ghost base: int)
      modifies this
      ensures deadline == old(deadline) && started == old(started) && threshold == old(threshold)
      ensures now >= old(now) && Logged(old(log), log, old(now), now)
      ensures || Does(inner, log[|old(log)|..], ok)
              || (log == old(log) && !ok && Refused(closed, limit, old(deadline), old(now), now))
      ensures old(deadline).Some? ==> end == old(deadline)
      ensures old(deadline).None? && limit.Some? && log != old(log) ==>
                && limit.value.Finite? && end.Some?
                && old(now) + limit.value.ticks <= end.value <= now + limit.value.ticks
      ensures end.Some? ==> AllInTime(end.value, log[|old(log)|..])
      ensures end.Some? ==> OnlyLastLate(end.value, Issues(log[|old(log)|..]))
      ensures old(started).Some? ==> base == old(started).value
      ensures AllOneBase(base, log[|old(log)|..])
      decreases inner, 1
    {
      end, base := deadline, if started.Some? then started.value else 0;
      ghost var before, from := log, now;
      hide InTurn, Issues, OnlyLastLate;
      var entered := Enter(closed, limit, clientThreshold);
      if entered.Failure? {
        LoggedNone(before, from, now);
        NoneLate(end, before);
        return false, end, base;
      }
      end, base := deadline, started.value;
      ghost var mid := now;
      ok := Run(inner);
      LoggedWider(before, log, mid, now, from, now);
      Leave(entered.value);
    }
  }
}
