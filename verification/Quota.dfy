/** The daily token quota: checked before a request runs, recorded when its result arrives, with
    any number of requests in between. Days are numbered, and the clock never goes back. */
module Quota {

  /** The rows of `token_usage_daily`: a running total by token and day. */
  type Totals = map<(string, nat), nat>

  function Total(t: Totals, token: string, day: nat): nat {
    if (token, day) in t then t[(token, day)] else 0
  }

  function Recorded(t: Totals, token: string, day: nat, delta: int): Totals {
    if delta <= 0 || token == "" then t else t[(token, day) := Total(t, token, day) + delta]
  }

  class Limiter {
    var totals: Totals

    constructor ()
      ensures totals == map[]
    {
      totals := map[];
    }

    /** True when the request may proceed. A limit of zero or less is no limit. */
    method CheckDailyTokens(token: string, tpd: int, day: nat) returns (ok: bool)
      ensures ok <==> tpd <= 0 || Total(totals, token, day) < tpd
    {
      if tpd <= 0 { return true; }
      if (token, day) !in totals { return true; }
      ok := totals[(token, day)] < tpd;
    }

    method RecordUsage(token: string, delta: int, day: nat)
      modifies this
      ensures totals == Recorded(old(totals), token, day, delta)
      ensures token != "" && delta > 0 ==> Total(totals, token, day) == Total(old(totals), token, day) + delta
      ensures forall t, d | t != token || d != day :: Total(totals, t, d) == Total(old(totals), t, d)
    {
      if delta <= 0 || token == "" { return; }
      if (token, day) in totals {
        totals := totals[(token, day) := totals[(token, day)] + delta];
      } else {
        totals := totals[(token, day) := delta];
      }
    }

    method DailyUsage(token: string, day: nat) returns (n: nat)
      ensures n == Total(totals, token, day)
    {
      if (token, day) !in totals { return 0; }
      n := totals[(token, day)];
    }
  }

  // ---- concurrent requests ----

  type Request = nat

  datatype Entry = Entry(req: Request, token: string, day: nat, amount: nat)

  /** The last passing check of a token on a day: how much had been logged then, and which of its
      requests were in flight, the one just admitted included. A request let through later that day
      because the check itself failed is added to them. */
  datatype Pass = Pass(logged: nat, flying: set<Request>)

  /** `flying` maps each admitted, unfinished request to its token. `log` is the history of positive
      amounts recorded, `last` that of passing checks. */
  datatype State = State(
    totals: Totals, today: nat, flying: map<Request, string>, next: Request,
    log: seq<Entry>, last: map<(string, nat), Pass>)

  const INIT := State(map[], 0, map[], 0, [], map[])

  datatype Step =
    | NewDay(day: nat)
    | Check(token: string)             // CheckDailyTokens passes or refuses
    | CheckFails(token: string)        // its query fails; the request proceeds all the same
    | Record(req: Request, usage: int) // a result event of an admitted request
    | Finish(req: Request)

  function FlyingOf(s: State, token: string): set<Request> { set r | r in s.flying && s.flying[r] == token }

  /** `limits` gives each token's tokens-per-day limit, fixed over the run. A refused check changes
      nothing. */
  function Apply(limits: string -> int, s: State, st: Step): State {
    match st
    case NewDay(day) => if day < s.today then s else s.(today := day)
    case Check(token) =>
      if limits(token) > 0 && Total(s.totals, token, s.today) >= limits(token) then s
      else
        var flying := s.flying[s.next := token];
        s.(flying := flying, next := s.next + 1,
           last := s.last[(token, s.today) := Pass(|s.log|, FlyingOf(s, token) + {s.next})])
    case CheckFails(token) =>
      if limits(token) <= 0 then s
      else
        var k := (token, s.today);
        s.(flying := s.flying[s.next := token], next := s.next + 1,
           last := if k in s.last then s.last[k := s.last[k].(flying := s.last[k].flying + {s.next})] else s.last)
    case Record(req, usage) =>
      if req !in s.flying then s
      else
        var token := s.flying[req];
        s.(totals := Recorded(s.totals, token, s.today, usage),
           log := if usage <= 0 || token == "" then s.log else s.log + [Entry(req, token, s.today, usage)])
    case Finish(req) => s.(flying := s.flying - {req})
  }

  function Exec(limits: string -> int, s: State, run: seq<Step>): State
    decreases |run|
  {
    if run == [] then s else Exec(limits, Apply(limits, s, run[0]), run[1..])
  }

  predicate Of(e: Entry, token: string, day: nat) { e.token == token && e.day == day }

  /** The sum of the amounts logged for a token on a day. */
  function Sum(log: seq<Entry>, token: string, day: nat): nat {
    if log == [] then 0
    else
      var e := log[|log| - 1];
      Sum(log[..|log| - 1], token, day) + if Of(e, token, day) then e.amount else 0
  }

  /** The part of that sum recorded by the given requests. */
  function SumBy(log: seq<Entry>, token: string, day: nat, reqs: set<Request>): nat {
    if log == [] then 0
    else
      var e := log[|log| - 1];
      SumBy(log[..|log| - 1], token, day, reqs) + if Of(e, token, day) && e.req in reqs then e.amount else 0
  }

  // ---- invariants ----

  ghost predicate TotalsAreSums(s: State) {
    forall token: string, day: nat :: Total(s.totals, token, day) == Sum(s.log, token, day)
  }

  /** Nothing is recorded for a day to come, and no check of one has passed. */
  ghost predicate NothingAhead(s: State) {
    && (forall e <- s.log :: e.day <= s.today)
    && (forall k <- s.last :: k.1 <= s.today && s.last[k].logged <= |s.log|)
    && (forall r <- s.flying :: r < s.next)
  }

  /** Since the last passing check of a day, only the requests it lists record for that day; and on
      the day itself the token's requests in flight are among them. */
  ghost predicate PassSound(limits: string -> int, s: State, k: (string, nat))
    requires k in s.last
  {
    var p := s.last[k];
    && p.logged <= |s.log|
    && (limits(k.0) > 0 ==> Sum(s.log[..p.logged], k.0, k.1) < limits(k.0))
    && (forall i | p.logged <= i < |s.log| && Of(s.log[i], k.0, k.1) :: s.log[i].req in p.flying)
    && (k.1 == s.today ==> forall r <- s.flying :: s.flying[r] == k.0 ==> r in p.flying)
  }

  ghost predicate LastPassSound(limits: string -> int, s: State) { forall k <- s.last :: PassSound(limits, s, k) }

  ghost predicate Inv(limits: string -> int, s: State) {
    TotalsAreSums(s) && NothingAhead(s) && LastPassSound(limits, s)
  }

  lemma SumAppend(log: seq<Entry>, e: Entry, token: string, day: nat)
    ensures Sum(log + [e], token, day) == Sum(log, token, day) + if Of(e, token, day) then e.amount else 0
  {
    assert (log + [e])[..|log|] == log;
  }

  lemma RecordKeepsInv(limits: string -> int, s: State, req: Request, usage: int)
    requires Inv(limits, s) && req in s.flying && usage > 0 && s.flying[req] != ""
    ensures Inv(limits, Apply(limits, s, Record(req, usage)))
  {
    var s' := Apply(limits, s, Record(req, usage));
    RecordKeepsTotals(limits, s, req, usage);
    forall k | k in s.last
      ensures PassSound(limits, s', k)
    {
      RecordKeepsPass(limits, s, req, usage, k);
    }
  }

  lemma RecordKeepsTotals(limits: string -> int, s: State, req: Request, usage: int)
    requires TotalsAreSums(s) && req in s.flying && usage > 0 && s.flying[req] != ""
    ensures TotalsAreSums(Apply(limits, s, Record(req, usage)))
  {
    var s' := Apply(limits, s, Record(req, usage));
    var e := Entry(req, s.flying[req], s.today, usage);
    forall token: string, day: nat
      ensures Total(s'.totals, token, day) == Sum(s'.log, token, day)
    {
      assert Total(s.totals, token, day) == Sum(s.log, token, day);
      SumAppend(s.log, e, token, day);
    }
  }

  lemma RecordKeepsPass(limits: string -> int, s: State, req: Request, usage: int, k: (string, nat))
    requires req in s.flying && usage > 0 && s.flying[req] != "" && k in s.last && PassSound(limits, s, k)
    ensures PassSound(limits, Apply(limits, s, Record(req, usage)), k)
  {
    var e := Entry(req, s.flying[req], s.today, usage);
    assert (s.log + [e])[..s.last[k].logged] == s.log[..s.last[k].logged];
  }

  lemma CheckKeepsInv(limits: string -> int, s: State, token: string)
    requires Inv(limits, s)
    ensures Inv(limits, Apply(limits, s, Check(token)))
  {
    var s' := Apply(limits, s, Check(token));
    if s' != s {
      assert s.log[..|s.log|] == s.log;
      assert Total(s.totals, token, s.today) == Sum(s.log, token, s.today);
      forall k | k in s'.last
        ensures PassSound(limits, s', k)
      {
        if k != (token, s.today) { assert PassSound(limits, s, k); }
      }
    }
  }

  /** Steps that record nothing and pass no check. */
  lemma OtherKeepsInv(limits: string -> int, s: State, st: Step)
    requires Inv(limits, s) && (st.NewDay? || st.CheckFails? || st.Finish?)
    ensures Inv(limits, Apply(limits, s, st))
  {
    var s' := Apply(limits, s, st);
    forall k | k in s'.last
      ensures PassSound(limits, s', k)
    {
      assert PassSound(limits, s, k);
    }
  }

  lemma StepKeepsInv(limits: string -> int, s: State, st: Step)
    requires Inv(limits, s)
    ensures Inv(limits, Apply(limits, s, st))
  {
    match st {
      case Check(token) => CheckKeepsInv(limits, s, token);
      case Record(req, usage) =>
        if req in s.flying && usage > 0 && s.flying[req] != "" { RecordKeepsInv(limits, s, req, usage); }
      case _ => OtherKeepsInv(limits, s, st);
    }
  }

  lemma {:induction false} RunKeepsInv(limits: string -> int, s: State, run: seq<Step>)
    requires Inv(limits, s)
    ensures Inv(limits, Exec(limits, s, run))
    decreases |run|
  {
    if run != [] {
      StepKeepsInv(limits, s, run[0]);
      RunKeepsInv(limits, Apply(limits, s, run[0]), run[1..]);
    }
  }

  lemma {:induction false} SumSplit(log: seq<Entry>, n: nat, token: string, day: nat, reqs: set<Request>)
    requires n <= |log|
    requires forall i | n <= i < |log| && Of(log[i], token, day) :: log[i].req in reqs
    ensures Sum(log, token, day) == Sum(log[..n], token, day) + SumBy(log[n..], token, day, reqs)
  {
    if n == |log| {
      assert log[..n] == log && log[n..] == [];
    } else {
      var m := |log| - 1;
      SumSplit(log[..m], n, token, day, reqs);
      assert log[..m][..n] == log[..n] && log[..m][n..] == log[n..][..m - n];
      assert log[n..][m - n] == log[m];
    }
  }

  /** In every interleaving, a token's total for a day is the sum of the positive amounts recorded
      that day. If a check of that day ever passed, the total is below the limit plus what has been
      recorded since the last passing check by the requests in flight at it, or let through
      unchecked after it. */
  lemma OvershootIsBounded(limits: string -> int, run: seq<Step>, token: string, day: nat)
    ensures var s := Exec(limits, INIT, run);
      && Total(s.totals, token, day) == Sum(s.log, token, day)
      && ((token, day) in s.last && limits(token) > 0 ==>
            var p := s.last[(token, day)];
            && p.logged <= |s.log|
            && Total(s.totals, token, day) < limits(token) + SumBy(s.log[p.logged..], token, day, p.flying))
  {
    assert Inv(limits, INIT);
    RunKeepsInv(limits, INIT, run);
    var s := Exec(limits, INIT, run);
    if (token, day) in s.last {
      var p := s.last[(token, day)];
      assert PassSound(limits, s, (token, day));
      SumSplit(s.log, p.logged, token, day, p.flying);
    }
  }

  /** In every state of every run, a check lets the request through exactly when the token has no limit
      or what has been recorded for it that day is still below it; the request is then in flight, and
      nothing else changes for any token. A check whose query fails lets it through. */
  lemma AdmitsIff(limits: string -> int, run: seq<Step>, token: string)
    ensures var s := Exec(limits, INIT, run);
      var s' := Apply(limits, s, Check(token));
      var s'' := Apply(limits, s, CheckFails(token));
      && s.next !in s.flying
      && (s.next in s'.flying <==> limits(token) <= 0 || Sum(s.log, token, s.today) < limits(token))
      && (s.next in s'.flying ==> s'.flying == s.flying[s.next := token])
      && (s.next !in s'.flying ==> s' == s)
      && s'.totals == s.totals && s'.log == s.log
      && (limits(token) > 0 ==> s''.flying == s.flying[s.next := token])
  {
    assert Inv(limits, INIT);
    RunKeepsInv(limits, INIT, run);
    var s := Exec(limits, INIT, run);
    assert Total(s.totals, token, s.today) == Sum(s.log, token, s.today);
  }

  lemma {:induction false} NothingLogged(log: seq<Entry>, token: string, day: nat)
    requires forall e <- log :: e.day < day
    ensures Sum(log, token, day) == 0
  {
    if log != [] {
      assert log[|log| - 1] in log;
      NothingLogged(log[..|log| - 1], token, day);
    }
  }

  /** On a new day nothing counts against any token, so that its first request is let through; the
      requests still in flight stay so until they finish. */
  lemma NewDayStartsAtZero(limits: string -> int, run: seq<Step>, day: nat, token: string, req: Request)
    requires day > Exec(limits, INIT, run).today
    ensures var s := Exec(limits, INIT, run);
      var s' := Apply(limits, s, NewDay(day));
      && Total(s'.totals, token, s'.today) == 0 && s'.today == day && s'.flying == s.flying && s'.totals == s.totals
      && s'.next in Apply(limits, s', Check(token)).flying
      && Apply(limits, s, Finish(req)).flying == s.flying - {req}
  {
    assert Inv(limits, INIT);
    RunKeepsInv(limits, INIT, run);
    var s := Exec(limits, INIT, run);
    NothingLogged(s.log, token, day);
    assert Total(s.totals, token, day) == Sum(s.log, token, day);
  }

  /** A result of a request in flight is recorded in full for its token today, if positive. */
  lemma RecordsInFull(limits: string -> int, s: State, req: Request, usage: int, token: string, day: nat)
    requires req in s.flying && s.flying[req] != ""
    ensures var s' := Apply(limits, s, Record(req, usage));
      && Total(s'.totals, token, day) == Total(s.totals, token, day)
           + (if usage > 0 && token == s.flying[req] && day == s.today then usage else 0)
      && Sum(s'.log, token, day) == Sum(s.log, token, day)
           + (if usage > 0 && token == s.flying[req] && day == s.today then usage else 0)
      && s'.flying == s.flying
  {
    if usage > 0 { SumAppend(s.log, Entry(req, s.flying[req], s.today, usage), token, day); }
  }

  /** How many entries of the log each request may own, and how large they are. */
  predicate AtMostOnce(log: seq<Entry>, most: nat) {
    && (forall e <- log :: e.amount <= most)
    && (forall i, j | 0 <= i < j < |log| :: log[i].req != log[j].req)
  }

  lemma {:induction false} SumByCounts(log: seq<Entry>, token: string, day: nat, reqs: set<Request>, most: nat)
    requires AtMostOnce(log, most)
    ensures SumBy(log, token, day, reqs) <= |reqs| * most
  {
    if log != [] {
      var n := |log| - 1;
      var e := log[n];
      assert AtMostOnce(log[..n], most);
      if Of(e, token, day) && e.req in reqs {
        SumBySkips(log[..n], token, day, reqs, e.req);
        SumByCounts(log[..n], token, day, reqs - {e.req}, most);
        assert e in log;
        assert |reqs| * most == |reqs - {e.req}| * most + most;
      } else {
        SumByCounts(log[..n], token, day, reqs, most);
      }
    }
  }

  lemma {:induction false} SumBySkips(log: seq<Entry>, token: string, day: nat, reqs: set<Request>, r: Request)
    requires forall e <- log :: e.req != r
    ensures SumBy(log, token, day, reqs) == SumBy(log, token, day, reqs - {r})
  {
    if log != [] {
      assert log[|log| - 1] in log;
      SumBySkips(log[..|log| - 1], token, day, reqs, r);
    }
  }

  /** If each request records at most once and at most `most`, the total overshoots the limit by
      less than `most` for each request in flight at the last passing check or let through since. */
  lemma OvershootPerRequest(limits: string -> int, run: seq<Step>, token: string, day: nat, most: nat)
    requires limits(token) > 0 && AtMostOnce(Exec(limits, INIT, run).log, most)
    requires (token, day) in Exec(limits, INIT, run).last
    ensures var s := Exec(limits, INIT, run);
      Total(s.totals, token, day) < limits(token) + |s.last[(token, day)].flying| * most
  {
    OvershootIsBounded(limits, run, token, day);
    var s := Exec(limits, INIT, run);
    var p := s.last[(token, day)];
    assert forall e <- s.log[p.logged..] :: e in s.log;
    SumByCounts(s.log[p.logged..], token, day, p.flying, most);
  }
}
