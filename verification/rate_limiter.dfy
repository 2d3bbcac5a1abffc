/** The fixed-window limiter in front of the login route. */
module RateLimiter {
  import opened Wrappers

  datatype Entry = Entry(count: nat, resetAt: int)
  datatype Policy = Policy(limit: int, window: nat)

  type Entries = map<string, Entry>

  /** Without an allowance, the seconds until the window ends. */
  datatype Answer = Granted | Refused(retryAfterSeconds: int)

  function Ceil(ms: int): (seconds: int)
    ensures 1000 * (seconds - 1) < ms <= 1000 * seconds
  {
    (ms + 999) / 1000
  }

  function Allow(p: Policy, m: Entries, key: string, now: int): (r: (Entries, Answer))
    ensures r.1.Granted? ==> key in r.0
  {
    if key !in m || m[key].resetAt <= now then (m[key := Entry(1, now + p.window)], Granted)
    else if m[key].count >= p.limit then (m, Refused(Ceil(m[key].resetAt - now)))
    else (m[key := Entry(m[key].count + 1, m[key].resetAt)], Granted)
  }

  function Swept(m: Entries, now: int): (r: Entries) {
    map key | key in m && m[key].resetAt > now :: m[key]
  }

  class FixedWindowRateLimiter {
    const policy: Policy
    var entries: Entries

    constructor (limit: int, window: nat)
      ensures policy == Policy(limit, window) && entries == map[]
    {
      policy, entries := Policy(limit, window), map[];
    }

    method TryAllow(key: string, now: int) returns (answer: Answer)
      modifies this
      ensures (entries, answer) == Allow(policy, old(entries), key, now)
    {
      if key !in entries || entries[key].resetAt <= now {
        entries := entries[key := Entry(1, now + policy.window)];
        return Granted;
      }
      var current := entries[key];
      if current.count >= policy.limit {
        return Refused(Ceil(current.resetAt - now));
      }
      entries := entries[key := current.(count := current.count + 1)];
      answer := Granted;
    }

    method Reset(key: string)
      modifies this
      ensures entries == old(entries) - {key}
    {
      entries := entries - {key};
    }

    method Sweep(now: int)
      modifies this
      ensures entries == Swept(old(entries), now)
    {
      var rest := entries.Keys;
      while rest != {}
        invariant rest <= old(entries).Keys
        invariant forall key :: key in entries <==> key in old(entries) && (key in rest || old(entries)[key].resetAt > now)
        invariant forall key | key in entries :: entries[key] == old(entries)[key]
        decreases |rest|
      {
        var key :| key in rest;
        if entries[key].resetAt <= now {
          entries := entries - {key};
        }
        rest := rest - {key};
      }
    }
  }

  /** What a sweep keeps is what a call at that time would go on counting; what
      it drops, a call would count anew. */
  lemma SweptIsStale(p: Policy, m: Entries, key: string, now: int)
    requires p.window > 0
    ensures key in Swept(m, now) <==> key in m && Allow(p, m, key, now).0[key].resetAt == m[key].resetAt
    ensures key in Swept(m, now) ==> Swept(m, now)[key] == m[key]
  {
  }

  // ------------------------------------------------------------------- histories

  datatype Event = Call(key: string, now: int) | Forget(key: string) | Sweeping(now: int)

  function Next(p: Policy, m: Entries, e: Event): (r: Entries) {
    match e
    case Call(key, now) => Allow(p, m, key, now).0
    case Forget(key) => m - {key}
    case Sweeping(now) => Swept(m, now)
  }

  function Run(p: Policy, events: seq<Event>): (m: Entries)
    decreases |events|
  {
    if events == [] then map[] else Next(p, Run(p, events[..|events| - 1]), events[|events| - 1])
  }

  function Answers(p: Policy, events: seq<Event>): (r: seq<Answer>)
    decreases |events|
  {
    if events == [] then []
    else
      var before, e := events[..|events| - 1], events[|events| - 1];
      if e.Call? then Answers(p, before) + [Allow(p, Run(p, before), e.key, e.now).1] else Answers(p, before)
  }

  /** The latest time so far; `start` is when the history begins. */
  function Clock(start: int, events: seq<Event>): (now: int)
    decreases |events|
  {
    if events == [] then start
    else if events[|events| - 1].Forget? then Clock(start, events[..|events| - 1])
    else events[|events| - 1].now
  }

  /** The clock does not run backwards. */
  predicate Ordered(start: int, events: seq<Event>)
    decreases |events|
  {
    events == [] || (
      && Ordered(start, events[..|events| - 1])
      && (events[|events| - 1].Forget? || Clock(start, events[..|events| - 1]) <= events[|events| - 1].now))
  }

  // ------------------------------------------------------------ sweeps are invisible

  function WithoutSweeps(events: seq<Event>): (r: seq<Event>)
    decreases |events|
  {
    if events == [] then []
    else if events[|events| - 1].Sweeping? then WithoutSweeps(events[..|events| - 1])
    else WithoutSweeps(events[..|events| - 1]) + [events[|events| - 1]]
  }

  /** The entries that still matter are the same. */
  ghost predicate Alike(a: Entries, b: Entries, now: int) {
    forall key | key in a || key in b ::
      (key in a && a[key].resetAt > now) || (key in b && b[key].resetAt > now) ==> key in a && key in b && a[key] == b[key]
  }

  lemma AlikeStays(p: Policy, a: Entries, b: Entries, was: int, e: Event)
    requires Alike(a, b, was) && !e.Sweeping? && (e.Call? ==> was <= e.now)
    ensures Alike(Next(p, a, e), Next(p, b, e), if e.Call? then e.now else was)
    ensures e.Call? ==> Allow(p, a, e.key, e.now).1 == Allow(p, b, e.key, e.now).1
  {
  }

  lemma SweepStays(a: Entries, b: Entries, was: int, now: int)
    requires Alike(a, b, was) && was <= now
    ensures Alike(Swept(a, now), b, now)
  {
  }

  lemma RunSnoc(p: Policy, events: seq<Event>, e: Event)
    ensures Run(p, events + [e]) == Next(p, Run(p, events), e)
    ensures Answers(p, events + [e]) == Answers(p, events) + if e.Call? then [Allow(p, Run(p, events), e.key, e.now).1] else []
  {
    assert (events + [e])[..|events|] == events;
  }

  /** Sweeps inserted anywhere change no answer. */
  lemma {:induction false} SweepsAreInvisible(p: Policy, start: int, events: seq<Event>)
    requires Ordered(start, events)
    ensures Answers(p, events) == Answers(p, WithoutSweeps(events))
    ensures Alike(Run(p, events), Run(p, WithoutSweeps(events)), Clock(start, events))
    decreases |events|
  {
    if events != [] {
      var before, e := events[..|events| - 1], events[|events| - 1];
      SweepsAreInvisible(p, start, before);
      if e.Sweeping? {
        SweepStays(Run(p, before), Run(p, WithoutSweeps(before)), Clock(start, before), e.now);
      } else {
        AlikeStays(p, Run(p, before), Run(p, WithoutSweeps(before)), Clock(start, before), e);
        RunSnoc(p, WithoutSweeps(before), e);
      }
    }
  }

  // --------------------------------------------------------------- how many grants

  /** A grant, with the window it was counted in and its number there. */
  datatype Grant = Grant(at: int, start: int, number: nat)

  function Grants(p: Policy, events: seq<Event>, key: string): (r: seq<Grant>)
    decreases |events|
  {
    if events == [] then []
    else
      var before, e := events[..|events| - 1], events[|events| - 1];
      var (m, answer) := if e.Call? then Allow(p, Run(p, before), e.key, e.now) else (map[], Refused(0));
      if e.Call? && e.key == key && answer.Granted?
      then Grants(p, before, key) + [Grant(e.now, m[key].resetAt - p.window, m[key].count)]
      else Grants(p, before, key)
  }

  /** A limit below one still grants the call that opens a window. */
  function Quota(p: Policy): (n: nat)
    ensures n >= 1
  {
    if p.limit < 1 then 1 else p.limit
  }

  /** The next grant counts on in the window, or opens one after it ended. */
  predicate Follows(p: Policy, g: Grant, h: Grant) {
    if h.number == 1 then h.start == h.at && h.at >= g.start + p.window
    else h.start == g.start && h.number == g.number + 1
  }

  predicate Counted(p: Policy, g: Grant) {
    && 1 <= g.number <= Quota(p) && g.start <= g.at
    && (g.number == 1 ==> g.at == g.start)
    && (g.number > 1 ==> g.at < g.start + p.window)
  }

  predicate Windows(p: Policy, grants: seq<Grant>) {
    && (forall i :: 0 <= i < |grants| ==> Counted(p, grants[i]))
    && (forall i, j :: 0 <= i && j == i + 1 < |grants| ==> Follows(p, grants[i], grants[j]))
  }

  predicate NoReset(events: seq<Event>, key: string) {
    Forget(key) !in events
  }

  /** The entry is that of the last grant, or is gone because its window ended. */
  predicate EntryMatches(p: Policy, m: Entries, key: string, grants: seq<Grant>, now: int) {
    if grants == [] then key !in m
    else
      var last := grants[|grants| - 1];
      && last.at <= now
      && if key in m then m[key] == Entry(last.number, last.start + p.window) else last.start + p.window <= now
  }

  lemma WindowsGrow(p: Policy, grants: seq<Grant>, g: Grant)
    requires Windows(p, grants) && Counted(p, g) && (grants != [] ==> Follows(p, grants[|grants| - 1], g))
    ensures Windows(p, grants + [g])
  {
  }

  lemma LastIsCounted(p: Policy, grants: seq<Grant>)
    requires Windows(p, grants) && grants != []
    ensures Counted(p, grants[|grants| - 1])
  {
  }

  /** A granted call is the next in its window or opens another. */
  lemma GrantedFollows(p: Policy, m: Entries, key: string, grants: seq<Grant>, was: int, now: int)
    requires EntryMatches(p, m, key, grants, was) && was <= now && Allow(p, m, key, now).1.Granted?
    requires grants != [] ==> Counted(p, grants[|grants| - 1])
    ensures var entry := Allow(p, m, key, now).0[key];
            var g := Grant(now, entry.resetAt - p.window, entry.count);
            && Counted(p, g) && (grants != [] ==> Follows(p, grants[|grants| - 1], g))
            && EntryMatches(p, Allow(p, m, key, now).0, key, grants + [g], now)
  {
  }

  lemma OthersKeepTheEntry(p: Policy, m: Entries, key: string, grants: seq<Grant>, was: int, e: Event)
    requires EntryMatches(p, m, key, grants, was) && e != Forget(key) && (!e.Forget? ==> was <= e.now)
    requires e.Call? && e.key == key ==> Allow(p, m, key, e.now).1.Refused?
    ensures EntryMatches(p, Next(p, m, e), key, grants, if e.Forget? then was else e.now)
  {
  }

  lemma {:induction false} GrantsAreWindowed(p: Policy, start: int, events: seq<Event>, key: string)
    requires Ordered(start, events) && NoReset(events, key)
    ensures Windows(p, Grants(p, events, key))
    ensures EntryMatches(p, Run(p, events), key, Grants(p, events, key), Clock(start, events))
    decreases |events|
  {
    hide Windows, Counted, Follows, EntryMatches, Allow, Next;
    if events == [] {
      NoWindows(p);
    } else {
      var before, e := events[..|events| - 1], events[|events| - 1];
      assert e in events && forall b :: b in before ==> b in events;
      GrantsAreWindowed(p, start, before, key);
      if e.Call? && e.key == key && Allow(p, Run(p, before), key, e.now).1.Granted? {
        var entry := Allow(p, Run(p, before), key, e.now).0[key];
        if Grants(p, before, key) != [] {
          LastIsCounted(p, Grants(p, before, key));
        }
        GrantedFollows(p, Run(p, before), key, Grants(p, before, key), Clock(start, before), e.now);
        WindowsGrow(p, Grants(p, before, key), Grant(e.now, entry.resetAt - p.window, entry.count));
        assert Run(p, events) == Next(p, Run(p, before), e);
        CallIsAllow(p, Run(p, before), e);
      } else {
        OthersKeepTheEntry(p, Run(p, before), key, Grants(p, before, key), Clock(start, before), e);
      }
    }
  }

  lemma CallIsAllow(p: Policy, m: Entries, e: Event)
    requires e.Call?
    ensures Next(p, m, e) == Allow(p, m, e.key, e.now).0
  {
  }

  lemma NoWindows(p: Policy)
    ensures Windows(p, [])
    ensures forall key, now :: EntryMatches(p, map[], key, [], now)
  {
  }

  /** Later grants share the window and count on, or come from later windows. */
  lemma {:induction false} LaterGrant(p: Policy, grants: seq<Grant>, i: nat, j: nat)
    requires Windows(p, grants) && i <= j < |grants|
    ensures || (grants[j].start == grants[i].start && grants[j].number - grants[i].number == j - i)
            || grants[j].start >= grants[i].start + p.window
    decreases j
  {
    if i < j {
      LaterGrant(p, grants, i, j - 1);
      assert Follows(p, grants[j - 1], grants[j]);
    }
  }

  /** As many grants later as a window has left, another window has begun. */
  lemma BeyondTheWindow(p: Policy, grants: seq<Grant>, i: nat, j: nat)
    requires Windows(p, grants) && i <= j < |grants| && j - i > Quota(p) - grants[i].number
    ensures grants[j].start >= grants[i].start + p.window
  {
    LaterGrant(p, grants, i, j);
  }

  /** Between resets a window grants at most the limit. */
  lemma WindowKeepsTheLimit(p: Policy, start: int, events: seq<Event>, key: string, i: nat, j: nat)
    requires Ordered(start, events) && NoReset(events, key) && i <= j < |Grants(p, events, key)|
    requires p.window > 0 && Grants(p, events, key)[i].start == Grants(p, events, key)[j].start
    ensures j - i + 1 <= Quota(p)
  {
    GrantsAreWindowed(p, start, events, key);
    LaterGrant(p, Grants(p, events, key), i, j);
  }

  /** Between resets, any half-open interval as long as a window holds fewer
      than twice the limit of grants: that many in a row take a whole window. */
  lemma FewerThanTwiceTheLimit(p: Policy, start: int, events: seq<Event>, key: string, i: nat, j: nat)
    requires Ordered(start, events) && NoReset(events, key) && i <= j < |Grants(p, events, key)|
    requires j - i + 1 >= 2 * Quota(p)
    ensures Grants(p, events, key)[j].at >= Grants(p, events, key)[i].at + p.window
  {
    var grants := Grants(p, events, key);
    GrantsAreWindowed(p, start, events, key);
    assert Counted(p, grants[i]) && Counted(p, grants[j]);
    if grants[i].number == 1 {
      BeyondTheWindow(p, grants, i, j);
    } else {
      var k := i + Quota(p) - 1;
      assert Counted(p, grants[k]);
      BeyondTheWindow(p, grants, i, k);
      BeyondTheWindow(p, grants, k, j);
    }
  }

  function Burst(key: string, now: int, n: nat): (events: seq<Event>) {
    seq(n, _ => Call(key, now))
  }

  /** A burst within what the window has left is granted in full. */
  lemma {:induction false} BurstIsGranted(p: Policy, before: seq<Event>, key: string, now: int, n: nat)
    requires key in Run(p, before) && Run(p, before)[key].resetAt > now && Run(p, before)[key].count + n <= p.limit
    ensures var events := before + Burst(key, now, n);
            && key in Run(p, events) && Run(p, events)[key] == Entry(Run(p, before)[key].count + n, Run(p, before)[key].resetAt)
            && |Grants(p, events, key)| == |Grants(p, before, key)| + n
    ensures Grants(p, before, key) <= Grants(p, before + Burst(key, now, n), key)
    ensures forall i :: |Grants(p, before, key)| <= i < |Grants(p, before, key)| + n ==> Grants(p, before + Burst(key, now, n), key)[i].at == now
    decreases n
  {
    hide Run, Grants;
    if n == 0 {
      assert before + Burst(key, now, n) == before;
    } else {
      BurstIsGranted(p, before, key, now, n - 1);
      assert before + Burst(key, now, n) == (before + Burst(key, now, n - 1)) + [Call(key, now)];
      RunSnoc(p, before + Burst(key, now, n - 1), Call(key, now));
      GrantsSnoc(p, before + Burst(key, now, n - 1), key, now);
    }
  }

  lemma GrantsSnoc(p: Policy, events: seq<Event>, key: string, now: int)
    requires Allow(p, Run(p, events), key, now).1.Granted?
    ensures |Grants(p, events + [Call(key, now)], key)| == |Grants(p, events, key)| + 1
    ensures Grants(p, events, key) <= Grants(p, events + [Call(key, now)], key)
    ensures Grants(p, events + [Call(key, now)], key)[|Grants(p, events, key)|].at == now
  {
    assert (events + [Call(key, now)])[..|events|] == events;
  }

  lemma NoGrants(p: Policy, key: string)
    ensures Grants(p, [], key) == []
  {
  }

  /** One call opens a window; two bursts astride its end follow. */
  function Astride(p: Policy, key: string): (events: seq<Event>)
    requires p.limit >= 1
  {
    [Call(key, 0)] + Burst(key, p.window - 1, p.limit - 1) + [Call(key, p.window)] + Burst(key, p.window, p.limit - 1)
  }

  lemma FirstHalf(p: Policy, key: string)
    requires p.limit >= 1 && p.window >= 1
    ensures var first := [Call(key, 0)] + Burst(key, p.window - 1, p.limit - 1);
            && key in Run(p, first) && Run(p, first)[key].resetAt == p.window
            && |Grants(p, first, key)| == p.limit
            && (p.limit > 1 ==> Grants(p, first, key)[1].at == p.window - 1)
  {
    var open := [Call(key, 0)];
    RunSnoc(p, [], Call(key, 0));
    GrantsSnoc(p, [], key, 0);
    NoGrants(p, key);
    assert [] + open == open;
    assert Run(p, open) == map[key := Entry(1, p.window)];
    hide Run, Grants;
    BurstIsGranted(p, open, key, p.window - 1, p.limit - 1);
  }

  lemma {:induction false} BurstIsOrdered(start: int, events: seq<Event>, key: string, now: int, n: nat)
    requires Ordered(start, events) && Clock(start, events) <= now
    ensures Ordered(start, events + Burst(key, now, n))
    ensures Clock(start, events + Burst(key, now, n)) == if n == 0 then Clock(start, events) else now
    decreases n
  {
    if n == 0 {
      assert events + Burst(key, now, n) == events;
    } else {
      BurstIsOrdered(start, events, key, now, n - 1);
      assert (events + Burst(key, now, n))[..|events| + n - 1] == events + Burst(key, now, n - 1);
    }
  }

  lemma AstrideIsOrdered(p: Policy, key: string)
    requires p.limit >= 1 && p.window >= 1
    ensures Ordered(0, Astride(p, key)) && NoReset(Astride(p, key), key)
  {
    var open := [Call(key, 0)];
    assert open == [] + Burst(key, 0, 1);
    BurstIsOrdered(0, [], key, 0, 1);
    BurstIsOrdered(0, open, key, p.window - 1, p.limit - 1);
    var first := open + Burst(key, p.window - 1, p.limit - 1);
    BurstIsOrdered(0, first, key, p.window, 1);
    assert first + Burst(key, p.window, 1) == first + [Call(key, p.window)];
    BurstIsOrdered(0, first + [Call(key, p.window)], key, p.window, p.limit - 1);
  }

  /** The bound is exact: one grant less than twice the limit fits into a moment. */
  lemma TwiceTheLimitLessOne(p: Policy, key: string)
    requires p.limit >= 1 && p.window >= 1
    ensures Ordered(0, Astride(p, key)) && NoReset(Astride(p, key), key)
    ensures var grants := Grants(p, Astride(p, key), key);
            && |grants| == 2 * p.limit
            && grants[2 * p.limit - 1].at - grants[1].at <= 1
  {
    hide Run, Grants, Ordered, NoReset;
    AstrideIsOrdered(p, key);
    FirstHalf(p, key);
    var first := [Call(key, 0)] + Burst(key, p.window - 1, p.limit - 1);
    var reopened := first + [Call(key, p.window)];
    RunSnoc(p, first, Call(key, p.window));
    GrantsSnoc(p, first, key, p.window);
    assert key in Run(p, reopened) && Run(p, reopened)[key] == Entry(1, 2 * p.window);
    BurstIsGranted(p, reopened, key, p.window, p.limit - 1);
    var grants := Grants(p, Astride(p, key), key);
    assert grants[p.limit].at == p.window;
    assert grants[2 * p.limit - 1].at == p.window;
  }

  // ----------------------------------------------------------------- advised waits

  /** No call of this key is granted during `mid`. */
  ghost predicate NoneGranted(p: Policy, before: seq<Event>, mid: seq<Event>, key: string) {
    Grants(p, before + mid, key) == Grants(p, before, key) && NoReset(mid, key)
  }

  lemma {:induction false} RefusalLasts(p: Policy, start: int, before: seq<Event>, mid: seq<Event>, key: string)
    requires Ordered(start, before + mid) && NoneGranted(p, before, mid, key)
    requires key in Run(p, before)
    ensures var m := Run(p, before + mid);
            if key in m then m[key] == Run(p, before)[key] else Run(p, before)[key].resetAt <= Clock(start, before + mid)
    decreases |mid|
  {
    if mid == [] {
      assert before + mid == before;
    } else {
      var e := mid[|mid| - 1];
      var init := mid[..|mid| - 1];
      assert (before + mid)[..|before + mid| - 1] == before + init && (before + mid)[|before + mid| - 1] == e;
      assert e in mid && forall b :: b in init ==> b in mid;
      GrantsGrow(p, before, init, key);
      RefusalLasts(p, start, before, init, key);
    }
  }

  lemma {:induction false} GrantsGrow(p: Policy, before: seq<Event>, mid: seq<Event>, key: string)
    ensures |Grants(p, before, key)| <= |Grants(p, before + mid, key)|
    ensures Grants(p, before + mid, key)[..|Grants(p, before, key)|] == Grants(p, before, key)
    decreases |mid|
  {
    if mid == [] {
      assert before + mid == before;
    } else {
      assert (before + mid)[..|before + mid| - 1] == before + mid[..|mid| - 1];
      GrantsGrow(p, before, mid[..|mid| - 1], key);
    }
  }

  /** After a refusal the next call is granted if and only if the window has
      ended by then; the advised wait is the shortest in whole seconds that
      makes sure of it. */
  lemma AdvisedWaitIsExact(p: Policy, start: int, before: seq<Event>, mid: seq<Event>, key: string, now: int, later: int)
    requires Ordered(start, before + [Call(key, now)] + mid) && Clock(start, before + [Call(key, now)] + mid) <= later
    requires Allow(p, Run(p, before), key, now).1.Refused?
    requires NoneGranted(p, before + [Call(key, now)], mid, key)
    ensures var end := Run(p, before)[key].resetAt;
            var seconds := Allow(p, Run(p, before), key, now).1.retryAfterSeconds;
            && (Allow(p, Run(p, before + [Call(key, now)] + mid), key, later).1.Granted? <==> later >= end)
            && now + 1000 * (seconds - 1) < end <= now + 1000 * seconds
  {
    RunSnoc(p, before, Call(key, now));
    RefusalLasts(p, start, before + [Call(key, now)], mid, key);
  }
}
