// The sliding-window limiter's arithmetic: what its stored slices say against the full history of admissions.
// Times and durations are in nanoseconds.
module RateWindow {

  const SECOND: int := 1_000_000_000
  const WINDOW: int := 60 * SECOND
  const MAX: nat := 30

  // The stamps later than cutoff, in order.
  function After(ts: seq<int>, cutoff: int): (r: seq<int>)
    ensures |r| <= |ts|
  {
    if ts == [] then []
    else After(ts[..|ts| - 1], cutoff) + (if ts[|ts| - 1] > cutoff then [ts[|ts| - 1]] else [])
  }

  type Table = map<string, seq<int>>

  function Stamps(t: Table, ip: string): seq<int> {
    if ip in t then t[ip] else []
  }

  datatype Decision = Admitted | Refused(retryAfter: int)

  function RetryAfter(oldest: int, now: int): int {
    if oldest + WINDOW - now < SECOND then SECOND else oldest + WINDOW - now
  }

  function Decide(live: seq<int>, now: int): Decision {
    if |live| >= MAX then Refused(RetryAfter(live[0], now)) else Admitted
  }

  // rateLimiter.allow on the stored slices
  function AllowTable(t: Table, ip: string, now: int): (Table, Decision) {
    var live := After(Stamps(t, ip), now - WINDOW);
    var d := Decide(live, now);
    (t[ip := if d.Admitted? then live + [now] else live], d)
  }

  // One round of the background cleaner
  function CleanTable(t: Table, now: int): Table {
    map ip | ip in t && After(t[ip], now - WINDOW) != [] :: After(t[ip], now - WINDOW)
  }

  datatype Event = Allow(ip: string, now: int) | Clean(now: int)

  function ImplStep(t: Table, e: Event): (Table, seq<Decision>) {
    match e
    case Allow(ip, now) => var (u, d) := AllowTable(t, ip, now); (u, [d])
    case Clean(now) => (CleanTable(t, now), [])
  }

  // The specification remembers every admission and forgets nothing.
  function SpecStep(h: Table, e: Event): (Table, seq<Decision>) {
    match e
    case Allow(ip, now) =>
      var d := Decide(After(Stamps(h, ip), now - WINDOW), now);
      (if d.Admitted? then h[ip := Stamps(h, ip) + [now]] else h, [d])
    case Clean(_) => (h, [])
  }

  function Impl(t: Table, evs: seq<Event>): (Table, seq<Decision>)
    decreases |evs|
  {
    if evs == [] then (t, [])
    else
      var (u, d) := ImplStep(t, evs[0]);
      var (v, ds) := Impl(u, evs[1..]);
      (v, d + ds)
  }

  function Spec(h: Table, evs: seq<Event>): (Table, seq<Decision>)
    decreases |evs|
  {
    if evs == [] then (h, [])
    else
      var (u, d) := SpecStep(h, evs[0]);
      var (v, ds) := Spec(u, evs[1..]);
      (v, d + ds)
  }

  // Clock readings never go back.
  predicate Monotone(evs: seq<Event>, clock: int) {
    evs == [] || (clock <= evs[0].now && Monotone(evs[1..], evs[0].now))
  }

  function LastClock(evs: seq<Event>, clock: int): int {
    if evs == [] then clock else LastClock(evs[1..], evs[0].now)
  }

  // ----- filtering -----

  lemma AfterSnoc(ts: seq<int>, x: int, c: int)
    ensures After(ts + [x], c) == After(ts, c) + if x > c then [x] else []
  {
    assert (ts + [x])[..|ts|] == ts;
  }

  lemma {:induction false} AfterTwice(ts: seq<int>, c: int, d: int)
    requires c <= d
    ensures After(After(ts, c), d) == After(ts, d)
  {
    if ts != [] {
      var front, last := ts[..|ts| - 1], ts[|ts| - 1];
      AfterTwice(front, c, d);
      assert ts == front + [last];
      AfterSnoc(front, last, c);
      AfterSnoc(front, last, d);
      if last > c {
        AfterSnoc(After(front, c), last, d);
      } else {
        assert After(ts, c) == After(front, c);
      }
    }
  }

  predicate Sorted(ts: seq<int>) {
    forall i, j :: 0 <= i <= j < |ts| ==> ts[i] <= ts[j]
  }

  ghost predicate CutAt(ts: seq<int>, c: int, a: nat) {
    a <= |ts| && forall i :: 0 <= i < |ts| ==> (ts[i] > c <==> i >= a)
  }

  // In a sorted list the late stamps are a suffix.
  lemma AfterIsSuffix(ts: seq<int>, c: int) returns (a: nat)
    requires Sorted(ts)
    ensures a <= |ts| && After(ts, c) == ts[a..]
    ensures CutAt(ts, c, a)
  {
    a := 0;
    while a < |ts| && ts[a] <= c
      invariant a <= |ts| && forall i :: 0 <= i < a ==> ts[i] <= c
    {
      a := a + 1;
    }
    AfterFrom(ts, c, a);
  }

  lemma {:induction false} AfterFrom(ts: seq<int>, c: int, a: nat)
    requires CutAt(ts, c, a)
    ensures After(ts, c) == ts[a..]
  {
    if ts != [] {
      var front, last := ts[..|ts| - 1], ts[|ts| - 1];
      var b := if a == |ts| then |front| else a;
      CutFront(ts, c, a);
      AfterFrom(front, c, b);
      assert ts[a..] == front[b..] + (if last > c then [last] else []);
    }
  }

  lemma CutFront(ts: seq<int>, c: int, a: nat)
    requires ts != [] && CutAt(ts, c, a)
    ensures CutAt(ts[..|ts| - 1], c, if a == |ts| then |ts| - 1 else a)
    ensures ts[|ts| - 1] > c <==> a < |ts|
  {
  }

  // ----- refinement -----

  // Table and history agree on every stamp still inside the window at clock.
  ghost predicate Agree(t: Table, h: Table, clock: int) {
    forall ip :: After(Stamps(t, ip), clock - WINDOW) == After(Stamps(h, ip), clock - WINDOW)
  }

  lemma AgreeLater(t: Table, h: Table, clock: int, now: int)
    requires Agree(t, h, clock) && clock <= now
    ensures Agree(t, h, now)
  {
    forall ip ensures After(Stamps(t, ip), now - WINDOW) == After(Stamps(h, ip), now - WINDOW) {
      AfterTwice(Stamps(t, ip), clock - WINDOW, now - WINDOW);
      AfterTwice(Stamps(h, ip), clock - WINDOW, now - WINDOW);
    }
  }

  lemma AgreeStep(t: Table, h: Table, e: Event)
    requires Agree(t, h, e.now)
    ensures ImplStep(t, e).1 == SpecStep(h, e).1
    ensures Agree(ImplStep(t, e).0, SpecStep(h, e).0, e.now)
  {
    var cutoff := e.now - WINDOW;
    var u, g := ImplStep(t, e).0, SpecStep(h, e).0;
    forall ip ensures After(Stamps(u, ip), cutoff) == After(Stamps(g, ip), cutoff) {
      AfterTwice(Stamps(t, ip), cutoff, cutoff);
      if e.Allow? && e.ip == ip {
        AfterSnoc(After(Stamps(t, ip), cutoff), e.now, cutoff);
        AfterSnoc(Stamps(h, ip), e.now, cutoff);
      }
    }
  }

  // Whatever the interleaving of requests and clean-ups, the limiter decides as the full history would, down to
  // the retry time.
  lemma {:induction false} Refines(t: Table, h: Table, clock: int, evs: seq<Event>)
    requires Agree(t, h, clock) && Monotone(evs, clock)
    ensures Impl(t, evs).1 == Spec(h, evs).1
    ensures Agree(Impl(t, evs).0, Spec(h, evs).0, LastClock(evs, clock))
    decreases |evs|
  {
    if evs != [] {
      var e := evs[0];
      AgreeLater(t, h, clock, e.now);
      AgreeStep(t, h, e);
      Refines(ImplStep(t, e).0, SpecStep(h, e).0, e.now, evs[1..]);
    }
  }

  // ----- the bound -----

  // Sorted, and any thirty-one consecutive admissions span a full window.
  ghost predicate Spaced(ts: seq<int>) {
    Sorted(ts) && forall i :: MAX <= i < |ts| ==> ts[i - MAX] + WINDOW <= ts[i]
  }

  ghost predicate HistoryOk(h: Table, clock: int) {
    forall ip :: ip in h ==> Spaced(h[ip]) && forall i :: 0 <= i < |h[ip]| ==> h[ip][i] <= clock
  }

  lemma AdmitKeepsSpaced(ts: seq<int>, now: int)
    requires Spaced(ts) && (forall i :: 0 <= i < |ts| ==> ts[i] <= now) && |After(ts, now - WINDOW)| < MAX
    ensures Spaced(ts + [now])
  {
    var a := AfterIsSuffix(ts, now - WINDOW);
    var u := ts + [now];
    forall i | MAX <= i < |u| ensures u[i - MAX] + WINDOW <= u[i] {
      if i == |ts| {
        assert i - MAX < a;
      }
    }
  }

  lemma {:induction false} HistoryStaysOk(h: Table, clock: int, evs: seq<Event>)
    requires HistoryOk(h, clock) && Monotone(evs, clock)
    ensures HistoryOk(Spec(h, evs).0, LastClock(evs, clock))
    decreases |evs|
  {
    if evs != [] {
      var e := evs[0];
      var g := SpecStep(h, e).0;
      if e.Allow? && g != h {
        AdmitKeepsSpaced(Stamps(h, e.ip), e.now);
      }
      HistoryStaysOk(g, e.now, evs[1..]);
    }
  }

  // The stamps in (lo, hi]
  function Within(ts: seq<int>, lo: int, hi: int): seq<int> {
    if ts == [] then []
    else Within(ts[..|ts| - 1], lo, hi) + (if lo < ts[|ts| - 1] <= hi then [ts[|ts| - 1]] else [])
  }

  lemma {:induction false} WithinBound(ts: seq<int>, t: int)
    requires Spaced(ts)
    ensures |Within(ts, t - WINDOW, t)| <= MAX
    ensures ts != [] && ts[|ts| - 1] <= t ==> Within(ts, t - WINDOW, t) == After(ts, t - WINDOW)
  {
    if ts != [] {
      var front, last := ts[..|ts| - 1], ts[|ts| - 1];
      WithinBound(front, t);
      if last <= t {
        assert front == [] || front[|front| - 1] <= t;
        var a := AfterIsSuffix(ts, t - WINDOW);
        assert |ts| - 1 >= MAX ==> ts[|ts| - 1 - MAX] + WINDOW <= last;
      }
    }
  }

  // Over any run from an empty limiter, no address is admitted more than thirty times in any window.
  lemma WindowBound(evs: seq<Event>, clock: int, ip: string, t: int)
    requires Monotone(evs, clock)
    ensures |Within(Stamps(Spec(map[], evs).0, ip), t - WINDOW, t)| <= MAX
    ensures Impl(map[], evs).1 == Spec(map[], evs).1
  {
    HistoryStaysOk(map[], clock, evs);
    Refines(map[], map[], clock, evs);
    WithinBound(Stamps(Spec(map[], evs).0, ip), t);
  }

  // ----- stored slices -----

  ghost predicate SliceOk(ts: seq<int>, clock: int) {
    Sorted(ts) && |ts| <= MAX && forall i :: 0 <= i < |ts| ==> ts[i] <= clock
  }

  ghost predicate TableOk(t: Table, clock: int) {
    forall ip :: ip in t ==> SliceOk(t[ip], clock)
  }

  lemma AfterKeepsSlice(ts: seq<int>, clock: int, cutoff: int)
    requires SliceOk(ts, clock)
    ensures SliceOk(After(ts, cutoff), clock)
  {
    var a := AfterIsSuffix(ts, cutoff);
  }

  lemma TableStep(t: Table, clock: int, e: Event)
    requires TableOk(t, clock) && clock <= e.now
    ensures TableOk(ImplStep(t, e).0, e.now)
  {
    var u := ImplStep(t, e).0;
    forall ip | ip in u ensures SliceOk(u[ip], e.now) {
      AfterKeepsSlice(Stamps(t, ip), clock, e.now - WINDOW);
    }
  }

  // Stored slices stay sorted and never hold more than thirty stamps.
  lemma {:induction false} TableStaysOk(t: Table, clock: int, evs: seq<Event>)
    requires TableOk(t, clock) && Monotone(evs, clock)
    ensures TableOk(Impl(t, evs).0, LastClock(evs, clock))
    decreases |evs|
  {
    if evs != [] {
      TableStep(t, clock, evs[0]);
      TableStaysOk(ImplStep(t, evs[0]).0, evs[0].now, evs[1..]);
    }
  }

  // ----- Retry-After -----

  // No admission of ip among these decisions
  predicate NoneAdmitted(t: Table, evs: seq<Event>, ip: string)
    decreases |evs|
  {
    evs == [] || (NotAdmitted(t, evs[0], ip) && NoneAdmitted(ImplStep(t, evs[0]).0, evs[1..], ip))
  }

  predicate NotAdmitted(t: Table, e: Event, ip: string) {
    e.Allow? && e.ip == ip ==> AllowTable(t, ip, e.now).1.Refused?
  }

  // A step that does not admit ip keeps its live stamps.
  lemma ExpireStep(t: Table, e: Event, ip: string)
    requires NotAdmitted(t, e, ip)
    ensures After(Stamps(ImplStep(t, e).0, ip), e.now - WINDOW) == After(Stamps(t, ip), e.now - WINDOW)
  {
    AfterTwice(Stamps(t, ip), e.now - WINDOW, e.now - WINDOW);
  }

  // One address's live stamps at clock are those of live.
  ghost predicate LiveIs(t: Table, ip: string, live: seq<int>, clock: int) {
    After(Stamps(t, ip), clock - WINDOW) == After(live, clock - WINDOW)
  }

  lemma LiveLater(t: Table, ip: string, live: seq<int>, clock: int, now: int)
    requires LiveIs(t, ip, live, clock) && clock <= now
    ensures LiveIs(t, ip, live, now)
  {
    AfterTwice(Stamps(t, ip), clock - WINDOW, now - WINDOW);
    AfterTwice(live, clock - WINDOW, now - WINDOW);
  }

  // While nothing is admitted, the live stamps of ip only expire.
  lemma {:induction false} OnlyExpire(t: Table, live: seq<int>, clock: int, evs: seq<Event>, ip: string)
    requires Monotone(evs, clock) && NoneAdmitted(t, evs, ip) && LiveIs(t, ip, live, clock)
    ensures LiveIs(Impl(t, evs).0, ip, live, LastClock(evs, clock))
    decreases |evs|
  {
    if evs != [] {
      var e, rest := evs[0], evs[1..];
      var u := ImplStep(t, e).0;
      LiveLater(t, ip, live, clock, e.now);
      ExpireStep(t, e, ip);
      assert LiveIs(u, ip, live, e.now);
      OnlyExpire(u, live, e.now, rest, ip);
      assert evs == [e] + rest;
      ImplCons(t, e, rest);
    }
  }

  lemma {:induction false} ClockGrows(evs: seq<Event>, clock: int)
    requires Monotone(evs, clock)
    ensures clock <= LastClock(evs, clock)
  {
    if evs != [] {
      ClockGrows(evs[1..], evs[0].now);
    }
  }

  // After a refusal, and as long as the address is not admitted in between, the next call is admitted if and
  // only if the oldest live stamp has expired by then.
  lemma RefusalLasts(t: Table, clock: int, ip: string, now: int, evs: seq<Event>, later: int)
    requires TableOk(t, clock) && clock <= now
    requires AllowTable(t, ip, now).1.Refused?
    requires Monotone(evs, now) && NoneAdmitted(AllowTable(t, ip, now).0, evs, ip) && LastClock(evs, now) <= later
    ensures var oldest := After(Stamps(t, ip), now - WINDOW)[0];
      AllowTable(Impl(AllowTable(t, ip, now).0, evs).0, ip, later).1.Admitted? <==> oldest + WINDOW <= later
  {
    var live := After(Stamps(t, ip), now - WINDOW);
    var u := AllowTable(t, ip, now).0;
    AfterKeepsSlice(Stamps(t, ip), clock, now - WINDOW);
    assert Stamps(u, ip) == live;
    OnlyExpire(u, live, now, evs, ip);
    ClockGrows(evs, now);
    LiveLater(Impl(u, evs).0, ip, live, LastClock(evs, now), later);
    FullUntilExpiry(live, now, later);
  }

  lemma FullUntilExpiry(live: seq<int>, clock: int, later: int)
    requires SliceOk(live, clock) && |live| == MAX
    ensures After(live, later - WINDOW) == live || later >= live[0] + WINDOW
    ensures |After(live, later - WINDOW)| < MAX <==> live[0] + WINDOW <= later
  {
    var a := AfterIsSuffix(live, later - WINDOW);
  }

  // Before that expiry no call of the address is admitted, so the condition above needs no checking.
  lemma {:induction false} RefusedUntilExpiry(t: Table, live: seq<int>, clock: int, evs: seq<Event>, ip: string)
    requires SliceOk(live, clock) && |live| == MAX && Monotone(evs, clock) && LastClock(evs, clock) < live[0] + WINDOW
    requires LiveIs(t, ip, live, clock)
    ensures NoneAdmitted(t, evs, ip)
    decreases |evs|
  {
    if evs != [] {
      var e := evs[0];
      ClockGrows(evs[1..], e.now);
      LiveLater(t, ip, live, clock, e.now);
      FullUntilExpiry(live, clock, e.now);
      assert NotAdmitted(t, e, ip);
      ExpireStep(t, e, ip);
      RefusedUntilExpiry(ImplStep(t, e).0, live, e.now, evs[1..], ip);
    }
  }

  lemma RefusedThroughout(t: Table, clock: int, ip: string, now: int, evs: seq<Event>)
    requires TableOk(t, clock) && clock <= now && AllowTable(t, ip, now).1.Refused? && Monotone(evs, now)
    requires LastClock(evs, now) < After(Stamps(t, ip), now - WINDOW)[0] + WINDOW
    ensures NoneAdmitted(AllowTable(t, ip, now).0, evs, ip)
  {
    var live := After(Stamps(t, ip), now - WINDOW);
    AfterKeepsSlice(Stamps(t, ip), clock, now - WINDOW);
    RefusedUntilExpiry(AllowTable(t, ip, now).0, live, now, evs, ip);
  }

  // int(retryAfter.Seconds()): whole seconds, truncated
  function Header(retryAfter: int): int
    requires retryAfter >= 0
  {
    retryAfter / SECOND
  }

  lemma WholeSeconds(oldest: int, now: int)
    ensures (oldest + WINDOW - now) % SECOND == 0 <==> (oldest - now) % SECOND == 0
  {
    assert oldest + WINDOW - now == (oldest - now) + 60 * SECOND;
  }

  // The advertised wait lies between one second and one window, suffices, and loses less than a second to the
  // header's truncation; a client that waits exactly the header's seconds is served if and only if the oldest live
  // stamp lies a whole number of seconds back, or has no more than a second to go.
  lemma RetryAfterExact(t: Table, clock: int, ip: string, now: int)
    requires TableOk(t, clock) && clock <= now && AllowTable(t, ip, now).1.Refused?
    ensures var (u, d) := AllowTable(t, ip, now);
      && 1_000_000_000 <= d.retryAfter <= 60_000_000_000
      && Header(d.retryAfter) * SECOND <= d.retryAfter < (Header(d.retryAfter) + 1) * SECOND
      && AllowTable(u, ip, now + d.retryAfter).1.Admitted?
      && (AllowTable(u, ip, now + Header(d.retryAfter) * SECOND).1.Admitted? <==>
            var oldest := After(Stamps(t, ip), now - WINDOW)[0];
            (oldest - now) % SECOND == 0 || oldest + WINDOW <= now + SECOND)
  {
    var (u, d) := AllowTable(t, ip, now);
    AfterKeepsSlice(Stamps(t, ip), clock, now - WINDOW);
    var live := After(Stamps(t, ip), now - WINDOW);
    var a := AfterIsSuffix(Stamps(t, ip), now - WINDOW);
    RefusalLasts(t, clock, ip, now, [], now + d.retryAfter);
    RefusalLasts(t, clock, ip, now, [], now + Header(d.retryAfter) * SECOND);
    WholeSeconds(live[0], now);
  }

  // ----- a wait cut short by the header -----

  function Ones(n: nat): (r: seq<int>)
    ensures |r| == n && forall i :: 0 <= i < n ==> r[i] == 1
  {
    seq(n, _ => 1)
  }

  function Requests(ip: string, k: nat): (evs: seq<Event>)
    ensures |evs| == k
  {
    if k == 0 then [] else [Allow(ip, 1)] + Requests(ip, k - 1)
  }

  lemma OnesLive(n: nat, cutoff: int)
    requires cutoff < 1
    ensures After(Ones(n), cutoff) == Ones(n)
  {
    AfterFrom(Ones(n), cutoff, 0);
    assert Ones(n)[0..] == Ones(n);
  }

  // A client's first thirty requests, all at one instant, fill its slice.
  lemma {:induction false} Fills(t: Table, ip: string, have: nat, k: nat)
    requires Stamps(t, ip) == Ones(have) && have + k <= MAX
    ensures Stamps(Impl(t, Requests(ip, k)).0, ip) == Ones(have + k)
    ensures Impl(t, Requests(ip, k)).0.Keys <= t.Keys + {ip}
    decreases k
  {
    if k > 0 {
      OneRequest(t, ip, have);
      ImplCons(t, Allow(ip, 1), Requests(ip, k - 1));
      Fills(AllowTable(t, ip, 1).0, ip, have + 1, k - 1);
    }
  }

  lemma ImplCons(t: Table, e: Event, rest: seq<Event>)
    ensures Impl(t, [e] + rest).0 == Impl(ImplStep(t, e).0, rest).0
  {
    assert ([e] + rest)[1..] == rest;
  }

  lemma OneRequest(t: Table, ip: string, have: nat)
    requires Stamps(t, ip) == Ones(have) && have < MAX
    ensures Stamps(AllowTable(t, ip, 1).0, ip) == Ones(have + 1)
    ensures AllowTable(t, ip, 1).0.Keys <= t.Keys + {ip}
  {
    OnesLive(have, 1 - WINDOW);
    assert Ones(have) + [1] == Ones(have + 1);
  }

  // One nanosecond later it is refused, and again after waiting the fifty-nine seconds of the header.
  lemma HeaderTooShort(ip: string)
    ensures var t := Impl(map[], Requests(ip, MAX)).0; var (u, d) := AllowTable(t, ip, 2);
      && d == Refused(60 * SECOND - 1) && Header(d.retryAfter) == 59
      && AllowTable(u, ip, 2 + 59 * SECOND).1.Refused?
  {
    Fills(map[], ip, 0, MAX);
    var t := Impl(map[], Requests(ip, MAX)).0;
    OnesLive(MAX, 2 - WINDOW);
    RetryAfterExact(t, 1, ip, 2);
  }

  // ----- the rule in plain words -----

  lemma {:induction false} WithinIsAfter(ts: seq<int>, lo: int, hi: int)
    requires forall i :: 0 <= i < |ts| ==> ts[i] <= hi
    ensures Within(ts, lo, hi) == After(ts, lo)
  {
    if ts != [] {
      WithinIsAfter(ts[..|ts| - 1], lo, hi);
    }
  }

  lemma HistoryDecides(h: Table, ip: string, now: int)
    requires forall i :: 0 <= i < |Stamps(h, ip)| ==> Stamps(h, ip)[i] <= now
    ensures var before := Stamps(h, ip); var (g, d) := SpecStep(h, Allow(ip, now));
      && (d == [Admitted] <==> |Within(before, now - 60_000_000_000, now)| < 30)
      && Stamps(g, ip) == if |Within(before, now - 60_000_000_000, now)| < 30 then before + [now] else before
  {
    WithinIsAfter(Stamps(h, ip), now - WINDOW, now);
  }

  lemma TableDecides(t: Table, h: Table, ip: string, now: int)
    requires Agree(t, h, now)
    ensures SpecStep(h, Allow(ip, now)).1 == [AllowTable(t, ip, now).1]
  {
    AgreeStep(t, h, Allow(ip, now));
  }

  // After any traffic and clean-ups, a request is admitted if and only if fewer than thirty of its address were
  // admitted in the last sixty seconds, and its own admission is then remembered.
  lemma AdmittedExactly(evs: seq<Event>, clock: int, ip: string, now: int)
    requires Monotone(evs, clock) && LastClock(evs, clock) <= now
    ensures var h := Spec(map[], evs).0; var before := Stamps(h, ip);
      && (AllowTable(Impl(map[], evs).0, ip, now).1.Admitted? <==> |Within(before, now - 60_000_000_000, now)| < 30)
      && Stamps(SpecStep(h, Allow(ip, now)).0, ip)
         == if |Within(before, now - 60_000_000_000, now)| < 30 then before + [now] else before
  {
    var t, h := Impl(map[], evs).0, Spec(map[], evs).0;
    Refines(map[], map[], clock, evs);
    HistoryStaysOk(map[], clock, evs);
    AgreeLater(t, h, LastClock(evs, clock), now);
    TableDecides(t, h, ip, now);
    HistoryDecides(h, ip, now);
  }

  // A request of one address changes what is remembered of no other, and a clean-up nothing at all.
  lemma OthersUntouched(h: Table, ip: string, other: string, now: int)
    ensures other != ip ==> Stamps(SpecStep(h, Allow(ip, now)).0, other) == Stamps(h, other)
    ensures SpecStep(h, Clean(now)).0 == h
  {
  }

  // A clean-up leaves exactly the addresses with an admission in the last sixty seconds, and of theirs exactly those.
  lemma CleanedExactly(t: Table, now: int, ip: string)
    ensures var u := CleanTable(t, now);
      && (ip in u <==> ip in t && exists i :: 0 <= i < |t[ip]| && t[ip][i] > now - 60_000_000_000)
      && (ip in u ==> u[ip] == After(t[ip], now - 60_000_000_000) && forall i :: 0 <= i < |u[ip]| ==> u[ip][i] > now - 60_000_000_000)
  {
    if ip in t {
      AfterMeans(t[ip], now - WINDOW);
    }
  }

  lemma {:induction false} AfterMeans(ts: seq<int>, cutoff: int)
    ensures After(ts, cutoff) == [] <==> forall i :: 0 <= i < |ts| ==> ts[i] <= cutoff
    ensures forall i :: 0 <= i < |After(ts, cutoff)| ==> After(ts, cutoff)[i] > cutoff
  {
    if ts != [] {
      var front, last := ts[..|ts| - 1], ts[|ts| - 1];
      AfterMeans(front, cutoff);
      assert After(ts, cutoff) == After(front, cutoff) + (if last > cutoff then [last] else []);
      assert forall i :: 0 <= i < |front| ==> front[i] == ts[i];
    }
  }
}
