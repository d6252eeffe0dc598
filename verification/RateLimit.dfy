// The token bucket of the HTTP rate limiter, one bucket for each client.
module RateLimit {
  import opened Wrappers

  const SECOND: nat := 1_000_000_000

  // The tokens left, and when they were last counted, in nanoseconds.
  datatype ClientState = ClientState(tokens: nat, lastUpdate: nat)

  datatype Limits = Limits(requestsPerSecond: u32, burstCapacity: u32)

  datatype Request = Request(client: string, now: nat)

  function Min(a: nat, b: nat): nat { if a < b then a else b }

  // What the rate allows in that many nanoseconds, rounded down.
  function Allowance(rate: nat, elapsed: nat): nat {
    rate * elapsed / SECOND
  }

  // Time that went back counts as none.
  function Elapsed(now: nat, last: nat): nat {
    if now > last then now - last else 0
  }

  // The cast to 32 bits saturates, the sum wraps around.
  function Refilled(limits: Limits, s: ClientState, now: nat): nat {
    var added := Min(Allowance(limits.requestsPerSecond, Elapsed(now, s.lastUpdate)), U32_MAX);
    Min((s.tokens + added) % 0x1_0000_0000, limits.burstCapacity)
  }

  function StateOf(limits: Limits, clients: map<string, ClientState>, check: Request): ClientState {
    if check.client in clients then clients[check.client] else ClientState(limits.burstCapacity, check.now)
  }

  // The clients after the check, and whether it was admitted.
  function Serve(limits: Limits, clients: map<string, ClientState>, check: Request): (map<string, ClientState>, bool) {
    var tokens := Refilled(limits, StateOf(limits, clients, check), check.now);
    (clients[check.client := ClientState(if tokens > 0 then tokens - 1 else 0, check.now)], tokens > 0)
  }

  class RateLimiter {
    const limits: Limits
    var clients: map<string, ClientState>

    constructor (requestsPerSecond: u32, burstCapacity: u32)
      ensures limits == Limits(requestsPerSecond, burstCapacity) && clients == map[]
    {
      limits, clients := Limits(requestsPerSecond, burstCapacity), map[];
    }

    method Check(client: string, now: nat) returns (admitted: bool)
      modifies this
      ensures (clients, admitted) == Serve(limits, old(clients), Request(client, now))
    {
      if client !in clients { clients := clients[client := ClientState(limits.burstCapacity, now)]; }
      var state := clients[client];
      var toAdd := Min(Allowance(limits.requestsPerSecond, Elapsed(now, state.lastUpdate)), U32_MAX);
      state := state.(tokens := Min((state.tokens + toAdd) % 0x1_0000_0000, limits.burstCapacity));
      state := state.(lastUpdate := now);
      if state.tokens > 0 {
        state := state.(tokens := state.tokens - 1);
        admitted := true;
      } else {
        admitted := false;
      }
      clients := clients[client := state];
      assert clients == old(clients)[client := state];
    }
  }

  // ---- runs of checks by all clients ----

  function After(limits: Limits, checks: seq<Request>): map<string, ClientState> {
    if checks == [] then map[]
    else Serve(limits, After(limits, checks[..|checks| - 1]), checks[|checks| - 1]).0
  }

  predicate Admitted(limits: Limits, checks: seq<Request>, k: nat)
    requires k < |checks|
  {
    Serve(limits, After(limits, checks[..k]), checks[k]).1
  }

  // The client's admissions from check i on, before check j.
  function Admissions(limits: Limits, checks: seq<Request>, client: string, i: nat, j: nat): nat
    requires i <= j <= |checks|
    decreases j - i
  {
    if i == j then 0
    else
      Admissions(limits, checks, client, i, j - 1)
      + (if checks[j - 1].client == client && Admitted(limits, checks, j - 1) then 1 else 0)
  }

  ghost predicate Monotone(checks: seq<Request>) {
    forall i, j | 0 <= i < j < |checks| :: checks[i].now <= checks[j].now
  }

  // A bucket never holds more than the burst.
  lemma {:induction false} TokensBounded(limits: Limits, checks: seq<Request>, client: string)
    requires client in After(limits, checks)
    ensures After(limits, checks)[client].tokens <= limits.burstCapacity
  {
    var front := checks[..|checks| - 1];
    if client != checks[|checks| - 1].client { TokensBounded(limits, front, client); }
  }

  function Of(checks: seq<Request>, client: string): seq<Request> {
    if checks == [] then []
    else
      var last := checks[|checks| - 1];
      Of(checks[..|checks| - 1], client) + (if last.client == client then [last] else [])
  }

  // A client's bucket is what it would be without the other clients.
  lemma {:induction false} ClientsAreIsolated(limits: Limits, checks: seq<Request>, client: string)
    ensures client in After(limits, checks) <==> client in After(limits, Of(checks, client))
    ensures client in After(limits, checks)
            ==> After(limits, checks)[client] == After(limits, Of(checks, client))[client]
  {
    if checks != [] {
      var front, last := checks[..|checks| - 1], checks[|checks| - 1];
      ClientsAreIsolated(limits, front, client);
      if last.client == client {
        assert Of(checks, client)[..|Of(checks, client)| - 1] == Of(front, client);
      } else {
        assert Of(checks, client) == Of(front, client);
      }
      hide Refilled;
    }
  }

  lemma FloorsAdd(x: nat, y: nat)
    ensures x / SECOND + y / SECOND <= (x + y) / SECOND
  {
  }

  lemma AllowancesAdd(rate: nat, a: nat, b: nat)
    ensures Allowance(rate, a) + Allowance(rate, b) <= Allowance(rate, a + b)
  {
    assert rate * (a + b) == rate * a + rate * b;
    FloorsAdd(rate * a, rate * b);
  }

  lemma AllowanceGrows(rate: nat, a: nat, b: nat)
    requires a <= b
    ensures Allowance(rate, a) <= Allowance(rate, b)
  {
    AllowancesAdd(rate, a, b - a);
  }

  // ---- the bound on admissions ----

  ghost predicate Seen(checks: seq<Request>, client: string, i: nat, j: nat)
    requires i <= j <= |checks|
  {
    exists k | i <= k < j :: checks[k].client == client
  }

  // Admissions since the start and tokens left make up at most a full burst
  // and the allowance until the bucket was last counted.
  ghost predicate Within(limits: Limits, s: ClientState, start: nat, end: nat, admissions: nat) {
    && start <= s.lastUpdate <= end
    && admissions + s.tokens <= limits.burstCapacity + Allowance(limits.requestsPerSecond, s.lastUpdate - start)
  }

  ghost predicate Accounted(limits: Limits, checks: seq<Request>, client: string, i: nat, j: nat)
    requires i <= j <= |checks|
  {
    var clients, admissions := After(limits, checks[..j]), Admissions(limits, checks, client, i, j);
    if !Seen(checks, client, i, j) then admissions == 0
    else client in clients && Within(limits, clients[client], checks[i].now, checks[j - 1].now, admissions)
  }

  // A served check moves at most one token from the bucket to the admitted.
  lemma ServedAccounts(limits: Limits, clients: map<string, ClientState>, check: Request)
    ensures var (after, admitted) := Serve(limits, clients, check);
            && check.client in after && after[check.client].lastUpdate == check.now
            && after[check.client].tokens + (if admitted then 1 else 0) <= limits.burstCapacity
            && (check.client in clients && clients[check.client].lastUpdate <= check.now ==>
                  after[check.client].tokens + (if admitted then 1 else 0)
                  <= clients[check.client].tokens
                     + Allowance(limits.requestsPerSecond, check.now - clients[check.client].lastUpdate))
  {
    hide Allowance;
  }

  lemma {:induction false} AccountsHold(limits: Limits, checks: seq<Request>, client: string, i: nat, j: nat)
    requires Monotone(checks) && i <= j <= |checks|
    ensures Accounted(limits, checks, client, i, j)
    decreases j - i
  {
    if i < j {
      AccountsHold(limits, checks, client, i, j - 1);
      AccountsNext(limits, checks, client, i, j - 1);
    }
  }

  lemma AccountsNext(limits: Limits, checks: seq<Request>, client: string, i: nat, j: nat)
    requires Monotone(checks) && i <= j < |checks| && Accounted(limits, checks, client, i, j)
    ensures Accounted(limits, checks, client, i, j + 1)
  {
    assert checks[..j + 1][..j] == checks[..j];
    assert checks[i].now <= checks[j].now && (j > i ==> checks[j - 1].now <= checks[j].now);
    hide Accounted;
    if checks[j].client == client {
      OwnCheckAccounts(limits, checks, client, i, j);
    } else {
      OtherCheckAccounts(limits, checks, client, i, j);
    }
  }

  lemma OtherLeft(limits: Limits, clients: map<string, ClientState>, check: Request, client: string)
    requires check.client != client
    ensures var after := Serve(limits, clients, check).0;
            && (client in after <==> client in clients)
            && (client in clients ==> after[client] == clients[client])
  {
    hide Refilled;
  }

  // Another client's check changes nothing for this one.
  lemma OtherSame(limits: Limits, checks: seq<Request>, client: string, i: nat, j: nat)
    requires i <= j < |checks| && checks[j].client != client && checks[..j + 1][..j] == checks[..j]
    ensures Seen(checks, client, i, j + 1) <==> Seen(checks, client, i, j)
    ensures Seen(checks, client, i, j) ==> i < j
    ensures Admissions(limits, checks, client, i, j + 1) == Admissions(limits, checks, client, i, j)
    ensures var was, now := After(limits, checks[..j]), After(limits, checks[..j + 1]);
            (client in now <==> client in was) && (client in was ==> now[client] == was[client])
  {
    OtherLeft(limits, After(limits, checks[..j]), checks[j], client);
    hide Serve;
  }

  lemma OtherCheckAccounts(limits: Limits, checks: seq<Request>, client: string, i: nat, j: nat)
    requires i <= j < |checks| && Accounted(limits, checks, client, i, j)
    requires checks[i].now <= checks[j].now && (j > i ==> checks[j - 1].now <= checks[j].now)
    requires checks[j].client != client && checks[..j + 1][..j] == checks[..j]
    ensures Accounted(limits, checks, client, i, j + 1)
  {
    hide Allowance, Serve, Seen, After, Admissions;
    OtherSame(limits, checks, client, i, j);
  }

  lemma OwnCheckAccounts(limits: Limits, checks: seq<Request>, client: string, i: nat, j: nat)
    requires i <= j < |checks| && Accounted(limits, checks, client, i, j)
    requires checks[i].now <= checks[j].now && (j > i ==> checks[j - 1].now <= checks[j].now)
    requires checks[j].client == client && checks[..j + 1][..j] == checks[..j]
    ensures Accounted(limits, checks, client, i, j + 1)
  {
    var clients, check := After(limits, checks[..j]), checks[j];
    assert Seen(checks, client, i, j + 1);
    if Seen(checks, client, i, j) {
      ServedAgain(limits, clients, check, checks[i].now, checks[j - 1].now, Admissions(limits, checks, client, i, j));
    } else {
      ServedFirst(limits, clients, check, checks[i].now);
    }
    hide Seen, Within, Serve;
  }

  lemma ServedFirst(limits: Limits, clients: map<string, ClientState>, check: Request, start: nat)
    requires start <= check.now
    ensures var (after, admitted) := Serve(limits, clients, check);
            check.client in after
            && Within(limits, after[check.client], start, check.now, if admitted then 1 else 0)
  {
    ServedAccounts(limits, clients, check);
    hide Serve, Allowance;
  }

  lemma ServedAgain(limits: Limits, clients: map<string, ClientState>, check: Request, start: nat, end: nat,
                    admissions: nat)
    requires check.client in clients && Within(limits, clients[check.client], start, end, admissions)
    requires end <= check.now
    ensures var (after, admitted) := Serve(limits, clients, check);
            check.client in after
            && Within(limits, after[check.client], start, check.now, admissions + (if admitted then 1 else 0))
  {
    var before := clients[check.client];
    ServedAccounts(limits, clients, check);
    AllowancesAdd(limits.requestsPerSecond, before.lastUpdate - start, check.now - before.lastUpdate);
    hide Serve, Allowance;
  }

  lemma WithinIsBounded(limits: Limits, s: ClientState, start: nat, end: nat, admissions: nat)
    requires Within(limits, s, start, end, admissions)
    ensures admissions <= limits.burstCapacity + Allowance(limits.requestsPerSecond, end - start)
  {
    AllowanceGrows(limits.requestsPerSecond, s.lastUpdate - start, end - start);
  }

  // In any stretch of checks a client gets at most a full burst and what the
  // rate allows in the time the stretch takes.
  lemma AdmissionsBounded(limits: Limits, checks: seq<Request>, client: string, i: nat, j: nat)
    requires Monotone(checks) && i < j <= |checks|
    ensures Admissions(limits, checks, client, i, j)
            <= limits.burstCapacity
               + limits.requestsPerSecond * (checks[j - 1].now - checks[i].now) / 1_000_000_000
  {
    AccountsHold(limits, checks, client, i, j);
    AccountedIsBounded(limits, checks, client, i, j);
  }

  lemma AccountedIsBounded(limits: Limits, checks: seq<Request>, client: string, i: nat, j: nat)
    requires i < j <= |checks| && checks[i].now <= checks[j - 1].now && Accounted(limits, checks, client, i, j)
    ensures Admissions(limits, checks, client, i, j)
            <= limits.burstCapacity + Allowance(limits.requestsPerSecond, checks[j - 1].now - checks[i].now)
  {
    hide After, Admissions, Allowance, Within, Seen;
    if Seen(checks, client, i, j) {
      WithinIsBounded(limits, After(limits, checks[..j])[client], checks[i].now, checks[j - 1].now,
                      Admissions(limits, checks, client, i, j));
    }
  }

  // ---- the bucket as intended ----

  function Added(limits: Limits, s: ClientState, now: nat): nat {
    Min(Allowance(limits.requestsPerSecond, Elapsed(now, s.lastUpdate)), U32_MAX)
  }

  // The bucket without the bounds of 32 bits: what the rate allows for the time
  // since it was last counted comes on top, up to the burst.
  function IntendedRefill(limits: Limits, s: ClientState, now: nat): nat {
    var filled := if now <= s.lastUpdate then s.tokens
                  else s.tokens + limits.requestsPerSecond * (now - s.lastUpdate) / 1_000_000_000;
    if filled <= limits.burstCapacity then filled else limits.burstCapacity
  }

  function IntendedServe(limits: Limits, clients: map<string, ClientState>, check: Request)
    : (map<string, ClientState>, bool)
  {
    var tokens := IntendedRefill(limits, StateOf(limits, clients, check), check.now);
    (clients[check.client := ClientState(if tokens > 0 then tokens - 1 else 0, check.now)], tokens > 0)
  }

  function IntendedAfter(limits: Limits, checks: seq<Request>): map<string, ClientState> {
    if checks == [] then map[]
    else IntendedServe(limits, IntendedAfter(limits, checks[..|checks| - 1]), checks[|checks| - 1]).0
  }

  // The sum of the tokens left and those added leaves 32 bits, and matters.
  predicate Overflows(limits: Limits, clients: map<string, ClientState>, check: Request) {
    var s := StateOf(limits, clients, check);
    limits.burstCapacity > 0 && s.tokens + Added(limits, s, check.now) >= 0x1_0000_0000
  }

  ghost predicate OverflowsAt(limits: Limits, checks: seq<Request>, k: nat)
    requires k < |checks|
  {
    Overflows(limits, After(limits, checks[..k]), checks[k])
  }

  ghost predicate Bounded(limits: Limits, clients: map<string, ClientState>) {
    forall c | c in clients :: clients[c].tokens <= limits.burstCapacity
  }

  // One check: the bucket is refilled as intended exactly when the sum stays
  // within 32 bits, and otherwise ends up short of the burst.
  lemma RefilledAsIntended(limits: Limits, s: ClientState, now: nat)
    requires s.tokens <= limits.burstCapacity
    ensures Refilled(limits, s, now) == IntendedRefill(limits, s, now)
            <==> limits.burstCapacity == 0 || s.tokens + Added(limits, s, now) < 0x1_0000_0000
    ensures Refilled(limits, s, now) <= IntendedRefill(limits, s, now)
  {
    assert Allowance(limits.requestsPerSecond, 0) == 0;
  }

  // So decision and bucket are as intended exactly without an overflow.
  lemma ServedAsIntended(limits: Limits, clients: map<string, ClientState>, check: Request)
    requires Bounded(limits, clients)
    ensures Serve(limits, clients, check) == IntendedServe(limits, clients, check)
            <==> !Overflows(limits, clients, check)
  {
    var s := StateOf(limits, clients, check);
    RefilledAsIntended(limits, s, check.now);
    var served, intended := Serve(limits, clients, check), IntendedServe(limits, clients, check);
    assert served.0[check.client].tokens != intended.0[check.client].tokens ==> served.0 != intended.0;
    hide Allowance, Refilled, IntendedRefill, Added;
  }

  ghost predicate AsIntended(limits: Limits, checks: seq<Request>, k: nat)
    requires k < |checks|
  {
    Serve(limits, After(limits, checks[..k]), checks[k])
    == IntendedServe(limits, IntendedAfter(limits, checks[..k]), checks[k])
  }

  // A whole run: every bucket and every decision is that of the intended
  // bucket exactly when no check's sum leaves 32 bits.
  lemma RunsAsIntended(limits: Limits, checks: seq<Request>)
    ensures (forall k | 0 <= k < |checks| :: AsIntended(limits, checks, k))
            <==> (forall k | 0 <= k < |checks| :: !OverflowsAt(limits, checks, k))
  {
    if forall k | 0 <= k < |checks| :: AsIntended(limits, checks, k) {
      forall k | 0 <= k < |checks| ensures !OverflowsAt(limits, checks, k) {
        SameUpTo(limits, checks, k);
        AllBounded(limits, checks[..k]);
        assert AsIntended(limits, checks, k);
        ServedAsIntended(limits, After(limits, checks[..k]), checks[k]);
      }
    }
    if forall k | 0 <= k < |checks| :: !OverflowsAt(limits, checks, k) {
      NoOverflowSoFar(limits, checks, |checks|);
    }
  }

  lemma AllBounded(limits: Limits, checks: seq<Request>)
    ensures Bounded(limits, After(limits, checks))
  {
    forall c | c in After(limits, checks) ensures After(limits, checks)[c].tokens <= limits.burstCapacity {
      TokensBounded(limits, checks, c);
    }
  }

  lemma SameUpTo(limits: Limits, checks: seq<Request>, n: nat)
    requires n <= |checks| && forall k | 0 <= k < n :: AsIntended(limits, checks, k)
    ensures After(limits, checks[..n]) == IntendedAfter(limits, checks[..n])
  {
    if n > 0 {
      assert AsIntended(limits, checks, n - 1);
      assert checks[..n][..n - 1] == checks[..n - 1];
    }
  }

  lemma {:induction false} NoOverflowSoFar(limits: Limits, checks: seq<Request>, n: nat)
    requires n <= |checks|
    requires forall k | 0 <= k < n :: !OverflowsAt(limits, checks, k)
    ensures forall k | 0 <= k < n :: AsIntended(limits, checks, k)
  {
    hide AsIntended, OverflowsAt;
    if n > 0 {
      NoOverflowSoFar(limits, checks, n - 1);
      SameUpTo(limits, checks, n - 1);
      NextAsIntended(limits, checks, n - 1);
    }
  }

  lemma NextAsIntended(limits: Limits, checks: seq<Request>, n: nat)
    requires n < |checks| && !OverflowsAt(limits, checks, n)
    requires After(limits, checks[..n]) == IntendedAfter(limits, checks[..n])
    ensures AsIntended(limits, checks, n)
  {
    AllBounded(limits, checks[..n]);
    ServedAsIntended(limits, After(limits, checks[..n]), checks[n]);
  }

  // A check refused against a bucket at hand: without burst, with nothing left
  // and nothing added, or when the sum wraps around to zero.
  lemma RefusedExactly(limits: Limits, clients: map<string, ClientState>, check: Request)
    requires check.client in clients ==> clients[check.client].tokens <= limits.burstCapacity
    ensures var s := StateOf(limits, clients, check);
            var added := Added(limits, s, check.now);
            !Serve(limits, clients, check).1
            <==> limits.burstCapacity == 0 || s.tokens + added == 0 || s.tokens + added == 0x1_0000_0000
  {
    hide Allowance;
  }

  // A client that has used four of five tokens and then pauses for fifty days
  // comes back to an overflow, and is refused.
  const PAUSE: nat := 4_294_967_295_000_000

  lemma AfterNext(limits: Limits, checks: seq<Request>, check: Request)
    ensures After(limits, checks + [check]) == Serve(limits, After(limits, checks), check).0
  {
    assert (checks + [check])[..|checks|] == checks;
  }

  // One more check at the same instant takes one more token.
  lemma UsesOne(limits: Limits, checks: seq<Request>, check: Request, tokens: nat)
    requires 0 < tokens <= limits.burstCapacity
    requires StateOf(limits, After(limits, checks), check) == ClientState(tokens, check.now)
    ensures StateOf(limits, After(limits, checks + [check]), check) == ClientState(tokens - 1, check.now)
  {
    AfterNext(limits, checks, check);
    assert Allowance(limits.requestsPerSecond, 0) == 0;
    hide After, Allowance;
  }

  lemma PauseOverflows(client: string)
    ensures var limits, now, late := Limits(1000, 5), Request(client, 0), Request(client, PAUSE);
            && OverflowsAt(limits, [now, now, now, now, late], 4)
            && !Admitted(limits, [now, now, now, now, late], 4)
  {
    var limits, now, late := Limits(1000, 5), Request(client, 0), Request(client, PAUSE);
    UsesOne(limits, [], now, 5);
    UsesOne(limits, [] + [now], now, 4);
    UsesOne(limits, [] + [now] + [now], now, 3);
    UsesOne(limits, [] + [now] + [now] + [now], now, 2);
    assert [now, now, now, now, late][..4] == [] + [now] + [now] + [now] + [now];
    assert Allowance(1000, PAUSE) == U32_MAX;
    AfterNext(limits, [] + [now] + [now] + [now], now);
    hide After, Allowance;
  }

  function Count(checks: seq<Request>, client: string): nat {
    if checks == [] then 0
    else Count(checks[..|checks| - 1], client) + (if checks[|checks| - 1].client == client then 1 else 0)
  }

  ghost predicate Granted(limits: Limits, checks: seq<Request>, client: string, j: nat)
    requires j <= |checks|
  {
    var clients, n := After(limits, checks[..j]), Count(checks[..j], client);
    && Admissions(limits, checks, client, 0, j) == n
    && (client in clients ==>
          && limits.burstCapacity <= clients[client].tokens + n && clients[client].tokens <= limits.burstCapacity
          && j > 0 && checks[0].now <= clients[client].lastUpdate <= checks[j - 1].now)
    && (client !in clients ==> n == 0)
  }

  // A client that has made no more checks than the burst had all admitted, as
  // long as the refill cannot exceed 32 bits.
  lemma {:induction false} BurstIsGranted(limits: Limits, checks: seq<Request>, client: string, j: nat)
    requires Monotone(checks) && j <= |checks| && Count(checks[..j], client) <= limits.burstCapacity
    requires checks != [] ==>
               limits.burstCapacity
               + limits.requestsPerSecond * (checks[|checks| - 1].now - checks[0].now) / 1_000_000_000 < 0x1_0000_0000
    ensures Admissions(limits, checks, client, 0, j) == Count(checks[..j], client)
    ensures Granted(limits, checks, client, j)
  {
    if j > 0 {
      assert checks[..j][..j - 1] == checks[..j - 1];
      BurstIsGranted(limits, checks, client, j - 1);
      assert checks[0].now <= checks[j - 1].now <= checks[|checks| - 1].now;
      assert j > 1 ==> checks[j - 2].now <= checks[j - 1].now;
      GrantNext(limits, checks, client, j - 1, checks[|checks| - 1].now - checks[0].now);
    }
  }

  lemma GrantNext(limits: Limits, checks: seq<Request>, client: string, j: nat, span: nat)
    requires j < |checks| && checks[..j + 1][..j] == checks[..j]
    requires Granted(limits, checks, client, j) && Count(checks[..j + 1], client) <= limits.burstCapacity
    requires checks[0].now <= checks[j].now <= checks[0].now + span && (j > 0 ==> checks[j - 1].now <= checks[j].now)
    requires limits.burstCapacity + Allowance(limits.requestsPerSecond, span) < 0x1_0000_0000
    ensures Granted(limits, checks, client, j + 1)
  {
    var clients, check := After(limits, checks[..j]), checks[j];
    if check.client == client {
      var s := StateOf(limits, clients, check);
      AllowanceGrows(limits.requestsPerSecond, Elapsed(check.now, s.lastUpdate), span);
      NeverRefused(limits, clients, check);
      hide Serve, Allowance;
    } else {
      hide Refilled, Allowance;
    }
  }

  lemma NeverRefused(limits: Limits, clients: map<string, ClientState>, check: Request)
    requires var s := StateOf(limits, clients, check);
             && 0 < s.tokens <= limits.burstCapacity
             && s.tokens + Allowance(limits.requestsPerSecond, Elapsed(check.now, s.lastUpdate)) < 0x1_0000_0000
    ensures var (after, admitted) := Serve(limits, clients, check);
            && admitted && check.client in after && after[check.client].lastUpdate == check.now
            && StateOf(limits, clients, check).tokens <= after[check.client].tokens + 1 <= limits.burstCapacity
  {
    hide Allowance;
  }
}
