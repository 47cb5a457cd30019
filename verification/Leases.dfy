/** The cross-process lease registry: expiring write leases handed out in FIFO
    ticket order, each with a fencing token
    (agent/app/execution/write_intents.py, FileWriteLeaseStore). */
module Leases {
  import opened Ordering
  import opened Scopes

  datatype Lease = Lease(id: string, owner: string, ownerLabel: string, scopes: seq<WriteScope>,
                         token: nat, expiresAt: int)

  datatype Waiter = Waiter(owner: string, ownerLabel: string, fingerprint: seq<(string, bool)>,
                           scopes: seq<WriteScope>, ticket: nat, updatedAt: int)

  datatype Registry = Registry(leases: seq<Lease>, waiters: seq<Waiter>,
                               nextTicket: nat, nextToken: nat)

  datatype Claim = Claim(id: string, owner: string, ownerLabel: string, scopes: seq<WriteScope>,
                         token: nat, expiresAt: int)

  /** What one acquire call answers. */
  datatype Outcome =
    | NothingRequested
    | Reused(claim: Claim)
    | Granted(claim: Claim)
    | Queued(conflicts: seq<Claim>, position: nat)

  datatype Ttl = Ttl(lease: int, waiter: int)

  /** The lifetimes the store's constructor admits. */
  predicate ValidTtl(ttl: Ttl) {
    ttl.lease >= 30 && ttl.waiter >= 5
  }

  const EmptyRegistry := Registry([], [], 1, 1)

  /** An injective digest of paths and modes. */
  function Fingerprint(scopes: seq<WriteScope>): seq<(string, bool)> {
    seq(|scopes|, i requires 0 <= i < |scopes| => (scopes[i].path, scopes[i].recursive))
  }

  /** Scopes as they are read back from the stored form. */
  function ReadScopes(raw: seq<WriteScope>): seq<WriteScope> {
    Normalize(Filter(raw, (s: WriteScope) => s.path != ""))
  }

  function ClaimOf(l: Lease): Claim {
    Claim(l.id, l.owner, if l.ownerLabel == "" then l.owner else l.ownerLabel,
          ReadScopes(l.scopes), l.token, l.expiresAt)
  }

  function Decimal(n: nat): string {
    (if n < 10 then "" else Decimal(n / 10)) + ["0123456789"[n % 10]]
  }

  lemma {:induction false} DecimalInjective(m: nat, n: nat)
    requires Decimal(m) == Decimal(n)
    ensures m == n
  {
    var a, b := Decimal(m), Decimal(n);
    assert a[|a| - 1] == "0123456789"[m % 10] && b[|b| - 1] == "0123456789"[n % 10];
    assert a[..|a| - 1] == if m < 10 then "" else Decimal(m / 10);
    assert b[..|b| - 1] == if n < 10 then "" else Decimal(n / 10);
    if m >= 10 && n >= 10 {
      DecimalInjective(m / 10, n / 10);
    }
  }

  function ClaimOfWaiter(w: Waiter): Claim {
    Claim("waiter_" + Decimal(w.ticket), w.owner, if w.ownerLabel == "" then w.owner else w.ownerLabel,
          ReadScopes(w.scopes), 0, 0)
  }

  /** Different tickets are reported under different claim ids. */
  lemma {:induction false} WaiterClaimIdsDiffer(a: Waiter, b: Waiter)
    ensures ClaimOfWaiter(a).id == ClaimOfWaiter(b).id <==> a.ticket == b.ticket
  {
    var prefix := "waiter_";
    assert (prefix + Decimal(a.ticket))[|prefix|..] == Decimal(a.ticket);
    assert (prefix + Decimal(b.ticket))[|prefix|..] == Decimal(b.ticket);
    if Decimal(a.ticket) == Decimal(b.ticket) {
      DecimalInjective(a.ticket, b.ticket);
    }
  }

  function LiveLeases(leases: seq<Lease>, now: int): seq<Lease> {
    Filter(leases, (l: Lease) => l.expiresAt > now)
  }

  function LiveWaiters(waiters: seq<Waiter>, now: int, ttl: int): seq<Waiter> {
    Filter(waiters, (w: Waiter) => now - w.updatedAt <= ttl)
  }

  function Prune(r: Registry, now: int, ttl: Ttl): Registry {
    r.(leases := LiveLeases(r.leases, now), waiters := LiveWaiters(r.waiters, now, ttl.waiter))
  }

  predicate AnswersRequest(l: Lease, owner: string, scopes: seq<WriteScope>) {
    l.owner == owner && CoversAll(ReadScopes(l.scopes), scopes)
  }

  /** Index of the first lease of the owner that covers the scopes, or |leases|. */
  function FindLease(leases: seq<Lease>, owner: string, scopes: seq<WriteScope>): (i: nat)
    ensures i <= |leases|
    ensures i < |leases| ==> AnswersRequest(leases[i], owner, scopes)
    ensures forall j :: 0 <= j < i ==> !AnswersRequest(leases[j], owner, scopes)
  {
    if leases == [] || AnswersRequest(leases[0], owner, scopes) then 0
    else 1 + FindLease(leases[1..], owner, scopes)
  }

  predicate IsRequest(w: Waiter, owner: string, fingerprint: seq<(string, bool)>) {
    w.owner == owner && w.fingerprint == fingerprint
  }

  /** Index of the waiter of this request, or |waiters|. */
  function FindWaiter(waiters: seq<Waiter>, owner: string, fingerprint: seq<(string, bool)>): (i: nat)
    ensures i <= |waiters|
    ensures i < |waiters| ==> IsRequest(waiters[i], owner, fingerprint)
    ensures forall j :: 0 <= j < i ==> !IsRequest(waiters[j], owner, fingerprint)
  {
    if waiters == [] || IsRequest(waiters[0], owner, fingerprint) then 0
    else 1 + FindWaiter(waiters[1..], owner, fingerprint)
  }

  function ConflictingLeases(leases: seq<Lease>, owner: string, scopes: seq<WriteScope>): seq<Lease> {
    Filter(leases, (l: Lease) => l.owner != owner && ScopeSetsOverlap(scopes, ReadScopes(l.scopes)))
  }

  function EarlierWaiters(waiters: seq<Waiter>, owner: string, scopes: seq<WriteScope>, ticket: nat): seq<Waiter> {
    Filter(waiters, (w: Waiter) => w.ticket < ticket && w.owner != owner
                                   && ScopeSetsOverlap(scopes, ReadScopes(w.scopes)))
  }

  function QueuePosition(waiters: seq<Waiter>, ticket: nat): nat {
    1 + |Filter(waiters, (w: Waiter) => w.ticket < ticket)|
  }

  function Claims(leases: seq<Lease>): seq<Claim> {
    seq(|leases|, i requires 0 <= i < |leases| => ClaimOf(leases[i]))
  }

  function WaiterClaims(waiters: seq<Waiter>): seq<Claim> {
    seq(|waiters|, i requires 0 <= i < |waiters| => ClaimOfWaiter(waiters[i]))
  }

  datatype Request = Request(owner: string, ownerLabel: string, scopes: seq<WriteScope>, now: int, leaseId: string)

  /** Queues the request, or refreshes its place in the queue. */
  function Enqueue(r: Registry, q: Request): (res: (Registry, nat))
    ensures res.1 < |res.0.waiters|
  {
    var fp := Fingerprint(q.scopes);
    var i := FindWaiter(r.waiters, q.owner, fp);
    if i == |r.waiters| then
      (r.(nextTicket := r.nextTicket + 1,
          waiters := r.waiters + [Waiter(q.owner, q.ownerLabel, fp, q.scopes, r.nextTicket, q.now)]), i)
    else
      (r.(waiters := r.waiters[i := r.waiters[i].(updatedAt := q.now)]), i)
  }

  /** Grants the queued request at index i. */
  function Grant(r: Registry, q: Request, i: nat, ttl: Ttl): (Registry, Claim)
    requires i < |r.waiters|
  {
    var ownerLabel := if q.ownerLabel == "" then q.owner else q.ownerLabel;
    var lease := Lease(q.leaseId, q.owner, ownerLabel, q.scopes, r.nextToken, q.now + ttl.lease);
    (Registry(r.leases + [lease], r.waiters[..i] + r.waiters[i + 1..], r.nextTicket, r.nextToken + 1),
     Claim(q.leaseId, q.owner, ownerLabel, q.scopes, r.nextToken, q.now + ttl.lease))
  }

  /** Joins the queue and is granted unless a foreign lease or an earlier
      foreign waiter shares a file with the request. */
  function Contend(r: Registry, q: Request, ttl: Ttl): (Registry, Outcome) {
    var (queued, i) := Enqueue(r, q);
    var ticket := queued.waiters[i].ticket;
    var conflicts := ConflictingLeases(queued.leases, q.owner, q.scopes);
    var earlier := EarlierWaiters(queued.waiters, q.owner, q.scopes, ticket);
    if conflicts != [] || earlier != [] then
      (queued, Queued(Claims(conflicts) + WaiterClaims(earlier), QueuePosition(queued.waiters, ticket)))
    else
      var (granted, claim) := Grant(queued, q, i, ttl);
      (granted, Granted(claim))
  }

  /** One atomic acquire. */
  function AcquireStep(r: Registry, q: Request, ttl: Ttl): (Registry, Outcome) {
    if q.scopes == [] then (r, NothingRequested)
    else
      var pruned := Prune(r, q.now, ttl);
      var l := FindLease(pruned.leases, q.owner, q.scopes);
      if l < |pruned.leases| then (pruned, Reused(ClaimOf(pruned.leases[l])))
      else Contend(pruned, q, ttl)
  }

  function WithoutLease(leases: seq<Lease>, id: string): seq<Lease> {
    Filter(leases, (l: Lease) => l.id != id)
  }

  function ReleaseStep(r: Registry, id: string): Registry {
    r.(leases := WithoutLease(r.leases, id))
  }

  /** Index of the lease with this id and token, or |leases|. */
  function FindHeld(leases: seq<Lease>, id: string, token: nat): (i: nat)
    ensures i <= |leases|
    ensures i < |leases| ==> leases[i].id == id && leases[i].token == token
    ensures forall j :: 0 <= j < i ==> !(leases[j].id == id && leases[j].token == token)
  {
    if leases == [] || (leases[0].id == id && leases[0].token == token) then 0
    else 1 + FindHeld(leases[1..], id, token)
  }

  /** One atomic renewal.  A failed one raises before the registry is written. */
  function RenewStep(r: Registry, id: string, token: nat, now: int, ttl: Ttl): (Registry, bool) {
    var pruned := Prune(r, now, ttl);
    var i := FindHeld(pruned.leases, id, token);
    if i == |pruned.leases| then (r, false)
    else (pruned.(leases := pruned.leases[i := pruned.leases[i].(expiresAt := now + ttl.lease)]), true)
  }

  /*-------------------------------- the store ---------------------------------*/

  class FileWriteLeaseStore {
    var leases: seq<Lease>
    var waiters: seq<Waiter>
    var nextTicket: nat
    var nextFencingToken: nat
    const ttl: Ttl

    ghost function State(): Registry
      reads this
    {
      Registry(leases, waiters, nextTicket, nextFencingToken)
    }

    constructor (leaseTtl: int, waiterTtl: int)
      ensures State() == EmptyRegistry && ValidTtl(ttl)
    {
      leases, waiters, nextTicket, nextFencingToken := [], [], 1, 1;
      ttl := Ttl(if leaseTtl < 30 then 30 else leaseTtl, if waiterTtl < 5 then 5 else waiterTtl);
    }

    method Acquire(q: Request) returns (outcome: Outcome)
      modifies this
      ensures (State(), outcome) == AcquireStep(old(State()), q, ttl)
    {
      if q.scopes == [] {
        return NothingRequested;
      }
      leases := LiveLeases(leases, q.now);
      waiters := LiveWaiters(waiters, q.now, ttl.waiter);
      var l := FindLease(leases, q.owner, q.scopes);
      if l < |leases| {
        return Reused(ClaimOf(leases[l]));
      }
      outcome := Compete(q);
    }

    method Compete(q: Request) returns (outcome: Outcome)
      modifies this
      ensures (State(), outcome) == Contend(old(State()), q, ttl)
    {
      var i := JoinQueue(q);
      var ticket := waiters[i].ticket;
      var conflicts := ConflictingLeases(leases, q.owner, q.scopes);
      var earlier := EarlierWaiters(waiters, q.owner, q.scopes, ticket);
      if conflicts != [] || earlier != [] {
        return Queued(Claims(conflicts) + WaiterClaims(earlier), QueuePosition(waiters, ticket));
      }
      var claim := Hand(q, i);
      return Granted(claim);
    }

    method JoinQueue(q: Request) returns (i: nat)
      modifies this
      ensures (State(), i) == Enqueue(old(State()), q)
    {
      var fingerprint := Fingerprint(q.scopes);
      i := FindWaiter(waiters, q.owner, fingerprint);
      if i == |waiters| {
        var ticket := nextTicket;
        nextTicket := ticket + 1;
        waiters := waiters + [Waiter(q.owner, q.ownerLabel, fingerprint, q.scopes, ticket, q.now)];
      } else {
        waiters := waiters[i := waiters[i].(updatedAt := q.now)];
      }
    }

    method Hand(q: Request, i: nat) returns (claim: Claim)
      requires i < |waiters|
      modifies this
      ensures (State(), claim) == Grant(old(State()), q, i, ttl)
    {
      var token := nextFencingToken;
      nextFencingToken := token + 1;
      var ownerLabel := if q.ownerLabel == "" then q.owner else q.ownerLabel;
      leases := leases + [Lease(q.leaseId, q.owner, ownerLabel, q.scopes, token, q.now + ttl.lease)];
      waiters := waiters[..i] + waiters[i + 1..];
      return Claim(q.leaseId, q.owner, ownerLabel, q.scopes, token, q.now + ttl.lease);
    }

    method Release(claim: Claim)
      modifies this
      ensures State() == ReleaseStep(old(State()), claim.id)
    {
      leases := WithoutLease(leases, claim.id);
    }

    method Renew(claim: Claim, now: int) returns (ok: bool)
      modifies this
      ensures (State(), ok) == RenewStep(old(State()), claim.id, claim.token, now, ttl)
    {
      var live := LiveLeases(leases, now);
      var i := FindHeld(live, claim.id, claim.token);
      if i == |live| {
        return false;
      }
      leases := live[i := live[i].(expiresAt := now + ttl.lease)];
      waiters := LiveWaiters(waiters, now, ttl.waiter);
      return true;
    }
  }

  /*--------------------------- registry invariants ----------------------------*/

  predicate TokenBefore(a: Lease, b: Lease) { a.token < b.token }

  predicate OtherId(a: Lease, b: Lease) { a.id != b.id }

  predicate TicketBefore(a: Waiter, b: Waiter) { a.ticket < b.ticket }

  predicate OtherRequest(a: Waiter, b: Waiter) { a.owner != b.owner || a.fingerprint != b.fingerprint }

  /** Leases of different owners share no file. */
  ghost predicate Exclusive(leases: seq<Lease>) {
    forall a, b :: a in leases && b in leases && a.owner != b.owner ==>
      !ScopeSetsOverlap(ReadScopes(a.scopes), ReadScopes(b.scopes))
  }

  ghost predicate LeasesOk(r: Registry) {
    && SortedBy(r.leases, TokenBefore) && SortedBy(r.leases, OtherId)
    && (forall l :: l in r.leases ==> l.token < r.nextToken)
    && Exclusive(r.leases)
  }

  ghost predicate WaitersOk(r: Registry) {
    && SortedBy(r.waiters, TicketBefore) && SortedBy(r.waiters, OtherRequest)
    && (forall w :: w in r.waiters ==> w.ticket < r.nextTicket && w.fingerprint == Fingerprint(w.scopes))
  }

  ghost predicate Inv(r: Registry) {
    LeasesOk(r) && WaitersOk(r)
  }

  lemma {:induction false} ReadScopesMeaning(raw: seq<WriteScope>, p: string)
    requires ProtectsAny(ReadScopes(raw), p)
    ensures ProtectsAny(raw, p)
  {
    NormalizeMeaning(Filter(raw, (s: WriteScope) => s.path != ""));
  }

  lemma {:induction false} ReadScopesOverlap(raw: seq<WriteScope>, other: seq<WriteScope>)
    requires ScopeSetsOverlap(ReadScopes(raw), other)
    ensures ScopeSetsOverlap(raw, other)
  {
    SetsOverlapIffCommonFile(ReadScopes(raw), other);
    var p :| ProtectsAny(ReadScopes(raw), p) && ProtectsAny(other, p);
    ReadScopesMeaning(raw, p);
    SetsOverlapIffCommonFile(raw, other);
  }

  lemma {:induction false} PruneInv(r: Registry, now: int, ttl: Ttl)
    requires Inv(r)
    ensures Inv(Prune(r, now, ttl))
  {
    var live := (l: Lease) => l.expiresAt > now;
    var fresh' := (w: Waiter) => now - w.updatedAt <= ttl.waiter;
    assert LiveLeases(r.leases, now) == Filter(r.leases, live);
    FilterSorted(r.leases, live, TokenBefore);
    FilterSorted(r.leases, live, OtherId);
    FilterSorted(r.waiters, fresh', TicketBefore);
    FilterSorted(r.waiters, fresh', OtherRequest);
  }
}
