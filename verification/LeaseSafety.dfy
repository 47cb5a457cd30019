/** What every run of the lease registry keeps: exclusion, unique and growing
    fencing tokens, and service in ticket order. */
module LeaseSafety {
  import opened Ordering
  import opened Scopes
  import opened Leases

  datatype Op =
    | AcquireOp(q: Request)
    | ReleaseOp(id: string)
    | RenewOp(id: string, token: nat, now: int)

  /** One atomic step of any process, with the claims it granted. */
  function Step(r: Registry, op: Op, ttl: Ttl): (Registry, seq<Claim>) {
    match op
    case AcquireOp(q) =>
      var (r', outcome) := AcquireStep(r, q, ttl);
      (r', if outcome.Granted? then [outcome.claim] else [])
    case ReleaseOp(id) => (ReleaseStep(r, id), [])
    case RenewOp(id, token, now) => (RenewStep(r, id, token, now, ttl).0, [])
  }

  function Run(r: Registry, ops: seq<Op>, ttl: Ttl): (Registry, seq<Claim>)
    decreases |ops|
  {
    if ops == [] then (r, [])
    else
      var (r', granted) := Step(r, ops[0], ttl);
      var (end, later) := Run(r', ops[1..], ttl);
      (end, granted + later)
  }

  /** Lease ids are drawn fresh. */
  ghost predicate FreshId(r: Registry, id: string) {
    forall l :: l in r.leases ==> l.id != id
  }

  ghost predicate FreshIds(r: Registry, ops: seq<Op>) {
    && (forall i :: 0 <= i < |ops| && ops[i].AcquireOp? ==> FreshId(r, ops[i].q.leaseId))
    && (forall i, j :: 0 <= i < j < |ops| && ops[i].AcquireOp? && ops[j].AcquireOp? ==>
          ops[i].q.leaseId != ops[j].q.leaseId)
  }

  /*------------------------------- exclusion ----------------------------------*/

  lemma {:induction false} EnqueueInv(r: Registry, q: Request)
    requires Inv(r)
    ensures Inv(Enqueue(r, q).0)
    ensures Enqueue(r, q).0.leases == r.leases && Enqueue(r, q).0.nextToken == r.nextToken
    ensures var (r', i) := Enqueue(r, q);
            IsRequest(r'.waiters[i], q.owner, Fingerprint(q.scopes))
  {
    var fp := Fingerprint(q.scopes);
    var i := FindWaiter(r.waiters, q.owner, fp);
    var r' := Enqueue(r, q).0;
    if i == |r.waiters| {
      forall w | w in r.waiters
        ensures OtherRequest(w, r'.waiters[i])
      {
        var k :| 0 <= k < |r.waiters| && r.waiters[k] == w;
        assert !IsRequest(r.waiters[k], q.owner, fp);
      }
    } else {
      assert r.waiters[i] in r.waiters;
      forall w | w in r'.waiters
        ensures w.ticket < r'.nextTicket && w.fingerprint == Fingerprint(w.scopes)
      {
        var k :| 0 <= k < |r'.waiters| && r'.waiters[k] == w;
        assert r.waiters[k] in r.waiters;
      }
      forall k, l | 0 <= k < l < |r'.waiters|
        ensures TicketBefore(r'.waiters[k], r'.waiters[l]) && OtherRequest(r'.waiters[k], r'.waiters[l])
      {
        assert TicketBefore(r.waiters[k], r.waiters[l]) && OtherRequest(r.waiters[k], r.waiters[l]);
      }
    }
  }

  ghost predicate NoForeignOverlap(leases: seq<Lease>, owner: string, scopes: seq<WriteScope>) {
    forall l :: l in leases && l.owner != owner ==> !ScopeSetsOverlap(scopes, ReadScopes(l.scopes))
  }

  lemma {:induction false} GrantLeasesOk(r: Registry, q: Request, i: nat, ttl: Ttl)
    requires LeasesOk(r) && i < |r.waiters| && FreshId(r, q.leaseId)
    requires NoForeignOverlap(r.leases, q.owner, q.scopes)
    ensures LeasesOk(Grant(r, q, i, ttl).0)
  {
    var r' := Grant(r, q, i, ttl).0;
    var n := |r.leases|;
    forall a, b | a in r'.leases && b in r'.leases && a.owner != b.owner
      ensures !ScopeSetsOverlap(ReadScopes(a.scopes), ReadScopes(b.scopes))
    {
      if a !in r.leases {
        assert a == r'.leases[n] && b in r.leases;
        if ScopeSetsOverlap(ReadScopes(a.scopes), ReadScopes(b.scopes)) {
          ReadScopesOverlap(a.scopes, ReadScopes(b.scopes));
        }
      } else if b !in r.leases {
        assert b == r'.leases[n];
        if ScopeSetsOverlap(ReadScopes(a.scopes), ReadScopes(b.scopes)) {
          OverlapsSymmetric(ReadScopes(a.scopes), ReadScopes(b.scopes));
          ReadScopesOverlap(b.scopes, ReadScopes(a.scopes));
        }
      }
    }
  }

  lemma {:induction false} GrantWaitersOk(r: Registry, q: Request, i: nat, ttl: Ttl)
    requires WaitersOk(r) && i < |r.waiters|
    ensures WaitersOk(Grant(r, q, i, ttl).0)
  {
  }

  lemma {:induction false} NoConflictsMeansNoOverlap(leases: seq<Lease>, owner: string, scopes: seq<WriteScope>)
    ensures ConflictingLeases(leases, owner, scopes) == [] <==> NoForeignOverlap(leases, owner, scopes)
  {
    var c := ConflictingLeases(leases, owner, scopes);
    if c != [] {
      assert c[0] in c;
    }
  }

  lemma {:induction false} AcquireInv(r: Registry, q: Request, ttl: Ttl)
    requires Inv(r) && FreshId(r, q.leaseId)
    ensures Inv(AcquireStep(r, q, ttl).0)
  {
    if q.scopes != [] {
      var p := Prune(r, q.now, ttl);
      PruneInv(r, q.now, ttl);
      if FindLease(p.leases, q.owner, q.scopes) == |p.leases| {
        EnqueueInv(p, q);
        var (queued, i) := Enqueue(p, q);
        NoConflictsMeansNoOverlap(queued.leases, q.owner, q.scopes);
        if AcquireStep(r, q, ttl).1.Granted? {
          GrantLeasesOk(queued, q, i, ttl);
          GrantWaitersOk(queued, q, i, ttl);
        }
      }
    }
  }

  lemma {:induction false} ReleaseInv(r: Registry, id: string)
    requires Inv(r)
    ensures Inv(ReleaseStep(r, id))
  {
    FilterSorted(r.leases, (l: Lease) => l.id != id, TokenBefore);
    FilterSorted(r.leases, (l: Lease) => l.id != id, OtherId);
  }

  lemma {:induction false} ExtendLease(leases: seq<Lease>, i: nat, expiresAt: int)
    requires SortedBy(leases, TokenBefore) && SortedBy(leases, OtherId) && Exclusive(leases)
    requires i < |leases|
    ensures var ls := leases[i := leases[i].(expiresAt := expiresAt)];
            SortedBy(ls, TokenBefore) && SortedBy(ls, OtherId) && Exclusive(ls)
            && forall l :: l in ls ==> exists m :: m in leases && l == m.(expiresAt := l.expiresAt)
  {
    var ls := leases[i := leases[i].(expiresAt := expiresAt)];
    forall k, l | 0 <= k < l < |ls|
      ensures TokenBefore(ls[k], ls[l]) && OtherId(ls[k], ls[l])
    {
      assert TokenBefore(leases[k], leases[l]) && OtherId(leases[k], leases[l]);
    }
    forall l | l in ls
      ensures exists m :: m in leases && l == m.(expiresAt := l.expiresAt)
    {
      var k :| 0 <= k < |ls| && ls[k] == l;
      assert leases[k] in leases;
    }
  }

  lemma {:induction false} RenewInv(r: Registry, id: string, token: nat, now: int, ttl: Ttl)
    requires Inv(r)
    ensures Inv(RenewStep(r, id, token, now, ttl).0)
  {
    hide ReadScopes, ScopeSetsOverlap, Exclusive, Prune, FindHeld;
    var p := Prune(r, now, ttl);
    PruneInv(r, now, ttl);
    var i := FindHeld(p.leases, id, token);
    if i < |p.leases| {
      ExtendLease(p.leases, i, now + ttl.lease);
    }
  }

  /** One step keeps the invariant, and every granted token is the next one. */
  lemma {:induction false} StepInv(r: Registry, op: Op, ttl: Ttl)
    requires Inv(r) && (op.AcquireOp? ==> FreshId(r, op.q.leaseId))
    ensures var (r', granted) := Step(r, op, ttl);
            && Inv(r')
            && r'.nextToken == r.nextToken + |granted|
            && (forall c :: c in granted ==> c.token == r.nextToken)
            && (forall id :: FreshId(r, id) && (op.AcquireOp? ==> id != op.q.leaseId) ==> FreshId(r', id))
  {
    hide ReadScopes, ScopeSetsOverlap;
    match op
    case AcquireOp(q) => AcquireInv(r, q, ttl);
    case ReleaseOp(id) => ReleaseInv(r, id);
    case RenewOp(id, token, now) =>
      RenewInv(r, id, token, now, ttl);
      var p := Prune(r, now, ttl);
      var i := FindHeld(p.leases, id, token);
      if i < |p.leases| {
        PruneInv(r, now, ttl);
        ExtendLease(p.leases, i, now + ttl.lease);
      }
  }

  predicate ClaimTokenBefore(a: Claim, b: Claim) { a.token < b.token }

  /** In every run, from any good registry: leases of different owners stay
      disjoint, ids and tokens stay unique, and tokens grow in grant order. */
  lemma {:induction false} RunSafety(r: Registry, ops: seq<Op>, ttl: Ttl)
    requires Inv(r) && FreshIds(r, ops)
    ensures var (end, grants) := Run(r, ops, ttl);
            && Inv(end)
            && end.nextToken == r.nextToken + |grants|
            && SortedBy(grants, ClaimTokenBefore)
            && (forall c :: c in grants ==> r.nextToken <= c.token < end.nextToken)
    decreases |ops|
  {
    if ops != [] {
      StepInv(r, ops[0], ttl);
      var r' := Step(r, ops[0], ttl).0;
      forall i | 0 <= i < |ops[1..]| && ops[1..][i].AcquireOp?
        ensures FreshId(r', ops[1..][i].q.leaseId)
      {
        assert ops[i + 1].AcquireOp?;
        assert FreshId(r, ops[i + 1].q.leaseId);
      }
      RunSafety(r', ops[1..], ttl);
    }
  }

  /** The registry starts out good. */
  lemma {:induction false} ReachableSafety(ops: seq<Op>, ttl: Ttl)
    requires FreshIds(EmptyRegistry, ops)
    ensures var (end, grants) := Run(EmptyRegistry, ops, ttl);
            Inv(end) && end.nextToken == |grants| + 1 && SortedBy(grants, ClaimTokenBefore)
  {
    RunSafety(EmptyRegistry, ops, ttl);
  }

  /*------------------------------ ticket order --------------------------------*/

  /** The same place in the queue, whenever it was last refreshed. */
  predicate SamePlace(a: Waiter, b: Waiter) {
    a.ticket == b.ticket && a.owner == b.owner && a.scopes == b.scopes && a.fingerprint == b.fingerprint
  }

  ghost predicate Waits(r: Registry, w: Waiter) {
    exists x :: x in r.waiters && SamePlace(x, w)
  }

  /** x asks for files that w asks for, on behalf of somebody else. */
  predicate Rival(x: Waiter, w: Waiter) {
    x.owner != w.owner && ScopeSetsOverlap(x.scopes, ReadScopes(w.scopes))
  }

  /** Tickets of the rivals queued in front of w. */
  ghost function RivalsAhead(r: Registry, w: Waiter): set<nat> {
    set x | x in r.waiters && x.ticket < w.ticket && Rival(x, w) :: x.ticket
  }

  lemma {:induction false} EnqueuePlaces(r: Registry, q: Request)
    requires Inv(r)
    ensures forall x :: x in Enqueue(r, q).0.waiters ==> Waits(r, x) || x.ticket >= r.nextTicket
    ensures forall x :: x in r.waiters ==> Waits(Enqueue(r, q).0, x)
  {
    var fp := Fingerprint(q.scopes);
    var (r', i) := Enqueue(r, q);
    forall x | x in r'.waiters
      ensures Waits(r, x) || x.ticket >= r.nextTicket
    {
      var k :| 0 <= k < |r'.waiters| && r'.waiters[k] == x;
      if k < |r.waiters| {
        assert SamePlace(r.waiters[k], x) && r.waiters[k] in r.waiters;
      }
    }
    forall x | x in r.waiters
      ensures Waits(r', x)
    {
      var k :| 0 <= k < |r.waiters| && r.waiters[k] == x;
      assert SamePlace(r'.waiters[k], x) && r'.waiters[k] in r'.waiters;
    }
  }

  lemma {:induction false} ContendPlaces(r: Registry, q: Request, ttl: Ttl)
    requires Inv(r)
    ensures forall x :: x in Contend(r, q, ttl).0.waiters ==> Waits(r, x) || x.ticket >= r.nextTicket
  {
    EnqueuePlaces(r, q);
    var (queued, i) := Enqueue(r, q);
    assert forall x :: x in Grant(queued, q, i, ttl).0.waiters ==> x in queued.waiters;
  }

  lemma {:induction false} AcquirePlaces(r: Registry, q: Request, ttl: Ttl)
    requires Inv(r)
    ensures forall x :: x in AcquireStep(r, q, ttl).0.waiters ==> Waits(r, x) || x.ticket >= r.nextTicket
  {
    hide Contend, ReadScopes, ScopeSetsOverlap, CoversAll;
    var p := Prune(r, q.now, ttl);
    PruneInv(r, q.now, ttl);
    ContendPlaces(p, q, ttl);
    assert forall x :: x in r.waiters ==> SamePlace(x, x);
    forall x | Waits(p, x)
      ensures Waits(r, x)
    {
      var y :| y in p.waiters && SamePlace(y, x);
      assert y in r.waiters;
    }
  }

  /** A step never invents an old ticket. */
  lemma {:induction false} StepPlaces(r: Registry, op: Op, ttl: Ttl)
    requires Inv(r)
    ensures forall x :: x in Step(r, op, ttl).0.waiters ==> Waits(r, x) || x.ticket >= r.nextTicket
  {
    assert forall x :: x in r.waiters ==> SamePlace(x, x);
    match op
    case AcquireOp(q) => AcquirePlaces(r, q, ttl);
    case ReleaseOp(id) =>
    case RenewOp(id, token, now) =>
  }

  /** The claim this step hands to a rival of w, if it does. */
  ghost predicate Overtakes(r: Registry, op: Op, ttl: Ttl, w: Waiter) {
    && op.AcquireOp? && Step(r, op, ttl).1 != []
    && op.q.owner != w.owner && ScopeSetsOverlap(op.q.scopes, ReadScopes(w.scopes))
  }

  lemma {:induction false} TicketsIdentify(r: Registry, x: Waiter, y: Waiter)
    requires Inv(r) && x in r.waiters && y in r.waiters && x.ticket == y.ticket
    ensures x == y
  {
    var i :| 0 <= i < |r.waiters| && r.waiters[i] == x;
    var j :| 0 <= j < |r.waiters| && r.waiters[j] == y;
    assert i < j ==> TicketBefore(x, y);
    assert j < i ==> TicketBefore(y, x);
  }

  lemma {:induction false} StillWaitsBeforeGrant(r: Registry, op: Op, ttl: Ttl, w: Waiter)
    requires Inv(r) && w.ticket < r.nextTicket
    requires op.AcquireOp? && Step(r, op, ttl).1 != [] && Waits(Step(r, op, ttl).0, w)
    ensures Waits(Enqueue(Prune(r, op.q.now, ttl), op.q).0, w)
  {
    var queued := Enqueue(Prune(r, op.q.now, ttl), op.q).0;
    var x :| x in Step(r, op, ttl).0.waiters && SamePlace(x, w);
    assert x in queued.waiters;
  }

  /** The queue entry that the granted request of this step held. */
  ghost function GrantedEntry(r: Registry, q: Request, ttl: Ttl): Waiter {
    var (queued, i) := Enqueue(Prune(r, q.now, ttl), q);
    queued.waiters[i]
  }

  /** No overtaking: while w stays queued, a granted rival holds a smaller ticket. */
  lemma {:induction false} GrantedRivalHasSmallerTicket(r: Registry, op: Op, ttl: Ttl, w: Waiter)
    requires Inv(r) && w.ticket < r.nextTicket && Waits(Step(r, op, ttl).0, w)
    requires Overtakes(r, op, ttl, w)
    ensures GrantedEntry(r, op.q, ttl).ticket < w.ticket
  {
    var q := op.q;
    var p := Prune(r, q.now, ttl);
    PruneInv(r, q.now, ttl);
    EnqueueInv(p, q);
    var queued := Enqueue(p, q).0;
    var g := GrantedEntry(r, q, ttl);
    StillWaitsBeforeGrant(r, op, ttl, w);
    var x :| x in queued.waiters && SamePlace(x, w);
    var earlier := EarlierWaiters(queued.waiters, q.owner, q.scopes, g.ticket);
    assert earlier == [];
    assert x !in earlier;
    if x.ticket == g.ticket {
      TicketsIdentify(queued, x, g);
    }
  }

  lemma {:induction false} GrantedRivalWasQueued(r: Registry, op: Op, ttl: Ttl, w: Waiter)
    requires Inv(r) && w.ticket < r.nextTicket && Overtakes(r, op, ttl, w)
    requires GrantedEntry(r, op.q, ttl).ticket < w.ticket
    ensures GrantedEntry(r, op.q, ttl).ticket in RivalsAhead(r, w)
  {
    var q := op.q;
    var p := Prune(r, q.now, ttl);
    PruneInv(r, q.now, ttl);
    EnqueueInv(p, q);
    EnqueuePlaces(p, q);
    var g := GrantedEntry(r, q, ttl);
    assert Waits(p, g);
    var y :| y in p.waiters && SamePlace(y, g);
    assert y in r.waiters;
    FingerprintOverlap(y, q, w);
  }

  lemma {:induction false} GrantedLeavesQueue(r: Registry, q: Request, ttl: Ttl)
    requires Inv(r) && AcquireStep(r, q, ttl).1.Granted?
    ensures forall z :: z in AcquireStep(r, q, ttl).0.waiters ==> z.ticket != GrantedEntry(r, q, ttl).ticket
  {
    hide Prune, LeasesOk;
    var p := Prune(r, q.now, ttl);
    PruneInv(r, q.now, ttl);
    EnqueueInv(p, q);
    var (queued, i) := Enqueue(p, q);
    assert AcquireStep(r, q, ttl).0.waiters == queued.waiters[..i] + queued.waiters[i + 1..];
    hide AcquireStep, Enqueue;
    OthersDiffer(queued.waiters, i);
  }

  lemma {:induction false} OthersDiffer(waiters: seq<Waiter>, i: nat)
    requires SortedBy(waiters, TicketBefore) && i < |waiters|
    ensures forall z :: z in waiters[..i] + waiters[i + 1..] ==> z.ticket != waiters[i].ticket
  {
    forall z | z in waiters[..i] + waiters[i + 1..]
      ensures z.ticket != waiters[i].ticket
    {
      var rest := waiters[..i] + waiters[i + 1..];
      var k :| 0 <= k < |rest| && rest[k] == z;
      assert k < i ==> TicketBefore(waiters[k], waiters[i]);
      assert k >= i ==> TicketBefore(waiters[i], waiters[k + 1]);
    }
  }

  /** While w stays queued, a rival is granted only when it was queued in front
      of w, and then it gives up that place. */
  lemma {:induction false} NoOvertaking(r: Registry, op: Op, ttl: Ttl, w: Waiter)
    requires Inv(r) && Waits(r, w) && Waits(Step(r, op, ttl).0, w)
    requires Overtakes(r, op, ttl, w)
    ensures exists t :: t in RivalsAhead(r, w) && t !in RivalsAhead(Step(r, op, ttl).0, w)
  {
    GrantedRivalHasSmallerTicket(r, op, ttl, w);
    GrantedRivalWasQueued(r, op, ttl, w);
    GrantedLeavesQueue(r, op.q, ttl);
    var t := GrantedEntry(r, op.q, ttl).ticket;
    assert t in RivalsAhead(r, w) && t !in RivalsAhead(Step(r, op, ttl).0, w);
  }

  lemma {:induction false} FingerprintPaths(a: seq<WriteScope>, b: seq<WriteScope>, other: seq<WriteScope>)
    requires Fingerprint(a) == Fingerprint(b) && ScopeSetsOverlap(b, other)
    ensures ScopeSetsOverlap(a, other)
  {
    assert |a| == |Fingerprint(a)| == |b|;
    var left, right :| left in b && right in other && Overlaps(left, right);
    var k :| 0 <= k < |b| && b[k] == left;
    assert Fingerprint(a)[k] == Fingerprint(b)[k];
    assert a[k] in a && Overlaps(a[k], right);
  }

  /** A queued request overlaps whatever its repeated poll overlaps. */
  lemma {:induction false} FingerprintOverlap(y: Waiter, q: Request, w: Waiter)
    requires y.owner == q.owner && y.fingerprint == Fingerprint(q.scopes) == Fingerprint(y.scopes)
    requires q.owner != w.owner && ScopeSetsOverlap(q.scopes, ReadScopes(w.scopes))
    ensures Rival(y, w)
  {
    FingerprintPaths(y.scopes, q.scopes, ReadScopes(w.scopes));
  }

  lemma {:induction false} RivalsNeverGrow(r: Registry, op: Op, ttl: Ttl, w: Waiter)
    requires Inv(r) && w.ticket < r.nextTicket
    ensures RivalsAhead(Step(r, op, ttl).0, w) <= RivalsAhead(r, w)
  {
    StepPlaces(r, op, ttl);
    var r' := Step(r, op, ttl).0;
    forall t | t in RivalsAhead(r', w)
      ensures t in RivalsAhead(r, w)
    {
      var x :| x in r'.waiters && x.ticket == t && x.ticket < w.ticket && Rival(x, w);
      assert Waits(r, x);
      var y :| y in r.waiters && SamePlace(y, x);
      assert Rival(y, w);
    }
  }

  ghost predicate WaitsThroughout(r: Registry, ops: seq<Op>, ttl: Ttl, w: Waiter)
    decreases |ops|
  {
    Waits(r, w) && (ops == [] || WaitsThroughout(Step(r, ops[0], ttl).0, ops[1..], ttl, w))
  }

  /** How many grants of the run went to rivals of w. */
  ghost function Overtakings(r: Registry, ops: seq<Op>, ttl: Ttl, w: Waiter): nat
    decreases |ops|
  {
    if ops == [] then 0
    else
      (if Overtakes(r, ops[0], ttl, w) then 1 else 0)
      + Overtakings(Step(r, ops[0], ttl).0, ops[1..], ttl, w)
  }

  lemma {:induction false} ProperSubsetIsSmaller(a: set<nat>, b: set<nat>, x: nat)
    requires a <= b && x in b && x !in a
    ensures |a| < |b|
  {
    assert a <= b - {x};
    SubsetIsNotLarger(a, b - {x});
  }

  lemma {:induction false} SubsetIsNotLarger(a: set<nat>, b: set<nat>)
    requires a <= b
    ensures |a| <= |b|
  {
    assert b == a + (b - a);
    assert |b| == |a| + |b - a|;
  }

  /** Bounded overtaking.  As long as w stays queued, over any interleaving of
      processes, rivals are granted at most as often as they were already
      queued in front of w. */
  lemma {:induction false} BoundedOvertaking(r: Registry, ops: seq<Op>, ttl: Ttl, w: Waiter)
    requires Inv(r) && FreshIds(r, ops) && WaitsThroughout(r, ops, ttl, w)
    ensures Overtakings(r, ops, ttl, w) + |RivalsAhead(Run(r, ops, ttl).0, w)| <= |RivalsAhead(r, w)|
    decreases |ops|
  {
    if ops != [] {
      var r' := Step(r, ops[0], ttl).0;
      StepInv(r, ops[0], ttl);
      forall i | 0 <= i < |ops[1..]| && ops[1..][i].AcquireOp?
        ensures FreshId(r', ops[1..][i].q.leaseId)
      {
        assert ops[i + 1].AcquireOp?;
        assert FreshId(r, ops[i + 1].q.leaseId);
      }
      BoundedOvertaking(r', ops[1..], ttl, w);
      RivalsNeverGrow(r, ops[0], ttl, w);
      if Overtakes(r, ops[0], ttl, w) {
        NoOvertaking(r, ops[0], ttl, w);
        var t :| t in RivalsAhead(r, w) && t !in RivalsAhead(r', w);
        ProperSubsetIsSmaller(RivalsAhead(r', w), RivalsAhead(r, w), t);
      } else {
        SubsetIsNotLarger(RivalsAhead(r', w), RivalsAhead(r, w));
      }
    }
  }

  /** A poll for a queued request that outlived the pruning, with the same paths and
      modes whatever the baseline hashes, is granted exactly when no foreign lease
      and no earlier foreign waiter shares a file with it. */
  lemma {:induction false} PollExact(r: Registry, q: Request, ttl: Ttl, w: Waiter)
    requires Inv(r) && q.scopes != [] && q.owner == w.owner && Fingerprint(q.scopes) == w.fingerprint
    requires w in Prune(r, q.now, ttl).waiters
    requires forall l :: l in Prune(r, q.now, ttl).leases ==> !AnswersRequest(l, q.owner, q.scopes)
    ensures AcquireStep(r, q, ttl).1.Granted?
       <==> && (forall l :: l in Prune(r, q.now, ttl).leases && l.owner != w.owner ==>
                  !ScopeSetsOverlap(q.scopes, ReadScopes(l.scopes)))
            && (forall x :: x in Prune(r, q.now, ttl).waiters && x.ticket < w.ticket && x.owner != w.owner ==>
                  !ScopeSetsOverlap(q.scopes, ReadScopes(x.scopes)))
  {
    var p := Prune(r, q.now, ttl);
    PruneInv(r, q.now, ttl);
    EnqueueInv(p, q);
    var (queued, i) := Enqueue(p, q);
    assert FindLease(p.leases, q.owner, q.scopes) == |p.leases|;
    PollFindsItsTicket(p, q, w);
    NoConflictsMeansNoOverlap(p.leases, q.owner, q.scopes);
    PollSeesEarlier(p, q, w);
  }

  lemma {:induction false} PollFindsItsTicket(p: Registry, q: Request, w: Waiter)
    requires Inv(p) && q.owner == w.owner && Fingerprint(q.scopes) == w.fingerprint && w in p.waiters
    ensures var (queued, i) := Enqueue(p, q); queued.waiters[i].ticket == w.ticket
  {
    var fp := Fingerprint(q.scopes);
    var i := FindWaiter(p.waiters, q.owner, fp);
    var k :| 0 <= k < |p.waiters| && p.waiters[k] == w;
    assert IsRequest(p.waiters[k], q.owner, fp);
    forall j | 0 <= j < k
      ensures !IsRequest(p.waiters[j], q.owner, fp)
    {
      assert OtherRequest(p.waiters[j], p.waiters[k]);
    }
  }

  lemma {:induction false} PollSeesEarlier(p: Registry, q: Request, w: Waiter)
    requires Inv(p) && q.owner == w.owner && Fingerprint(q.scopes) == w.fingerprint && w in p.waiters
    ensures EarlierWaiters(Enqueue(p, q).0.waiters, q.owner, q.scopes, w.ticket) == []
       <==> forall x :: x in p.waiters && x.ticket < w.ticket && x.owner != w.owner ==>
              !ScopeSetsOverlap(q.scopes, ReadScopes(x.scopes))
  {
    EnqueuePlaces(p, q);
    hide Inv, Enqueue, ScopeSetsOverlap, ReadScopes, Fingerprint;
    var queued := Enqueue(p, q).0;
    var earlier := EarlierWaiters(queued.waiters, q.owner, q.scopes, w.ticket);
    if earlier != [] {
      var x := earlier[0];
      assert x in earlier;
      assert Waits(p, x);
      var y :| y in p.waiters && SamePlace(y, x);
      assert ScopeSetsOverlap(q.scopes, ReadScopes(y.scopes));
    } else {
      forall x | x in p.waiters && x.ticket < w.ticket && x.owner != w.owner
        ensures !ScopeSetsOverlap(q.scopes, ReadScopes(x.scopes))
      {
        assert Waits(queued, x);
        var y :| y in queued.waiters && SamePlace(y, x);
        assert y !in earlier;
      }
    }
  }

  /** With no lease left, the smallest ticket is served on its next poll. */
  lemma {:induction false} SmallestTicketIsServed(r: Registry, q: Request, ttl: Ttl, w: Waiter)
    requires Inv(r) && q.scopes != [] && q.owner == w.owner && Fingerprint(q.scopes) == w.fingerprint
    requires var p := Prune(r, q.now, ttl);
             p.leases == [] && w in p.waiters && forall x :: x in p.waiters ==> w.ticket <= x.ticket
    ensures AcquireStep(r, q, ttl).1.Granted?
  {
    PollExact(r, q, ttl, w);
  }
}
