/** Per-process claim tables over the shared registry, and the fence a write
    passes before it runs (agent/app/execution/write_intents.py,
    WriteIntentManager). */
module Fencing {
  import opened Ordering
  import opened Scopes
  import opened Leases
  import opened LeaseSafety

  datatype ManagerOutcome = NothingNeeded | Acquired(claim: Claim) | WriterConflict(conflicts: seq<Claim>)

  predicate ClaimAnswers(c: Claim, owner: string, normalized: seq<WriteScope>) {
    c.owner == owner && CoversAll(c.scopes, normalized)
  }

  /** Index of the first claim that answers the request, or |table|. */
  function FindClaim(table: seq<Claim>, owner: string, normalized: seq<WriteScope>): (i: nat)
    ensures i <= |table|
    ensures i < |table| ==> ClaimAnswers(table[i], owner, normalized)
    ensures forall j :: 0 <= j < i ==> !ClaimAnswers(table[j], owner, normalized)
  {
    if table == [] || ClaimAnswers(table[0], owner, normalized) then 0
    else 1 + FindClaim(table[1..], owner, normalized)
  }

  function LocalConflicts(table: seq<Claim>, owner: string, normalized: seq<WriteScope>): seq<Claim> {
    Filter(table, (c: Claim) => c.owner != owner && ScopeSetsOverlap(normalized, c.scopes))
  }

  /** Dictionary update on the claim id. */
  function PutClaim(table: seq<Claim>, c: Claim): (t: seq<Claim>)
    ensures forall x :: x in t ==> x == c || x in table
    ensures c in t
  {
    if table == [] then [c]
    else if table[0].id == c.id then [c] + table[1..]
    else [table[0]] + PutClaim(table[1..], c)
  }

  function DropClaim(table: seq<Claim>, id: string): seq<Claim> {
    Filter(table, (c: Claim) => c.id != id)
  }

  function ManagerAcquire(table: seq<Claim>, r: Registry, q: Request, ttl: Ttl)
    : (seq<Claim>, Registry, ManagerOutcome)
  {
    var normalized := Normalize(q.scopes);
    if normalized == [] || FindClaim(table, q.owner, normalized) < |table| then (table, r, NothingNeeded)
    else
      var local := LocalConflicts(table, q.owner, normalized);
      if local != [] then (table, r, WriterConflict(local))
      else
        var (r', outcome) := AcquireStep(r, DurableRequest(q), ttl);
        match outcome
        case Granted(claim) => (PutClaim(table, claim), r', Acquired(claim))
        case Reused(claim) => (PutClaim(table, claim), r', Acquired(claim))
        case Queued(conflicts, _) => (table, r', WriterConflict(conflicts))
        case NothingRequested => (table, r', WriterConflict([]))
  }

  /** The request as the manager hands it to the store. */
  function DurableRequest(q: Request): Request {
    q.(scopes := Normalize(q.scopes), ownerLabel := if q.ownerLabel == "" then q.owner else q.ownerLabel)
  }

  function EnsureCurrent(table: seq<Claim>, r: Registry, owner: string, scopes: seq<WriteScope>, now: int, ttl: Ttl)
    : (Registry, bool)
  {
    var normalized := Normalize(scopes);
    var i := FindClaim(table, owner, normalized);
    if normalized == [] then (r, true)
    else if i == |table| then (r, false)
    else RenewStep(r, table[i].id, table[i].token, now, ttl)
  }

  class WriteIntentManager {
    var claims: seq<Claim>
    const store: FileWriteLeaseStore

    constructor (store: FileWriteLeaseStore)
      ensures claims == [] && this.store == store
    {
      claims := [];
      this.store := store;
    }

    method Acquire(q: Request) returns (outcome: ManagerOutcome)
      modifies this, store
      ensures (claims, store.State(), outcome) == ManagerAcquire(old(claims), old(store.State()), q, store.ttl)
    {
      var normalized := NormalizeScopes(q.scopes);
      if normalized == [] {
        return NothingNeeded;
      }
      if FindClaim(claims, q.owner, normalized) < |claims| {
        return NothingNeeded;
      }
      var local := LocalConflicts(claims, q.owner, normalized);
      if local != [] {
        return WriterConflict(local);
      }
      var answer := store.Acquire(DurableRequest(q));
      match answer {
        case Granted(claim) =>
          claims := PutClaim(claims, claim);
          return Acquired(claim);
        case Reused(claim) =>
          claims := PutClaim(claims, claim);
          return Acquired(claim);
        case Queued(conflicts, _) =>
          return WriterConflict(conflicts);
        case NothingRequested =>
          return WriterConflict([]);
      }
    }

    method Release(claim: Claim)
      modifies this, store
      ensures claims == DropClaim(old(claims), claim.id)
      ensures store.State() == ReleaseStep(old(store.State()), claim.id)
    {
      claims := DropClaim(claims, claim.id);
      store.Release(claim);
    }

    method Ensure(owner: string, scopes: seq<WriteScope>, now: int) returns (ok: bool)
      modifies store
      ensures (store.State(), ok) == EnsureCurrent(claims, old(store.State()), owner, scopes, now, store.ttl)
    {
      var normalized := NormalizeScopes(scopes);
      if normalized == [] {
        return true;
      }
      var i := FindClaim(claims, owner, normalized);
      if i == |claims| {
        return false;
      }
      ok := store.Renew(claims[i], now);
    }
  }

  /*------------------------ many processes, one registry ----------------------*/

  datatype Issue = Issue(owner: string, scopes: seq<WriteScope>, token: nat)

  /** The registry, every process' claim table, and all leases ever issued. */
  datatype World = World(reg: Registry, tables: map<nat, seq<Claim>>, issued: map<string, Issue>)

  datatype Action =
    | DoAcquire(pid: nat, q: Request)
    | DoRelease(pid: nat, claim: Claim)
    | DoRenew(claim: Claim, now: int)
    | DoEnsure(pid: nat, owner: string, scopes: seq<WriteScope>, now: int)
    | Crash(pid: nat)

  const Start := World(EmptyRegistry, map[], map[])

  function Table(w: World, pid: nat): seq<Claim> {
    if pid in w.tables then w.tables[pid] else []
  }

  function Act(w: World, a: Action, ttl: Ttl): World {
    match a
    case DoAcquire(pid, q) =>
      var (table, reg, outcome) := ManagerAcquire(Table(w, pid), w.reg, q, ttl);
      var issued := if outcome.Acquired? && outcome.claim.id !in w.issued
                    then w.issued[outcome.claim.id := Issue(outcome.claim.owner, outcome.claim.scopes, outcome.claim.token)]
                    else w.issued;
      World(reg, w.tables[pid := table], issued)
    case DoRelease(pid, claim) =>
      w.(reg := ReleaseStep(w.reg, claim.id), tables := w.tables[pid := DropClaim(Table(w, pid), claim.id)])
    case DoRenew(claim, now) => w.(reg := RenewStep(w.reg, claim.id, claim.token, now, ttl).0)
    case DoEnsure(pid, owner, scopes, now) =>
      w.(reg := EnsureCurrent(Table(w, pid), w.reg, owner, scopes, now, ttl).0)
    case Crash(pid) => w.(tables := w.tables[pid := []])
  }

  function ActAll(w: World, actions: seq<Action>, ttl: Ttl): World
    decreases |actions|
  {
    if actions == [] then w else ActAll(Act(w, actions[0], ttl), actions[1..], ttl)
  }

  /** Lease ids are fresh and scope paths are not empty. */
  ghost predicate Admissible(w: World, a: Action) {
    a.DoAcquire? ==> a.q.leaseId !in w.issued && NamedPaths(a.q.scopes)
  }

  ghost predicate AllAdmissible(w: World, actions: seq<Action>, ttl: Ttl)
    decreases |actions|
  {
    actions == [] || (Admissible(w, actions[0]) && AllAdmissible(Act(w, actions[0], ttl), actions[1..], ttl))
  }

  ghost predicate LeasesIssued(w: World) {
    forall l :: l in w.reg.leases ==>
      l.id in w.issued && w.issued[l.id] == Issue(l.owner, ReadScopes(l.scopes), l.token)
  }

  ghost predicate ClaimsIssued(w: World) {
    forall pid, c :: pid in w.tables && c in w.tables[pid] ==>
      c.id in w.issued && w.issued[c.id] == Issue(c.owner, c.scopes, c.token)
  }

  ghost predicate WorldInv(w: World) {
    Inv(w.reg) && LeasesIssued(w) && ClaimsIssued(w)
  }

  lemma {:induction false} ReadNamed(scopes: seq<WriteScope>)
    requires NamedPaths(scopes)
    ensures ReadScopes(Normalize(scopes)) == Normalize(scopes)
  {
    var n := Normalize(scopes);
    NormalizeNamed(scopes);
    FilterAll(n, (s: WriteScope) => s.path != "");
    NormalizeIdempotent(scopes);
  }

  lemma {:induction false} NormalizeNamed(scopes: seq<WriteScope>)
    requires NamedPaths(scopes)
    ensures NamedPaths(Normalize(scopes))
  {
    DedupSound(scopes);
    SortMembers(Dedup(scopes), ScopeLeq);
    CompactMembers(Sort(Dedup(scopes), ScopeLeq));
  }

  /** Every lease after an acquire was there before, or is the granted one. */
  lemma {:induction false} AcquireLeases(r: Registry, q: Request, ttl: Ttl)
    ensures var (r', outcome) := AcquireStep(r, q, ttl);
            && (forall l :: l in r'.leases ==>
                  l in r.leases
                  || (outcome.Granted? && l.id == q.leaseId && l.owner == q.owner && l.scopes == q.scopes
                      && l.token == outcome.claim.token))
            && (outcome.Granted? ==> outcome.claim.id == q.leaseId && outcome.claim.owner == q.owner
                                     && outcome.claim.scopes == q.scopes)
            && (outcome.Reused? ==> exists l :: l in r.leases && outcome.claim == ClaimOf(l))
  {
    var p := Prune(r, q.now, ttl);
    var i := FindLease(p.leases, q.owner, q.scopes);
    if i < |p.leases| {
      assert p.leases[i] in r.leases;
    }
  }

  lemma {:induction false} RenewLeases(r: Registry, id: string, token: nat, now: int, ttl: Ttl)
    ensures forall l :: l in RenewStep(r, id, token, now, ttl).0.leases ==>
              exists m :: m in r.leases && l == m.(expiresAt := l.expiresAt)
  {
    var p := Prune(r, now, ttl);
    var r' := RenewStep(r, id, token, now, ttl).0;
    forall l | l in r'.leases
      ensures exists m :: m in r.leases && l == m.(expiresAt := l.expiresAt)
    {
      if r' == r {
        assert l == l.(expiresAt := l.expiresAt);
      } else {
        var k :| 0 <= k < |r'.leases| && r'.leases[k] == l;
        assert p.leases[k] in r.leases;
      }
    }
  }

  /** The lease a claim handed out by an acquire stands for. */
  ghost predicate ClaimBacked(w: World, q: Request, claim: Claim) {
    || (claim.id == q.leaseId && claim.owner == q.owner)
    || (claim.id in w.issued && w.issued[claim.id] == Issue(claim.owner, claim.scopes, claim.token))
  }

  lemma {:induction false} ManagerAcquireEffect(w: World, pid: nat, q: Request, ttl: Ttl)
    requires WorldInv(w) && Admissible(w, DoAcquire(pid, q))
    ensures var (table, reg, outcome) := ManagerAcquire(Table(w, pid), w.reg, q, ttl);
            && Inv(reg)
            && (forall c :: c in table ==> c in Table(w, pid) || (outcome.Acquired? && c == outcome.claim))
            && (outcome.Acquired? ==> ClaimBacked(w, q, outcome.claim))
            && (forall l :: l in reg.leases ==>
                  l in w.reg.leases
                  || (outcome.Acquired? && outcome.claim.id == l.id == q.leaseId && l.owner == outcome.claim.owner
                      && ReadScopes(l.scopes) == outcome.claim.scopes && l.token == outcome.claim.token))
  {
    var normalized := Normalize(q.scopes);
    var table := Table(w, pid);
    if normalized != [] && FindClaim(table, q.owner, normalized) == |table|
       && LocalConflicts(table, q.owner, normalized) == [] {
      AcquireInv(w.reg, DurableRequest(q), ttl);
      AcquireLeases(w.reg, DurableRequest(q), ttl);
      ReadNamed(q.scopes);
    }
  }

  lemma {:induction false} AcquireActIssued(w: World, pid: nat, q: Request, ttl: Ttl)
    requires WorldInv(w) && Admissible(w, DoAcquire(pid, q))
    ensures LeasesIssued(Act(w, DoAcquire(pid, q), ttl))
  {
    ManagerAcquireEffect(w, pid, q, ttl);
    hide ReadScopes, Normalize, ManagerAcquire, Inv;
    assert forall l :: l in w.reg.leases ==> l.id != q.leaseId;
  }

  lemma {:induction false} AcquireActClaims(w: World, pid: nat, q: Request, ttl: Ttl)
    requires WorldInv(w) && Admissible(w, DoAcquire(pid, q))
    ensures ClaimsIssued(Act(w, DoAcquire(pid, q), ttl))
  {
    ManagerAcquireEffect(w, pid, q, ttl);
    hide ReadScopes, Normalize, ManagerAcquire, Inv, LeasesIssued;
    var w' := Act(w, DoAcquire(pid, q), ttl);
    assert forall id :: id in w.issued ==> id in w'.issued && w'.issued[id] == w.issued[id];
  }

  lemma {:induction false} AcquireActInv(w: World, pid: nat, q: Request, ttl: Ttl)
    requires WorldInv(w) && Admissible(w, DoAcquire(pid, q))
    ensures WorldInv(Act(w, DoAcquire(pid, q), ttl))
  {
    ManagerAcquireEffect(w, pid, q, ttl);
    AcquireActIssued(w, pid, q, ttl);
    AcquireActClaims(w, pid, q, ttl);
    hide ReadScopes, Normalize, ManagerAcquire, Inv, LeasesIssued, ClaimsIssued;
  }

  lemma {:induction false} RegistryActInv(w: World, reg: Registry)
    requires WorldInv(w) && Inv(reg)
    requires forall l :: l in reg.leases ==> exists m :: m in w.reg.leases && l == m.(expiresAt := l.expiresAt)
    ensures WorldInv(w.(reg := reg))
  {
  }

  /** Every action of every process keeps the claims and leases consistent. */
  lemma {:induction false} ActInv(w: World, a: Action, ttl: Ttl)
    requires WorldInv(w) && Admissible(w, a)
    ensures WorldInv(Act(w, a, ttl))
  {
    hide ReadScopes, Normalize, ScopeSetsOverlap, CoversAll;
    match a
    case DoAcquire(pid, q) => AcquireActInv(w, pid, q, ttl);
    case DoRelease(pid, claim) => ReleaseInv(w.reg, claim.id);
    case DoRenew(claim, now) =>
      RenewInv(w.reg, claim.id, claim.token, now, ttl);
      RenewLeases(w.reg, claim.id, claim.token, now, ttl);
      RegistryActInv(w, Act(w, a, ttl).reg);
    case DoEnsure(pid, owner, scopes, now) =>
      var table := Table(w, pid);
      var i := FindClaim(table, owner, Normalize(scopes));
      if Normalize(scopes) != [] && i < |table| {
        RenewInv(w.reg, table[i].id, table[i].token, now, ttl);
        RenewLeases(w.reg, table[i].id, table[i].token, now, ttl);
        RegistryActInv(w, Act(w, a, ttl).reg);
      }
    case Crash(pid) =>
  }

  lemma {:induction false} ReachableInv(w: World, actions: seq<Action>, ttl: Ttl)
    requires WorldInv(w) && AllAdmissible(w, actions, ttl)
    ensures WorldInv(ActAll(w, actions, ttl))
    decreases |actions|
  {
    if actions != [] {
      ActInv(w, actions[0], ttl);
      ReachableInv(Act(w, actions[0], ttl), actions[1..], ttl);
    }
  }

  /*--------------------------------- the fence --------------------------------*/

  /** The claim the fence picks. */
  function FenceClaim(table: seq<Claim>, owner: string, scopes: seq<WriteScope>): Claim
    requires FindClaim(table, owner, Normalize(scopes)) < |table|
  {
    table[FindClaim(table, owner, Normalize(scopes))]
  }

  lemma {:induction false} FenceLease(w: World, ttl: Ttl, pid: nat, owner: string, scopes: seq<WriteScope>, now: int)
      returns (l: Lease)
    requires ValidTtl(ttl) && WorldInv(w) && Normalize(scopes) != []
    requires EnsureCurrent(Table(w, pid), w.reg, owner, scopes, now, ttl).1
    ensures FindClaim(Table(w, pid), owner, Normalize(scopes)) < |Table(w, pid)|
    ensures l in EnsureCurrent(Table(w, pid), w.reg, owner, scopes, now, ttl).0.leases
    ensures l.expiresAt > now
    ensures var c := FenceClaim(Table(w, pid), owner, scopes);
            l.owner == owner && l.id == c.id && l.token == c.token && ReadScopes(l.scopes) == c.scopes
  {
    hide ReadScopes, Normalize, ScopeSetsOverlap, CoversAll;
    var c := FenceClaim(Table(w, pid), owner, scopes);
    assert c in Table(w, pid) && pid in w.tables;
    var p := Prune(w.reg, now, ttl);
    var i := FindHeld(p.leases, c.id, c.token);
    assert p.leases[i] in w.reg.leases;
    l := p.leases[i].(expiresAt := now + ttl.lease);
    assert l == EnsureCurrent(Table(w, pid), w.reg, owner, scopes, now, ttl).0.leases[i];
  }

  lemma {:induction false} EnsureInv(w: World, ttl: Ttl, pid: nat, owner: string, scopes: seq<WriteScope>, now: int)
    requires WorldInv(w)
    ensures Inv(EnsureCurrent(Table(w, pid), w.reg, owner, scopes, now, ttl).0)
  {
    var i := FindClaim(Table(w, pid), owner, Normalize(scopes));
    if i < |Table(w, pid)| {
      RenewInv(w.reg, Table(w, pid)[i].id, Table(w, pid)[i].token, now, ttl);
    }
  }

  ghost predicate Reachable(w: World, ttl: Ttl) {
    exists actions :: AllAdmissible(Start, actions, ttl) && w == ActAll(Start, actions, ttl)
  }

  lemma {:induction false} ReachableWorldInv(w: World, ttl: Ttl)
    requires Reachable(w, ttl)
    ensures WorldInv(w)
  {
    var actions :| AllAdmissible(Start, actions, ttl) && w == ActAll(Start, actions, ttl);
    ReachableInv(Start, actions, ttl);
  }

  /** In every reachable world, a write that passes the fence is backed at that
      moment by an unexpired lease of its owner carrying the claim's token.  The
      lease protects every requested file exactly when no recursive request is
      met only by a plain hold at its own path; then no other owner holds a lease
      on any of these files. */
  lemma {:induction false} FenceExact(w: World, ttl: Ttl, pid: nat, owner: string, scopes: seq<WriteScope>, now: int)
      returns (l: Lease)
    requires ValidTtl(ttl) && Reachable(w, ttl) && NamedPaths(scopes) && Normalize(scopes) != []
    requires EnsureCurrent(Table(w, pid), w.reg, owner, scopes, now, ttl).1
    ensures FindClaim(Table(w, pid), owner, Normalize(scopes)) < |Table(w, pid)|
    ensures var c := FenceClaim(Table(w, pid), owner, scopes);
            l.owner == owner && l.expiresAt > now && l.id == c.id && l.token == c.token && ReadScopes(l.scopes) == c.scopes
    ensures var reg := EnsureCurrent(Table(w, pid), w.reg, owner, scopes, now, ttl).0;
            && l in reg.leases
            && (RecursiveRequestsHeldRecursively(ReadScopes(l.scopes), Normalize(scopes))
                <==> forall p :: ProtectsAny(scopes, p) ==> ProtectsAny(ReadScopes(l.scopes), p))
            && (RecursiveRequestsHeldRecursively(ReadScopes(l.scopes), Normalize(scopes)) ==>
                  NoForeignOverlap(reg.leases, owner, scopes))
  {
    ReachableWorldInv(w, ttl);
    l := FenceLease(w, ttl, pid, owner, scopes, now);
    EnsureInv(w, ttl, pid, owner, scopes, now);
    HeldScopesExact(l, EnsureCurrent(Table(w, pid), w.reg, owner, scopes, now, ttl).0, scopes);
  }

  lemma {:induction false} HeldScopesExact(l: Lease, reg: Registry, scopes: seq<WriteScope>)
    requires Inv(reg) && l in reg.leases && NamedPaths(scopes) && CoversAll(ReadScopes(l.scopes), Normalize(scopes))
    ensures RecursiveRequestsHeldRecursively(ReadScopes(l.scopes), Normalize(scopes))
       <==> forall p :: ProtectsAny(scopes, p) ==> ProtectsAny(ReadScopes(l.scopes), p)
    ensures RecursiveRequestsHeldRecursively(ReadScopes(l.scopes), Normalize(scopes)) ==>
              NoForeignOverlap(reg.leases, l.owner, scopes)
  {
    var held := ReadScopes(l.scopes);
    NormalizeNamed(scopes);
    CoverageExact(held, Normalize(scopes));
    NormalizeMeaning(scopes);
    if RecursiveRequestsHeldRecursively(held, Normalize(scopes)) {
      forall m | m in reg.leases && m.owner != l.owner
        ensures !ScopeSetsOverlap(scopes, ReadScopes(m.scopes))
      {
        SetsOverlapIffCommonFile(scopes, ReadScopes(m.scopes));
        SetsOverlapIffCommonFile(held, ReadScopes(m.scopes));
      }
    }
  }

  lemma {:induction false} NormalizeSingle(s: WriteScope)
    requires s.path != ""
    ensures Normalize([s]) == [s] && ReadScopes([s]) == [s]
  {
    var one := [s];
    DedupFixpoint(one);
    SortFixpoint(one, ScopeLeq);
    CompactFixpoint(one);
    FilterAll(one, (t: WriteScope) => t.path != "");
  }

  lemma {:induction false} FreePrune(r: Registry, now: int, ttl: Ttl)
    requires r.waiters == [] && forall l :: l in r.leases ==> l.expiresAt > now
    ensures Prune(r, now, ttl) == r
  {
    FilterAll(r.leases, (l: Lease) => l.expiresAt > now);
  }

  lemma {:induction false} FreeQueue(r: Registry, q: Request)
    requires r.waiters == []
    ensures var (queued, i) := Enqueue(r, q);
            && i == 0 && |queued.waiters| == 1 && queued.leases == r.leases
            && queued.nextTicket == r.nextTicket + 1 && queued.nextToken == r.nextToken
            && EarlierWaiters(queued.waiters, q.owner, q.scopes, queued.waiters[i].ticket) == []
  {
    var queued := Enqueue(r, q).0;
    var ticket := queued.waiters[0].ticket;
    FilterNone(queued.waiters, (w: Waiter) => w.ticket < ticket && w.owner != q.owner
                                              && ScopeSetsOverlap(q.scopes, ReadScopes(w.scopes)));
  }

  lemma {:induction false} FreeContend(r: Registry, q: Request, ttl: Ttl)
    requires q.ownerLabel != "" && r.waiters == [] && NoForeignOverlap(r.leases, q.owner, q.scopes)
    ensures Contend(r, q, ttl) ==
            (Registry(r.leases + [Lease(q.leaseId, q.owner, q.ownerLabel, q.scopes, r.nextToken, q.now + ttl.lease)],
                      [], r.nextTicket + 1, r.nextToken + 1),
             Granted(Claim(q.leaseId, q.owner, q.ownerLabel, q.scopes, r.nextToken, q.now + ttl.lease)))
  {
    FreeQueue(r, q);
    NoConflictsMeansNoOverlap(r.leases, q.owner, q.scopes);
    var queued := Enqueue(r, q).0;
    assert queued.waiters[..0] + queued.waiters[1..] == [];
  }

  /** A request nobody competes with is granted at once. */
  lemma {:induction false} FreeGrant(r: Registry, q: Request, ttl: Ttl)
    requires q.scopes != [] && q.ownerLabel != "" && r.waiters == []
    requires forall l :: l in r.leases ==> l.expiresAt > q.now && l.owner != q.owner
    requires NoForeignOverlap(r.leases, q.owner, q.scopes)
    ensures AcquireStep(r, q, ttl) ==
            (Registry(r.leases + [Lease(q.leaseId, q.owner, q.ownerLabel, q.scopes, r.nextToken, q.now + ttl.lease)],
                      [], r.nextTicket + 1, r.nextToken + 1),
             Granted(Claim(q.leaseId, q.owner, q.ownerLabel, q.scopes, r.nextToken, q.now + ttl.lease)))
  {
    FreePrune(r, q.now, ttl);
    FreeContend(r, q, ttl);
  }

  ghost predicate Untouched(r: Registry, q: Request) {
    && r.waiters == []
    && (forall l :: l in r.leases ==> l.expiresAt > q.now && l.owner != q.owner)
    && NoForeignOverlap(r.leases, q.owner, q.scopes)
  }

  lemma {:induction false} FreeManagerGrant(w: World, pid: nat, q: Request, ttl: Ttl)
    requires Normalize(q.scopes) == q.scopes != [] && q.ownerLabel != ""
    requires pid !in w.tables && q.leaseId !in w.issued && Untouched(w.reg, q)
    ensures var c := Claim(q.leaseId, q.owner, q.ownerLabel, q.scopes, w.reg.nextToken, q.now + ttl.lease);
            var l := Lease(q.leaseId, q.owner, q.ownerLabel, q.scopes, w.reg.nextToken, q.now + ttl.lease);
            Act(w, DoAcquire(pid, q), ttl) ==
            World(Registry(w.reg.leases + [l], [], w.reg.nextTicket + 1, w.reg.nextToken + 1),
                  w.tables[pid := [c]], w.issued[q.leaseId := Issue(q.owner, q.scopes, w.reg.nextToken)])
  {
    hide ReadScopes, Normalize, ScopeSetsOverlap, CoversAll, AcquireStep;
    FreeGrant(w.reg, q, ttl);
    assert DurableRequest(q) == q;
    assert LocalConflicts(Table(w, pid), q.owner, q.scopes) == [];
  }

  lemma {:induction false} PlainScopesDisjoint(a: WriteScope, b: WriteScope)
    requires !a.recursive && !b.recursive && a.path != b.path
    ensures !ScopeSetsOverlap([a], [b])
  {
    assert !Overlaps(a, b);
  }

  lemma {:induction false} FileIsUntouched(r: Registry, q: Request, held: Lease, dir: WriteScope, file: WriteScope)
    requires r.waiters == [] && r.leases == [held] && q.scopes == [file]
    requires held.scopes == [dir] && held.expiresAt > q.now && held.owner != q.owner
    requires dir.path != "" && !dir.recursive && !file.recursive && dir.path != file.path
    ensures Untouched(r, q)
  {
    hide ReadScopes, Normalize, ScopeSetsOverlap, CoversAll;
    assert ReadScopes(held.scopes) == [dir] by {
      NormalizeSingle(dir);
    }
    PlainScopesDisjoint(file, dir);
    forall l | l in r.leases
      ensures l.expiresAt > q.now && l.owner != q.owner && !ScopeSetsOverlap(q.scopes, ReadScopes(l.scopes))
    {
      assert l == held;
    }
  }

  lemma {:induction false} RenewFirst(r: Registry, id: string, token: nat, now: int, ttl: Ttl)
    requires r.waiters == [] && r.leases != [] && forall l :: l in r.leases ==> l.expiresAt > now
    requires r.leases[0].id == id && r.leases[0].token == token
    ensures RenewStep(r, id, token, now, ttl)
         == (r.(leases := r.leases[0 := r.leases[0].(expiresAt := now + ttl.lease)]), true)
  {
    FreePrune(r, now, ttl);
    assert FindHeld(r.leases, id, token) == 0;
  }

  lemma {:induction false} PlainHoldCovers(c: Claim, dir: WriteScope, whole: WriteScope)
    requires c.scopes == [dir] && dir.path == whole.path
    ensures ClaimAnswers(c, c.owner, [whole])
  {
    assert c.scopes[0] in c.scopes && Covers(c.scopes[0], whole);
  }

  lemma {:induction false} PlainHoldAnswers(table: seq<Claim>, dir: WriteScope, whole: WriteScope)
    requires table != [] && table[0].scopes == [dir] && dir.path == whole.path && whole.path != ""
    ensures Normalize([whole]) == [whole] && FindClaim(table, table[0].owner, [whole]) == 0
  {
    PlainHoldCovers(table[0], dir, whole);
    NormalizeSingle(whole);
  }

  lemma {:induction false} DirOverlapsFile(dir: string, file: WriteScope)
    requires file.path != "" && Contains(dir, file.path)
    ensures ScopeSetsOverlap([WriteScope(dir, true, "")], ReadScopes([file]))
  {
    hide Contains, ReadScopes, Normalize;
    NormalizeSingle(file);
    var left := WriteScope(dir, true, "");
    assert left in [left] && file in [file] && Overlaps(left, file);
  }

  ghost predicate PlainOverFile(ttl: Ttl, a: Request, b: Request, dir: WriteScope, file: WriteScope) {
    && ValidTtl(ttl) && a.owner != b.owner && a.ownerLabel != "" && b.ownerLabel != ""
    && a.leaseId != b.leaseId && a.now == b.now == 0 && a.scopes == [dir] && b.scopes == [file]
    && dir.path != "" && file.path != "" && !dir.recursive && !file.recursive
    && dir.path != file.path && Contains(dir.path, file.path)
  }

  lemma {:induction false} DirIsGranted(w: World, ttl: Ttl, a: Request, b: Request, dir: WriteScope, file: WriteScope)
      returns (l: Lease)
    requires PlainOverFile(ttl, a, b, dir, file)
    requires w.reg.leases == [] && w.reg.waiters == [] && w.tables == map[] && w.issued == map[]
    ensures var end := Act(w, DoAcquire(0, a), ttl);
            && end.reg.waiters == [] && end.reg.leases == [l] && 1 !in end.tables && b.leaseId !in end.issued
            && l.owner == a.owner && l.scopes == [dir] && l.expiresAt == ttl.lease
            && Table(end, 0) == [Claim(l.id, l.owner, a.ownerLabel, [dir], l.token, l.expiresAt)]
  {
    hide ReadScopes, Normalize, ScopeSetsOverlap, CoversAll;
    assert Normalize(a.scopes) == a.scopes by {
      NormalizeSingle(dir);
    }
    assert Untouched(w.reg, a);
    FreeManagerGrant(w, 0, a, ttl);
    l := Lease(a.leaseId, a.owner, a.ownerLabel, a.scopes, w.reg.nextToken, a.now + ttl.lease);
  }

  lemma {:induction false} FileIsGranted(w: World, ttl: Ttl, a: Request, b: Request, dir: WriteScope,
          file: WriteScope, held: Lease)
    requires PlainOverFile(ttl, a, b, dir, file)
    requires w.reg.waiters == [] && w.reg.leases == [held] && 1 !in w.tables && b.leaseId !in w.issued
    requires held.owner == a.owner && held.scopes == [dir] && held.expiresAt == ttl.lease
    ensures var end := Act(w, DoAcquire(1, b), ttl);
            && end.reg.waiters == [] && |end.reg.leases| == 2 && Table(end, 0) == Table(w, 0)
            && end.reg.leases[0] == held && end.reg.leases[1].owner == b.owner
            && end.reg.leases[1].scopes == [file] && end.reg.leases[1].expiresAt == ttl.lease
  {
    hide ReadScopes, Normalize, ScopeSetsOverlap, CoversAll;
    assert Normalize(b.scopes) == b.scopes by {
      NormalizeSingle(file);
    }
    FileIsUntouched(w.reg, b, held, dir, file);
    FreeManagerGrant(w, 1, b, ttl);
  }

  /** Without the side condition the fence lets a recursive write pass while
      another owner holds a file below: owner a holds a directory plainly, owner
      b then gets a file in it, and a still passes the fence for the whole
      directory.  The registry starts empty. */
  lemma {:induction false} FenceCanMissForeignLease(ttl: Ttl, a: Request, b: Request, dir: WriteScope, file: WriteScope)
    requires PlainOverFile(ttl, a, b, dir, file)
    ensures var whole := [WriteScope(dir.path, true, "")];
            var end := Act(Act(Start, DoAcquire(0, a), ttl), DoAcquire(1, b), ttl);
            var (reg, ok) := EnsureCurrent(Table(end, 0), end.reg, a.owner, whole, 1, ttl);
            ok && exists l :: l in reg.leases && l.owner == b.owner && ScopeSetsOverlap(whole, ReadScopes(l.scopes))
  {
    var whole := WriteScope(dir.path, true, "");
    var held := DirIsGranted(Start, ttl, a, b, dir, file);
    FileIsGranted(Act(Start, DoAcquire(0, a), ttl), ttl, a, b, dir, file, held);
    var end := Act(Act(Start, DoAcquire(0, a), ttl), DoAcquire(1, b), ttl);
    FenceMisses(end, ttl, dir, file, whole);
  }

  lemma {:induction false} FenceMisses(w: World, ttl: Ttl, dir: WriteScope, file: WriteScope, whole: WriteScope)
    requires ValidTtl(ttl) && w.reg.waiters == [] && |w.reg.leases| == 2 && |Table(w, 0)| == 1
    requires w.reg.leases[1].scopes == [file]
    requires w.reg.leases[0].expiresAt == w.reg.leases[1].expiresAt == ttl.lease
    requires var c := Table(w, 0)[0];
             c.scopes == [dir] && c.id == w.reg.leases[0].id && c.token == w.reg.leases[0].token
    requires dir.path != "" && file.path != "" && Contains(dir.path, file.path)
    requires whole == WriteScope(dir.path, true, "")
    ensures var (reg, ok) := EnsureCurrent(Table(w, 0), w.reg, Table(w, 0)[0].owner, [whole], 1, ttl);
            && ok && |reg.leases| == 2 && reg.leases[1] == w.reg.leases[1]
            && ScopeSetsOverlap([whole], ReadScopes(reg.leases[1].scopes))
  {
    hide ReadScopes, Normalize, ScopeSetsOverlap, CoversAll;
    var c := Table(w, 0)[0];
    PlainHoldAnswers(Table(w, 0), dir, whole);
    forall l | l in w.reg.leases
      ensures l.expiresAt > 1
    {
      var k :| 0 <= k < 2 && w.reg.leases[k] == l;
    }
    RenewFirst(w.reg, c.id, c.token, 1, ttl);
    DirOverlapsFile(dir.path, file);
  }

  /*------------------------- a stale worker stays fenced ----------------------*/

  /** A lease id that was issued and is gone from the registry. */
  ghost predicate Dead(w: World, id: string) {
    id in w.issued && forall l :: l in w.reg.leases ==> l.id != id
  }

  lemma {:induction false} DeadStaysDead(w: World, a: Action, ttl: Ttl, id: string)
    requires WorldInv(w) && Admissible(w, a) && Dead(w, id)
    ensures Dead(Act(w, a, ttl), id)
  {
    match a
    case DoAcquire(pid, q) => ManagerAcquireEffect(w, pid, q, ttl);
    case DoRelease(pid, claim) =>
    case DoRenew(claim, now) => RenewLeases(w.reg, claim.id, claim.token, now, ttl);
    case DoEnsure(pid, owner, scopes, now) =>
      var table := Table(w, pid);
      var i := FindClaim(table, owner, Normalize(scopes));
      if Normalize(scopes) != [] && i < |table| {
        RenewLeases(w.reg, table[i].id, table[i].token, now, ttl);
      }
    case Crash(pid) =>
  }

  /** Once a worker's lease is gone from the registry, no later interleaving
      lets it pass the fence on that claim again. */
  lemma {:induction false} StaleWorkerIsFenced(w: World, actions: seq<Action>, ttl: Ttl, pid: nat, owner: string,
                                               scopes: seq<WriteScope>, now: int)
    requires WorldInv(w) && AllAdmissible(w, actions, ttl) && Normalize(scopes) != []
    requires var end := ActAll(w, actions, ttl);
             && FindClaim(Table(end, pid), owner, Normalize(scopes)) < |Table(end, pid)|
             && Dead(w, FenceClaim(Table(end, pid), owner, scopes).id)
    ensures var end := ActAll(w, actions, ttl);
            !EnsureCurrent(Table(end, pid), end.reg, owner, scopes, now, ttl).1
    decreases |actions|
  {
    hide ReadScopes, Normalize, ScopeSetsOverlap, CoversAll;
    if actions == [] {
      var c := FenceClaim(Table(w, pid), owner, scopes);
      var p := Prune(w.reg, now, ttl);
      assert forall m :: m in p.leases ==> m in w.reg.leases && m.id != c.id;
    } else {
      var end := ActAll(w, actions, ttl);
      DeadStaysDead(w, actions[0], ttl, FenceClaim(Table(end, pid), owner, scopes).id);
      ActInv(w, actions[0], ttl);
      StaleWorkerIsFenced(Act(w, actions[0], ttl), actions[1..], ttl, pid, owner, scopes, now);
    }
  }
}
