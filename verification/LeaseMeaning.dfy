/** What the calls of the lease store and of the fence answer, said of the leases and
    waiters in the registry before the call
    (agent/app/execution/write_intents.py). */
module LeaseMeaning {
  import opened Ordering
  import opened Scopes
  import opened Leases
  import opened LeaseSafety
  import opened Fencing

  /** A stored list of scopes protects a file; entries without a path do not count. */
  ghost predicate Guards(stored: seq<WriteScope>, file: string) {
    exists s :: s in stored && s.path != "" && (s.path == file || (s.recursive && Contains(s.path, file)))
  }

  /** Some file is asked for and guarded. */
  ghost predicate Meets(asked: seq<WriteScope>, stored: seq<WriteScope>) {
    exists file, s :: s in asked && (s.path == file || (s.recursive && Contains(s.path, file))) && Guards(stored, file)
  }

  lemma {:induction false} StoredGuards(stored: seq<WriteScope>, file: string)
    ensures ProtectsAny(ReadScopes(stored), file) <==> Guards(stored, file)
  {
    var named := Filter(stored, (s: WriteScope) => s.path != "");
    NormalizeMeaning(named);
    hide Normalize, Contains;
    if ProtectsAny(named, file) {
      var s :| s in named && Protects(s, file);
      assert s in stored && s.path != "";
    }
    if Guards(stored, file) {
      var s :| s in stored && s.path != "" && (s.path == file || (s.recursive && Contains(s.path, file)));
      assert s in named && Protects(s, file);
    }
  }

  lemma {:induction false} OverlapMeets(asked: seq<WriteScope>, stored: seq<WriteScope>)
    ensures ScopeSetsOverlap(asked, ReadScopes(stored)) <==> Meets(asked, stored)
  {
    SetsOverlapIffCommonFile(asked, ReadScopes(stored));
    forall file
      ensures ProtectsAny(ReadScopes(stored), file) <==> Guards(stored, file)
    {
      StoredGuards(stored, file);
    }
    hide ScopeSetsOverlap, ReadScopes, Guards, Contains;
    if p :| ProtectsAny(asked, p) && ProtectsAny(ReadScopes(stored), p) {
      var s :| s in asked && Protects(s, p);
      assert Meets(asked, stored);
    }
    if Meets(asked, stored) {
      var file, s :| s in asked && (s.path == file || (s.recursive && Contains(s.path, file))) && Guards(stored, file);
      assert Protects(s, file);
      assert ProtectsAny(asked, file);
    }
  }

  /** Two digests are equal exactly for the same paths and modes in the same order. */
  lemma {:induction false} FingerprintExact(a: seq<WriteScope>, b: seq<WriteScope>)
    ensures Fingerprint(a) == Fingerprint(b)
       <==> |a| == |b| && forall i :: 0 <= i < |a| ==> a[i].path == b[i].path && a[i].recursive == b[i].recursive
  {
    assert |Fingerprint(a)| == |a| && |Fingerprint(b)| == |b|;
    if Fingerprint(a) == Fingerprint(b) {
      forall i | 0 <= i < |a|
        ensures a[i].path == b[i].path && a[i].recursive == b[i].recursive
      {
        assert Fingerprint(a)[i] == Fingerprint(b)[i];
      }
    }
  }

  /*----------------------------------- release --------------------------------*/

  /** A release takes away the leases of that id, and nothing else. */
  lemma {:induction false} ReleaseExact(r: Registry, id: string)
    requires Inv(r)
    ensures var r' := ReleaseStep(r, id);
            && r'.waiters == r.waiters && r'.nextTicket == r.nextTicket && r'.nextToken == r.nextToken
            && (forall l :: l in r'.leases <==> l in r.leases && l.id != id)
            && SortedBy(r'.leases, TokenBefore)
  {
    ReleaseInv(r, id);
  }

  /*----------------------------------- renewal --------------------------------*/

  lemma {:induction false} SameLease(r: Registry, a: Lease, b: Lease)
    requires Inv(r) && a in r.leases && b in r.leases && a.id == b.id
    ensures a == b
  {
    var i :| 0 <= i < |r.leases| && r.leases[i] == a;
    var j :| 0 <= j < |r.leases| && r.leases[j] == b;
    assert i < j ==> OtherId(a, b);
    assert j < i ==> OtherId(b, a);
  }

  /** The lease m as it is after a renewal of id. */
  predicate RenewedAs(m: Lease, l: Lease, id: string, expiresAt: int) {
    l == if m.id == id then m.(expiresAt := expiresAt) else m
  }

  /** Every lease unexpired at now is still there, with its new term. */
  ghost predicate NoneLost(before: seq<Lease>, after: seq<Lease>, now: int, id: string, expiresAt: int) {
    forall m :: m in before && m.expiresAt > now ==> exists l :: l in after && RenewedAs(m, l, id, expiresAt)
  }

  /** Every lease that is there was there unexpired. */
  ghost predicate NoneRevived(before: seq<Lease>, after: seq<Lease>, now: int, id: string, expiresAt: int) {
    forall l :: l in after ==> exists m :: m in before && m.expiresAt > now && RenewedAs(m, l, id, expiresAt)
  }

  /** The registry holds a lease of that id and token that has not expired. */
  ghost predicate Unexpired(r: Registry, id: string, token: nat, now: int) {
    exists l :: l in r.leases && l.id == id && l.token == token && l.expiresAt > now
  }

  /** A renewal succeeds if and only if the registry holds a lease of that id and token
      that has not expired; a failed one changes nothing. */
  lemma {:induction false} RenewExact(r: Registry, id: string, token: nat, now: int, ttl: Ttl)
    ensures RenewStep(r, id, token, now, ttl).1 <==> Unexpired(r, id, token, now)
    ensures !Unexpired(r, id, token, now) ==> RenewStep(r, id, token, now, ttl).0 == r
  {
    LiveExact(r, now, ttl);
    RenewFinds(Prune(r, now, ttl).leases, id, token);
    hide LiveLeases, LiveWaiters, FindHeld;
  }

  /** A renewal drops what has expired, gives the lease a new term and leaves the rest
      and the order as they are. */
  lemma {:induction false} RenewEffect(r: Registry, id: string, token: nat, now: int, ttl: Ttl)
    requires Inv(r) && Unexpired(r, id, token, now)
    ensures var r' := RenewStep(r, id, token, now, ttl).0;
            && NoneLost(r.leases, r'.leases, now, id, now + ttl.lease)
            && NoneRevived(r.leases, r'.leases, now, id, now + ttl.lease)
            && (forall w :: w in r'.waiters <==> w in r.waiters && now - w.updatedAt <= ttl.waiter)
            && r'.nextTicket == r.nextTicket && r'.nextToken == r.nextToken
            && SortedBy(r'.leases, TokenBefore) && SortedBy(r'.waiters, TicketBefore)
  {
    hide Prune, RenewStep, NoneLost, NoneRevived, Inv;
    var i := RenewIs(r, id, token, now, ttl);
    RenewInv(r, id, token, now, ttl);
    PruneInv(r, now, ttl);
    LiveExact(r, now, ttl);
    SortedParts(Prune(r, now, ttl));
    SortedParts(RenewStep(r, id, token, now, ttl).0);
    ExtendedMembers(r.leases, Prune(r, now, ttl).leases, i, now, now + ttl.lease);
  }

  lemma {:induction false} RenewIs(r: Registry, id: string, token: nat, now: int, ttl: Ttl) returns (i: nat)
    requires Unexpired(r, id, token, now)
    ensures var p := Prune(r, now, ttl);
            && i < |p.leases| && p.leases[i].id == id
            && RenewStep(r, id, token, now, ttl).0
               == p.(leases := p.leases[i := p.leases[i].(expiresAt := now + ttl.lease)])
  {
    RenewExact(r, id, token, now, ttl);
    hide Prune, Unexpired;
    i := FindHeld(Prune(r, now, ttl).leases, id, token);
  }

  lemma {:induction false} SortedParts(r: Registry)
    requires Inv(r)
    ensures SortedBy(r.leases, TokenBefore) && SortedBy(r.leases, OtherId) && SortedBy(r.waiters, TicketBefore)
  {
    hide Exclusive, SortedBy;
  }

  lemma {:induction false} LiveExact(r: Registry, now: int, ttl: Ttl)
    ensures forall l :: l in Prune(r, now, ttl).leases <==> l in r.leases && l.expiresAt > now
    ensures forall w :: w in Prune(r, now, ttl).waiters <==> w in r.waiters && now - w.updatedAt <= ttl.waiter
    ensures Prune(r, now, ttl).nextTicket == r.nextTicket && Prune(r, now, ttl).nextToken == r.nextToken
  {
  }

  lemma {:induction false} RenewFinds(live: seq<Lease>, id: string, token: nat)
    ensures FindHeld(live, id, token) < |live| <==> exists l :: l in live && l.id == id && l.token == token
  {
    var i := FindHeld(live, id, token);
    if i < |live| {
      assert live[i] in live;
    } else {
      forall l | l in live
        ensures !(l.id == id && l.token == token)
      {
        var j :| 0 <= j < |live| && live[j] == l;
      }
    }
  }

  lemma {:induction false} ExtendedMembers(before: seq<Lease>, live: seq<Lease>, i: nat, now: int, expiresAt: int)
    requires i < |live| && SortedBy(live, OtherId) && forall l :: l in live <==> l in before && l.expiresAt > now
    ensures var after := live[i := live[i].(expiresAt := expiresAt)];
            NoneLost(before, after, now, live[i].id, expiresAt) && NoneRevived(before, after, now, live[i].id, expiresAt)
  {
    var after := live[i := live[i].(expiresAt := expiresAt)];
    forall k | 0 <= k < |live|
      ensures RenewedAs(live[k], after[k], live[i].id, expiresAt)
    {
      assert k < i ==> OtherId(live[k], live[i]);
      assert k > i ==> OtherId(live[i], live[k]);
    }
    hide RenewedAs, SortedBy;
    forall m | m in before && m.expiresAt > now
      ensures exists l :: l in after && RenewedAs(m, l, live[i].id, expiresAt)
    {
      var k :| 0 <= k < |live| && live[k] == m;
      assert after[k] in after;
    }
    forall l | l in after
      ensures exists m :: m in before && m.expiresAt > now && RenewedAs(m, l, live[i].id, expiresAt)
    {
      var k :| 0 <= k < |after| && after[k] == l;
      assert live[k] in live;
    }
  }

  /*------------------------------------ fence ----------------------------------*/

  /** Every scope of the normal form of the request is at or under some scope of the claim. */
  ghost predicate Holds(c: Claim, owner: string, scopes: seq<WriteScope>) {
    c.owner == owner
    && forall s :: s in Normalize(scopes) ==>
         exists h :: h in c.scopes && (h.path == s.path || (h.recursive && Contains(h.path, s.path)))
  }

  lemma {:induction false} HoldsAnswers(c: Claim, owner: string, scopes: seq<WriteScope>)
    ensures Holds(c, owner, scopes) <==> ClaimAnswers(c, owner, Normalize(scopes))
  {
    hide Normalize, Contains;
    forall s
      ensures (exists h :: h in c.scopes && Covers(h, s))
         <==> (exists h :: h in c.scopes && (h.path == s.path || (h.recursive && Contains(h.path, s.path))))
    {
      if h :| h in c.scopes && (h.path == s.path || (h.recursive && Contains(h.path, s.path))) {
        assert Covers(h, s);
      }
    }
  }

  /** The first claim of the table that holds the request. */
  ghost predicate FirstHolding(table: seq<Claim>, i: int, owner: string, scopes: seq<WriteScope>) {
    0 <= i < |table| && Holds(table[i], owner, scopes) && forall j :: 0 <= j < i ==> !Holds(table[j], owner, scopes)
  }

  lemma {:induction false} FindsFirst(table: seq<Claim>, owner: string, scopes: seq<WriteScope>)
    ensures var i := FindClaim(table, owner, Normalize(scopes));
            && (i < |table| ==> FirstHolding(table, i, owner, scopes))
            && forall k :: FirstHolding(table, k, owner, scopes) ==> k == i
  {
    forall k | 0 <= k < |table|
      ensures Holds(table[k], owner, scopes) <==> ClaimAnswers(table[k], owner, Normalize(scopes))
    {
      HoldsAnswers(table[k], owner, scopes);
    }
    hide Normalize, ClaimAnswers, Holds;
  }

  /** The fence passes if and only if nothing is requested, or the first claim of the
      owner that holds the request has a lease with its id and token in the registry
      that has not expired; otherwise it changes nothing. */
  lemma {:induction false} EnsureExact(table: seq<Claim>, r: Registry, owner: string, scopes: seq<WriteScope>, now: int,
          ttl: Ttl)
    ensures var (r', ok) := EnsureCurrent(table, r, owner, scopes, now, ttl);
            && (ok <==> scopes == []
                        || exists i :: FirstHolding(table, i, owner, scopes) && Unexpired(r, table[i].id, table[i].token, now))
            && (!ok ==> r' == r)
  {
    NothingNormal(scopes);
    FindsFirst(table, owner, scopes);
    var i := FindClaim(table, owner, Normalize(scopes));
    if i < |table| {
      RenewExact(r, table[i].id, table[i].token, now, ttl);
    }
    hide RenewStep, Normalize, FindClaim, FirstHolding, Unexpired;
  }

  lemma {:induction false} NothingNormal(scopes: seq<WriteScope>)
    ensures Normalize(scopes) == [] <==> scopes == []
  {
    NormalizeMeaning(scopes);
    hide Normalize;
    if scopes != [] {
      assert scopes[0] in scopes && Protects(scopes[0], scopes[0].path);
      assert ProtectsAny(scopes, scopes[0].path);
    } else {
      NothingGuarded(Normalize(scopes));
    }
  }

  lemma {:induction false} NothingGuarded(scopes: seq<WriteScope>)
    requires forall p :: !ProtectsAny(scopes, p)
    ensures scopes == []
  {
    if scopes != [] {
      var s := scopes[0];
      assert s in scopes && Protects(s, s.path) && !ProtectsAny(scopes, s.path);
    }
  }

  /** A claim whose lease has expired fails the fence, whoever else holds what. */
  lemma {:induction false} ExpiredClaimIsFenced(table: seq<Claim>, r: Registry, owner: string, scopes: seq<WriteScope>,
          now: int, ttl: Ttl)
    requires scopes != []
    requires forall c, l :: c in table && Holds(c, owner, scopes) && l in r.leases && l.id == c.id ==> l.expiresAt <= now
    ensures EnsureCurrent(table, r, owner, scopes, now, ttl) == (r, false)
  {
    EnsureExact(table, r, owner, scopes, now, ttl);
    hide EnsureCurrent, Holds;
    assert forall i :: FirstHolding(table, i, owner, scopes) ==> table[i] in table;
  }

  /*----------------------------------- acquire ---------------------------------*/

  lemma {:induction false} CoversMeans(stored: seq<WriteScope>, scopes: seq<WriteScope>)
    ensures CoversAll(ReadScopes(stored), scopes) <==> forall s :: s in scopes ==> Guards(stored, s.path)
  {
    hide ReadScopes, Guards, Contains;
    forall s
      ensures (exists h :: h in ReadScopes(stored) && Covers(h, s)) <==> Guards(stored, s.path)
    {
      StoredGuards(stored, s.path);
      forall h
        ensures Covers(h, s) <==> Protects(h, s.path)
      {
      }
    }
    hide Covers;
  }

  /** An unexpired lease of the same owner guards every requested path. */
  ghost predicate Reusable(l: Lease, q: Request) {
    l.owner == q.owner && l.expiresAt > q.now && forall s :: s in q.scopes ==> Guards(l.scopes, s.path)
  }

  /** The queue entry of this very request, not yet out of date. */
  ghost predicate OwnPlace(w: Waiter, q: Request, ttl: Ttl) {
    w.owner == q.owner && w.fingerprint == Fingerprint(q.scopes) && q.now - w.updatedAt <= ttl.waiter
  }

  /** The ticket the request has, or gets now. */
  ghost predicate HasTicket(r: Registry, q: Request, ttl: Ttl, ticket: nat) {
    if exists w :: w in r.waiters && OwnPlace(w, q, ttl)
    then exists w :: w in r.waiters && OwnPlace(w, q, ttl) && w.ticket == ticket
    else ticket == r.nextTicket
  }

  /** An unexpired lease of somebody else guards a requested file. */
  ghost predicate Bars(l: Lease, q: Request) {
    l.owner != q.owner && l.expiresAt > q.now && Meets(q.scopes, l.scopes)
  }

  /** Somebody else asked for a requested file before, and is still asking. */
  ghost predicate Precedes(w: Waiter, q: Request, ttl: Ttl, ticket: nat) {
    w.owner != q.owner && q.now - w.updatedAt <= ttl.waiter && w.ticket < ticket && Meets(q.scopes, w.scopes)
  }

  ghost predicate Barred(r: Registry, q: Request, ttl: Ttl, ticket: nat) {
    (exists l :: l in r.leases && Bars(l, q)) || (exists w :: w in r.waiters && Precedes(w, q, ttl, ticket))
  }

  lemma {:induction false} ReusableFound(leases: seq<Lease>, live: seq<Lease>, q: Request)
    requires forall l :: l in live <==> l in leases && l.expiresAt > q.now
    ensures FindLease(live, q.owner, q.scopes) < |live| <==> exists l :: l in leases && Reusable(l, q)
  {
    forall l
      ensures l in live && AnswersRequest(l, q.owner, q.scopes) <==> l in leases && Reusable(l, q)
    {
      CoversMeans(l.scopes, q.scopes);
    }
    hide AnswersRequest, Reusable;
    var i := FindLease(live, q.owner, q.scopes);
    if i < |live| {
      assert live[i] in live;
    } else {
      forall l | l in live
        ensures !AnswersRequest(l, q.owner, q.scopes)
      {
        var j :| 0 <= j < |live| && live[j] == l;
      }
    }
  }

  lemma {:induction false} OwnPlaceFound(r: Registry, p: Registry, q: Request, ttl: Ttl)
    requires Inv(p) && p == Prune(r, q.now, ttl)
    ensures var (queued, i) := Enqueue(p, q); HasTicket(r, q, ttl, queued.waiters[i].ticket)
    ensures Enqueue(p, q).1 < |p.waiters| <==> exists w :: w in r.waiters && OwnPlace(w, q, ttl)
  {
    LiveExact(r, q.now, ttl);
    hide Prune, Inv, Fingerprint;
    var fp := Fingerprint(q.scopes);
    var i := FindWaiter(p.waiters, q.owner, fp);
    if i < |p.waiters| {
      var w := p.waiters[i];
      assert w in p.waiters;
      assert w in r.waiters && OwnPlace(w, q, ttl);
    } else {
      forall w | w in p.waiters
        ensures !IsRequest(w, q.owner, fp)
      {
        var j :| 0 <= j < |p.waiters| && p.waiters[j] == w;
      }
    }
  }

  lemma {:induction false} BarsFound(r: Registry, p: Registry, q: Request, ttl: Ttl)
    requires p == Prune(r, q.now, ttl)
    ensures forall l :: l in ConflictingLeases(p.leases, q.owner, q.scopes) <==> l in r.leases && Bars(l, q)
  {
    LiveExact(r, q.now, ttl);
    hide Prune;
    forall l
      ensures l in ConflictingLeases(p.leases, q.owner, q.scopes) <==> l in r.leases && Bars(l, q)
    {
      OverlapMeets(q.scopes, l.scopes);
    }
  }

  lemma {:induction false} PrecedesFound(r: Registry, p: Registry, q: Request, ttl: Ttl, ticket: nat)
    requires p == Prune(r, q.now, ttl) && ticket == Enqueue(p, q).0.waiters[Enqueue(p, q).1].ticket
    ensures forall w :: w in EarlierWaiters(Enqueue(p, q).0.waiters, q.owner, q.scopes, ticket)
                   <==> w in r.waiters && Precedes(w, q, ttl, ticket)
  {
    LiveExact(r, q.now, ttl);
    hide Prune, Fingerprint;
    var queued := Enqueue(p, q).0;
    forall w
      ensures w in EarlierWaiters(queued.waiters, q.owner, q.scopes, ticket) <==> w in r.waiters && Precedes(w, q, ttl, ticket)
    {
      OverlapMeets(q.scopes, w.scopes);
      if w.owner != q.owner {
        OthersKept(p, q, w);
      }
    }
  }

  /** Joining the queue touches the request's own entry only. */
  lemma {:induction false} OthersKept(p: Registry, q: Request, w: Waiter)
    requires w.owner != q.owner
    ensures w in Enqueue(p, q).0.waiters <==> w in p.waiters
  {
    var i := FindWaiter(p.waiters, q.owner, Fingerprint(q.scopes));
    var queued := Enqueue(p, q).0;
    hide Fingerprint;
    if w in queued.waiters {
      var k :| 0 <= k < |queued.waiters| && queued.waiters[k] == w;
      assert k != i;
      assert p.waiters[k] == w;
    }
    if w in p.waiters {
      var k :| 0 <= k < |p.waiters| && p.waiters[k] == w;
      assert k != i;
      assert queued.waiters[k] == w;
    }
  }

  /** Which answer an acquire gives. Expired leases and waiters that are out of date
      count for nothing: the request reuses an unexpired lease of its owner, or waits
      behind an unexpired lease or an earlier waiter of somebody else, or is granted. */
  lemma {:induction false} AcquireExact(r: Registry, q: Request, ttl: Ttl)
    requires Inv(r)
    ensures q.scopes == [] ==> AcquireStep(r, q, ttl) == (r, NothingRequested)
    ensures q.scopes != [] ==>
              var outcome := AcquireStep(r, q, ttl).1;
              && (outcome.Reused? <==> exists l :: l in r.leases && Reusable(l, q))
              && exists ticket :: && HasTicket(r, q, ttl, ticket)
                                  && (outcome.Granted? <==> !outcome.Reused? && !Barred(r, q, ttl, ticket))
                                  && (outcome.Queued? <==> !outcome.Reused? && Barred(r, q, ttl, ticket))
  {
    if q.scopes != [] {
      var p := Prune(r, q.now, ttl);
      PruneInv(r, q.now, ttl);
      LiveExact(r, q.now, ttl);
      ReusableFound(r.leases, p.leases, q);
      var (queued, i) := Enqueue(p, q);
      var ticket := queued.waiters[i].ticket;
      hide Prune, Inv, Reusable, HasTicket, Enqueue, Grant, ConflictingLeases, EarlierWaiters, Bars, Precedes;
      OwnPlaceFound(r, p, q, ttl);
      BarsFound(r, p, q, ttl);
      PrecedesFound(r, p, q, ttl, ticket);
      QueueIsLeases(p, q);
      BarredBy(r, q, ttl, ticket, ConflictingLeases(p.leases, q.owner, q.scopes),
               EarlierWaiters(queued.waiters, q.owner, q.scopes, ticket));
    }
  }

  lemma {:induction false} QueueIsLeases(p: Registry, q: Request)
    ensures Enqueue(p, q).0.leases == p.leases && Enqueue(p, q).0.nextToken == p.nextToken
  {
  }

  lemma {:induction false} BarredBy(r: Registry, q: Request, ttl: Ttl, ticket: nat, leases: seq<Lease>, waiters: seq<Waiter>)
    requires forall l :: l in leases <==> l in r.leases && Bars(l, q)
    requires forall w :: w in waiters <==> w in r.waiters && Precedes(w, q, ttl, ticket)
    ensures Barred(r, q, ttl, ticket) <==> leases != [] || waiters != []
  {
    hide Bars, Precedes;
    if leases != [] {
      assert leases[0] in leases;
    }
    if waiters != [] {
      assert waiters[0] in waiters;
    }
  }

  /** A reused claim is that of an unexpired lease of the owner, which drops nothing but
      what is out of date. */
  lemma {:induction false} ReuseEffect(r: Registry, q: Request, ttl: Ttl)
    requires AcquireStep(r, q, ttl).1.Reused?
    ensures var (r', outcome) := AcquireStep(r, q, ttl);
            && (exists l :: l in r.leases && Reusable(l, q) && SaysClaim(outcome.claim, l))
            && r' == r.(leases := r'.leases, waiters := r'.waiters)
            && (forall l :: l in r'.leases <==> l in r.leases && l.expiresAt > q.now)
            && (forall w :: w in r'.waiters <==> w in r.waiters && q.now - w.updatedAt <= ttl.waiter)
  {
    LiveExact(r, q.now, ttl);
    var p := Prune(r, q.now, ttl);
    var i := FindLease(p.leases, q.owner, q.scopes);
    assert i < |p.leases|;
    var l := p.leases[i];
    assert l in p.leases;
    CoversMeans(l.scopes, q.scopes);
    ClaimSays(l);
    hide Contend, Prune, SaysClaim, ReadScopes, CoversAll, Guards, ClaimOf;
    assert Reusable(l, q);
  }

  /** The claim carries the id, owner, token, term and files of the lease. */
  ghost predicate SaysClaim(c: Claim, l: Lease) {
    && c.id == l.id && c.owner == l.owner && c.token == l.token && c.expiresAt == l.expiresAt
    && c.ownerLabel == (if l.ownerLabel == "" then l.owner else l.ownerLabel)
    && forall file :: ProtectsAny(c.scopes, file) <==> Guards(l.scopes, file)
  }

  lemma {:induction false} ClaimSays(l: Lease)
    ensures SaysClaim(ClaimOf(l), l)
  {
    forall file
      ensures ProtectsAny(ClaimOf(l).scopes, file) <==> Guards(l.scopes, file)
    {
      StoredGuards(l.scopes, file);
    }
    hide Guards, ReadScopes;
  }

  /** A granted request leaves the queue and gets a lease on what it asked for, under the
      next token and for one term. */
  lemma {:induction false} GrantEffect(r: Registry, q: Request, ttl: Ttl)
    requires Inv(r) && AcquireStep(r, q, ttl).1.Granted?
    ensures var (r', outcome) := AcquireStep(r, q, ttl);
            var title := if q.ownerLabel == "" then q.owner else q.ownerLabel;
            var lease := Lease(q.leaseId, q.owner, title, q.scopes, r.nextToken, q.now + ttl.lease);
            && outcome.claim == Claim(q.leaseId, q.owner, title, q.scopes, r.nextToken, q.now + ttl.lease)
            && (forall l :: l in r'.leases <==> l == lease || (l in r.leases && l.expiresAt > q.now))
            && (forall w :: w in r'.waiters
                  <==> w in r.waiters && q.now - w.updatedAt <= ttl.waiter && !OwnPlace(w, q, ttl))
            && r'.nextToken == r.nextToken + 1
            && r'.nextTicket == r.nextTicket + if exists w :: w in r.waiters && OwnPlace(w, q, ttl) then 0 else 1
  {
    hide *;
    var p, queued, i := Contended(r, q, ttl);
    GrantIs(r, q, ttl, p, queued, i);
    TicketGiven(p, q);
    LeavesQueue(p, queued, i, q);
    GrantedMembers(r, q, ttl, p, queued, i);
  }

  /** The registry as it is pruned and joined before the decision. */
  lemma {:induction false} Contended(r: Registry, q: Request, ttl: Ttl) returns (p: Registry, queued: Registry, i: nat)
    requires Inv(r)
    ensures p == Prune(r, q.now, ttl) && (queued, i) == Enqueue(p, q) && i < |queued.waiters|
    ensures Inv(p) && Inv(queued) && queued.leases == p.leases && queued.nextToken == p.nextToken == r.nextToken
    ensures p.nextTicket == r.nextTicket
    ensures forall l :: l in p.leases <==> l in r.leases && l.expiresAt > q.now
    ensures forall w :: w in p.waiters <==> w in r.waiters && q.now - w.updatedAt <= ttl.waiter
    ensures i < |p.waiters| <==> exists w :: w in r.waiters && OwnPlace(w, q, ttl)
    ensures HasTicket(r, q, ttl, queued.waiters[i].ticket)
  {
    p := Prune(r, q.now, ttl);
    var joined := Enqueue(p, q);
    queued, i := joined.0, joined.1;
    hide *;
    PruneInv(r, q.now, ttl);
    LiveExact(r, q.now, ttl);
    OwnPlaceFound(r, p, q, ttl);
    EnqueueInv(p, q);
  }

  lemma {:induction false} GrantIs(r: Registry, q: Request, ttl: Ttl, p: Registry, queued: Registry, i: nat)
    requires p == Prune(r, q.now, ttl) && (queued, i) == Enqueue(p, q) && AcquireStep(r, q, ttl).1.Granted?
    ensures i < |queued.waiters|
    ensures AcquireStep(r, q, ttl) == (Grant(queued, q, i, ttl).0, Granted(Grant(queued, q, i, ttl).1))
  {
    hide Prune, Enqueue, Grant, FindLease, ConflictingLeases, EarlierWaiters;
  }

  lemma {:induction false} GrantedMembers(r: Registry, q: Request, ttl: Ttl, p: Registry, queued: Registry, i: nat)
    requires i < |queued.waiters| && queued.leases == p.leases && queued.nextToken == r.nextToken
    requires forall l :: l in p.leases <==> l in r.leases && l.expiresAt > q.now
    requires forall w :: w in p.waiters <==> w in r.waiters && q.now - w.updatedAt <= ttl.waiter
    requires forall w :: w in queued.waiters[..i] + queued.waiters[i + 1..]
                    <==> w in p.waiters && !(w.owner == q.owner && w.fingerprint == Fingerprint(q.scopes))
    ensures var (r', claim) := Grant(queued, q, i, ttl);
            var title := if q.ownerLabel == "" then q.owner else q.ownerLabel;
            var lease := Lease(q.leaseId, q.owner, title, q.scopes, r.nextToken, q.now + ttl.lease);
            && claim == Claim(q.leaseId, q.owner, title, q.scopes, r.nextToken, q.now + ttl.lease)
            && (forall l :: l in r'.leases <==> l == lease || (l in r.leases && l.expiresAt > q.now))
            && (forall w :: w in r'.waiters
                  <==> w in r.waiters && q.now - w.updatedAt <= ttl.waiter && !OwnPlace(w, q, ttl))
            && r'.nextToken == r.nextToken + 1 && r'.nextTicket == queued.nextTicket
  {
    hide Fingerprint;
  }

  lemma {:induction false} TicketGiven(p: Registry, q: Request)
    ensures Enqueue(p, q).0.nextTicket == p.nextTicket + if Enqueue(p, q).1 < |p.waiters| then 0 else 1
  {
  }

  /** Joining the queue changes one entry, or adds one at the end. */
  lemma {:induction false} JoinedAt(p: Registry, q: Request)
    ensures var (queued, i) := Enqueue(p, q);
            && i <= |p.waiters| && |queued.waiters| == (if i == |p.waiters| then i + 1 else |p.waiters|)
            && IsRequest(queued.waiters[i], q.owner, Fingerprint(q.scopes))
            && (forall k :: 0 <= k < |p.waiters| && k != i ==> queued.waiters[k] == p.waiters[k])
            && (i < |p.waiters| ==> IsRequest(p.waiters[i], q.owner, Fingerprint(q.scopes)))
  {
    hide Fingerprint;
  }

  lemma {:induction false} LeavesQueue(p: Registry, queued: Registry, i: nat, q: Request)
    requires Inv(queued) && (queued, i) == Enqueue(p, q)
    ensures i < |queued.waiters|
    ensures forall w :: w in queued.waiters[..i] + queued.waiters[i + 1..]
                   <==> w in p.waiters && !(w.owner == q.owner && w.fingerprint == Fingerprint(q.scopes))
  {
    JoinedAt(p, q);
    OnlyRequest(queued, i, q.owner, Fingerprint(q.scopes));
    hide *;
    WithoutPlace(p.waiters, queued.waiters, i, q.owner, Fingerprint(q.scopes));
  }

  lemma {:induction false} OnlyRequest(r: Registry, i: nat, owner: string, fp: seq<(string, bool)>)
    requires Inv(r) && i < |r.waiters| && IsRequest(r.waiters[i], owner, fp)
    ensures forall k :: 0 <= k < |r.waiters| && k != i ==> !IsRequest(r.waiters[k], owner, fp)
  {
    hide LeasesOk;
    forall k | 0 <= k < |r.waiters| && k != i
      ensures !IsRequest(r.waiters[k], owner, fp)
    {
      assert k < i ==> OtherRequest(r.waiters[k], r.waiters[i]);
      assert i < k ==> OtherRequest(r.waiters[i], r.waiters[k]);
    }
  }

  lemma {:induction false} WithoutPlace(before: seq<Waiter>, after: seq<Waiter>, i: nat, owner: string, fp: seq<(string, bool)>)
    requires i <= |before| && |after| == (if i == |before| then i + 1 else |before|)
    requires forall k :: 0 <= k < |before| && k != i ==> after[k] == before[k]
    requires i < |before| ==> IsRequest(before[i], owner, fp)
    requires forall k :: 0 <= k < |after| && k != i ==> !IsRequest(after[k], owner, fp)
    ensures forall w :: w in after[..i] + after[i + 1..] <==> w in before && !(w.owner == owner && w.fingerprint == fp)
  {
    var rest := after[..i] + after[i + 1..];
    forall w
      ensures w in rest <==> w in before && !IsRequest(w, owner, fp)
    {
      if w in rest {
        var k :| 0 <= k < |rest| && rest[k] == w;
        assert before[if k < i then k else k + 1] == w;
      }
      if w in before && !IsRequest(w, owner, fp) {
        var k :| 0 <= k < |before| && before[k] == w;
        assert rest[if k < i then k else k - 1] == w;
      }
    }
  }

  /** r' is r with the request waiting under this ticket, which it was given now or had. */
  ghost predicate QueuedUnder(r: Registry, q: Request, ttl: Ttl, r': Registry, ticket: nat) {
    && HasTicket(r, q, ttl, ticket) && r'.nextToken == r.nextToken
    && r'.nextTicket == r.nextTicket + (if ticket == r.nextTicket then 1 else 0)
    && (forall l :: l in r'.leases <==> l in r.leases && l.expiresAt > q.now)
    && (exists w :: && w in r'.waiters && w.owner == q.owner && w.fingerprint == Fingerprint(q.scopes)
                    && w.ticket == ticket && w.updatedAt == q.now)
    && (forall w: Waiter :: w.ticket != ticket ==>
          (w in r'.waiters <==> w in r.waiters && q.now - w.updatedAt <= ttl.waiter))
  }

  /** A request that must wait keeps its ticket or takes the next one, is up to date, and is
      told of exactly the leases and waiters it waits behind and of its place. */
  lemma {:induction false} QueueEffect(r: Registry, q: Request, ttl: Ttl)
    requires Inv(r) && AcquireStep(r, q, ttl).1.Queued?
    ensures var (r', outcome) := AcquireStep(r, q, ttl);
            exists ticket ::
              && QueuedUnder(r, q, ttl, r', ticket)
              && Told(r, q, ttl, ticket, outcome.conflicts)
              && outcome.position == 1 + |TicketsBefore(r, q.now, ttl, ticket)|
  {
    hide *;
    var p, queued, i := Contended(r, q, ttl);
    var ticket := queued.waiters[i].ticket;
    QueueIs(r, q, ttl, p, queued, i);
    BarsFound(r, p, q, ttl);
    PrecedesFound(r, p, q, ttl, ticket);
    Tells(r, q, ttl, ticket, ConflictingLeases(p.leases, q.owner, q.scopes),
          EarlierWaiters(queued.waiters, q.owner, q.scopes, ticket));
    OthersInPlace(p, queued, i, q);
    SortedParts(queued);
    TicketsCounted(queued.waiters, ticket);
    SameTickets(r, p, queued, q, ttl, ticket);
    OwnTicket(p, q);
    TicketGiven(p, q);
    JoinedAt(p, q);
    UnderTicket(r, q, ttl, p, queued, i);
  }

  lemma {:induction false} QueueIs(r: Registry, q: Request, ttl: Ttl, p: Registry, queued: Registry, i: nat)
    requires p == Prune(r, q.now, ttl) && (queued, i) == Enqueue(p, q) && AcquireStep(r, q, ttl).1.Queued?
    ensures i < |queued.waiters|
    ensures var ticket := queued.waiters[i].ticket;
            AcquireStep(r, q, ttl)
            == (queued, Queued(Claims(ConflictingLeases(queued.leases, q.owner, q.scopes))
                               + WaiterClaims(EarlierWaiters(queued.waiters, q.owner, q.scopes, ticket)),
                               QueuePosition(queued.waiters, ticket)))
  {
    hide Prune, Enqueue, Grant, FindLease, ConflictingLeases, EarlierWaiters, Claims, WaiterClaims, QueuePosition;
  }

  lemma {:induction false} UnderTicket(r: Registry, q: Request, ttl: Ttl, p: Registry, queued: Registry, i: nat)
    requires i < |queued.waiters| && queued.leases == p.leases && queued.nextToken == r.nextToken
    requires forall l :: l in p.leases <==> l in r.leases && l.expiresAt > q.now
    requires forall w :: w in p.waiters <==> w in r.waiters && q.now - w.updatedAt <= ttl.waiter
    requires HasTicket(r, q, ttl, queued.waiters[i].ticket)
    requires queued.nextTicket == r.nextTicket + if i < |p.waiters| then 0 else 1
    requires var w := queued.waiters[i];
             && w in queued.waiters && w.owner == q.owner && w.fingerprint == Fingerprint(q.scopes) && w.updatedAt == q.now
             && (w.ticket == r.nextTicket <==> i == |p.waiters|)
    requires i <= |p.waiters|
    requires forall w: Waiter :: w.ticket != queued.waiters[i].ticket ==> (w in queued.waiters <==> w in p.waiters)
    ensures QueuedUnder(r, q, ttl, queued, queued.waiters[i].ticket)
  {
    hide HasTicket, Fingerprint;
  }

  ghost predicate Told(r: Registry, q: Request, ttl: Ttl, ticket: nat, conflicts: seq<Claim>) {
    && (forall c :: c in conflicts ==>
          || (exists l :: l in r.leases && Bars(l, q) && SaysClaim(c, l))
          || (exists w :: w in r.waiters && Precedes(w, q, ttl, ticket) && SaysWaiter(c, w)))
    && (forall l :: l in r.leases && Bars(l, q) ==> exists c :: c in conflicts && SaysClaim(c, l))
    && (forall w :: w in r.waiters && Precedes(w, q, ttl, ticket) ==> exists c :: c in conflicts && SaysWaiter(c, w))
  }

  /** The claim names the waiter, its ticket and its files, and no token. */
  ghost predicate SaysWaiter(c: Claim, w: Waiter) {
    && c.id == "waiter_" + Decimal(w.ticket) && c.owner == w.owner && c.token == 0 && c.expiresAt == 0
    && c.ownerLabel == (if w.ownerLabel == "" then w.owner else w.ownerLabel)
    && forall file :: ProtectsAny(c.scopes, file) <==> Guards(w.scopes, file)
  }

  lemma {:induction false} WaiterSays(w: Waiter)
    ensures SaysWaiter(ClaimOfWaiter(w), w)
  {
    forall file
      ensures ProtectsAny(ClaimOfWaiter(w).scopes, file) <==> Guards(w.scopes, file)
    {
      StoredGuards(w.scopes, file);
    }
    hide Guards, ReadScopes;
  }

  lemma {:induction false} Tells(r: Registry, q: Request, ttl: Ttl, ticket: nat, leases: seq<Lease>, waiters: seq<Waiter>)
    requires forall l :: l in leases <==> l in r.leases && Bars(l, q)
    requires forall w :: w in waiters <==> w in r.waiters && Precedes(w, q, ttl, ticket)
    ensures Told(r, q, ttl, ticket, Claims(leases) + WaiterClaims(waiters))
  {
    hide Bars, Precedes, SaysClaim, SaysWaiter, ClaimOf, ClaimOfWaiter;
    var conflicts := Claims(leases) + WaiterClaims(waiters);
    forall i | 0 <= i < |leases|
      ensures conflicts[i] == ClaimOf(leases[i]) && SaysClaim(conflicts[i], leases[i]) && leases[i] in leases
    {
      ClaimSays(leases[i]);
    }
    forall i | 0 <= i < |waiters|
      ensures conflicts[|leases| + i] == ClaimOfWaiter(waiters[i]) && SaysWaiter(conflicts[|leases| + i], waiters[i])
      ensures waiters[i] in waiters
    {
      WaiterSays(waiters[i]);
    }
    forall c | c in conflicts
      ensures || (exists l :: l in r.leases && Bars(l, q) && SaysClaim(c, l))
              || (exists w :: w in r.waiters && Precedes(w, q, ttl, ticket) && SaysWaiter(c, w))
    {
      var i :| 0 <= i < |conflicts| && conflicts[i] == c;
      if i < |leases| {
        assert SaysClaim(c, leases[i]);
      } else {
        assert SaysWaiter(c, waiters[i - |leases|]);
      }
    }
    forall l | l in r.leases && Bars(l, q)
      ensures exists c :: c in conflicts && SaysClaim(c, l)
    {
      var i :| 0 <= i < |leases| && leases[i] == l;
      assert conflicts[i] in conflicts;
    }
    forall w | w in r.waiters && Precedes(w, q, ttl, ticket)
      ensures exists c :: c in conflicts && SaysWaiter(c, w)
    {
      var i :| 0 <= i < |waiters| && waiters[i] == w;
      assert conflicts[|leases| + i] in conflicts;
    }
  }

  lemma {:induction false} OthersInPlace(p: Registry, queued: Registry, i: nat, q: Request)
    requires Inv(queued) && Inv(p) && (queued, i) == Enqueue(p, q)
    ensures i < |queued.waiters|
    ensures forall w: Waiter :: w.ticket != queued.waiters[i].ticket ==> (w in queued.waiters <==> w in p.waiters)
  {
    hide Fingerprint, LeasesOk;
    forall w: Waiter | w.ticket != queued.waiters[i].ticket
      ensures w in queued.waiters <==> w in p.waiters
    {
      if w in queued.waiters {
        var k :| 0 <= k < |queued.waiters| && queued.waiters[k] == w;
        assert p.waiters[k] == w;
      }
      if w in p.waiters {
        var k :| 0 <= k < |p.waiters| && p.waiters[k] == w;
        assert queued.waiters[k] == w;
      }
    }
  }

  lemma {:induction false} OwnTicket(p: Registry, q: Request)
    requires Inv(p)
    ensures var (queued, i) := Enqueue(p, q);
            var w := queued.waiters[i];
            && w in queued.waiters && w.owner == q.owner && w.fingerprint == Fingerprint(q.scopes) && w.updatedAt == q.now
            && (w.ticket == p.nextTicket <==> i == |p.waiters|)
  {
    hide Fingerprint, LeasesOk;
    var i := FindWaiter(p.waiters, q.owner, Fingerprint(q.scopes));
    if i < |p.waiters| {
      assert p.waiters[i] in p.waiters;
    }
  }

  /** The tickets in front of this one of requests that are not out of date. */
  ghost function TicketsBefore(r: Registry, now: int, ttl: Ttl, ticket: nat): set<nat> {
    set w | w in r.waiters && now - w.updatedAt <= ttl.waiter && w.ticket < ticket :: w.ticket
  }

  ghost function Tickets(waiters: seq<Waiter>): set<nat> {
    set w | w in waiters :: w.ticket
  }

  lemma {:induction false} OneMoreTicket(w: Waiter, rest: seq<Waiter>)
    ensures Tickets([w] + rest) == {w.ticket} + Tickets(rest)
  {
    forall k
      ensures k in Tickets([w] + rest) <==> k in {w.ticket} + Tickets(rest)
    {
      if x :| x in rest && x.ticket == k {
        assert x in [w] + rest;
      }
      assert w in [w] + rest;
    }
  }

  lemma {:induction false} DistinctTickets(waiters: seq<Waiter>)
    requires SortedBy(waiters, TicketBefore)
    ensures |Tickets(waiters)| == |waiters|
  {
    if waiters != [] {
      var w, rest := waiters[0], waiters[1..];
      TailSorted(waiters, TicketBefore);
      assert w.ticket !in Tickets(rest) by {
        assert forall x :: x in rest ==> TicketBefore(w, x);
      }
      DistinctTickets(rest);
      OneMoreTicket(w, rest);
      hide *;
      assert waiters == [w] + rest;
    }
  }

  lemma {:induction false} TicketsCounted(waiters: seq<Waiter>, ticket: nat)
    requires SortedBy(waiters, TicketBefore)
    ensures QueuePosition(waiters, ticket) == 1 + |set w | w in waiters && w.ticket < ticket :: w.ticket|
  {
    var front := Filter(waiters, (w: Waiter) => w.ticket < ticket);
    FilterSorted(waiters, (w: Waiter) => w.ticket < ticket, TicketBefore);
    DistinctTickets(front);
    assert (set w | w in waiters && w.ticket < ticket :: w.ticket) == Tickets(front);
  }

  lemma {:induction false} SameTickets(r: Registry, p: Registry, queued: Registry, q: Request, ttl: Ttl, ticket: nat)
    requires forall w :: w in p.waiters <==> w in r.waiters && q.now - w.updatedAt <= ttl.waiter
    requires forall w: Waiter :: w.ticket != ticket ==> (w in queued.waiters <==> w in p.waiters)
    ensures (set w | w in queued.waiters && w.ticket < ticket :: w.ticket) == TicketsBefore(r, q.now, ttl, ticket)
  {
    forall k
      ensures k in (set w | w in queued.waiters && w.ticket < ticket :: w.ticket) <==> k in TicketsBefore(r, q.now, ttl, ticket)
    {
      if k in TicketsBefore(r, q.now, ttl, ticket) {
        var w :| w in r.waiters && q.now - w.updatedAt <= ttl.waiter && w.ticket < ticket && w.ticket == k;
        assert w in queued.waiters;
      }
      if k in (set w | w in queued.waiters && w.ticket < ticket :: w.ticket) {
        var w :| w in queued.waiters && w.ticket < ticket && w.ticket == k;
        assert w in p.waiters;
      }
    }
  }

  /*--------------------------------- claim tables ------------------------------*/

  /** A claim of somebody else in the table protects a requested file. */
  ghost predicate Clashes(c: Claim, q: Request) {
    c.owner != q.owner && exists file :: ProtectsAny(q.scopes, file) && ProtectsAny(c.scopes, file)
  }

  lemma {:induction false} ClashesFound(table: seq<Claim>, q: Request)
    ensures forall c :: c in LocalConflicts(table, q.owner, Normalize(q.scopes)) <==> c in table && Clashes(c, q)
  {
    forall c: Claim
      ensures ScopeSetsOverlap(Normalize(q.scopes), c.scopes)
         <==> exists file :: ProtectsAny(q.scopes, file) && ProtectsAny(c.scopes, file)
    {
      NormalizeMeaning(q.scopes);
      SetsOverlapIffCommonFile(Normalize(q.scopes), c.scopes);
    }
    hide Normalize, ScopeSetsOverlap, ProtectsAny;
  }

  /** Which answer a manager gives: nothing when nothing is asked or a claim of the owner
      holds it, a conflict with exactly the clashing claims of its own process, or else
      what the store answers for the normal form of the request. */
  lemma {:induction false} ManagerExact(table: seq<Claim>, r: Registry, q: Request, ttl: Ttl)
    ensures var (t, r', outcome) := ManagerAcquire(table, r, q, ttl);
            var held := q.scopes == [] || exists c :: c in table && Holds(c, q.owner, q.scopes);
            var clash := exists c :: c in table && Clashes(c, q);
            && (outcome.NothingNeeded? <==> held)
            && (held ==> t == table && r' == r)
            && (!held && clash ==>
                  && t == table && r' == r && outcome.WriterConflict?
                  && forall c :: c in outcome.conflicts <==> c in table && Clashes(c, q))
            && (!held && !clash ==> AsStored(table, r, q, ttl, t, r', outcome))
  {
    NothingNormal(q.scopes);
    FoundIsHeld(table, q);
    ClashesFound(table, q);
    var local := LocalConflicts(table, q.owner, Normalize(q.scopes));
    if local != [] {
      assert local[0] in local;
    }
    if Normalize(q.scopes) != [] && FindClaim(table, q.owner, Normalize(q.scopes)) == |table| && local == [] {
      AnsweredByStore(table, r, q, ttl);
    }
    hide Clashes, Holds, AsStored, Normalize, FindClaim, LocalConflicts, AcquireStep, PutClaim;
  }

  lemma {:induction false} AnsweredByStore(table: seq<Claim>, r: Registry, q: Request, ttl: Ttl)
    requires Normalize(q.scopes) != [] && FindClaim(table, q.owner, Normalize(q.scopes)) == |table|
    requires LocalConflicts(table, q.owner, Normalize(q.scopes)) == []
    ensures var (t, r', outcome) := ManagerAcquire(table, r, q, ttl); AsStored(table, r, q, ttl, t, r', outcome)
  {
    var (reg, answer) := AcquireStep(r, DurableRequest(q), ttl);
    if answer.Granted? || answer.Reused? {
      EntersTable(table, answer.claim);
    }
    SomethingAsked(r, DurableRequest(q), ttl);
    hide Normalize, FindClaim, LocalConflicts, AcquireStep, PutClaim, Entered;
  }

  lemma {:induction false} SomethingAsked(r: Registry, q: Request, ttl: Ttl)
    ensures AcquireStep(r, q, ttl).1.NothingRequested? <==> q.scopes == []
  {
    hide Prune, FindLease, Enqueue, Grant, ConflictingLeases, EarlierWaiters;
  }

  lemma {:induction false} FoundIsHeld(table: seq<Claim>, q: Request)
    ensures FindClaim(table, q.owner, Normalize(q.scopes)) < |table| <==> exists c :: c in table && Holds(c, q.owner, q.scopes)
  {
    hide Normalize, ClaimAnswers, Holds;
    var i := FindClaim(table, q.owner, Normalize(q.scopes));
    if i < |table| {
      HoldsAnswers(table[i], q.owner, q.scopes);
      assert table[i] in table;
    }
    if c :| c in table && Holds(c, q.owner, q.scopes) {
      HoldsAnswers(c, q.owner, q.scopes);
      var k :| 0 <= k < |table| && table[k] == c;
    }
  }

  /** The store's answer to the normal form, with the claim it hands out in the table. */
  ghost predicate AsStored(table: seq<Claim>, r: Registry, q: Request, ttl: Ttl, t: seq<Claim>, r': Registry,
    outcome: ManagerOutcome)
  {
    var title := if q.ownerLabel == "" then q.owner else q.ownerLabel;
    var (reg, answer) := AcquireStep(r, Request(q.owner, title, Normalize(q.scopes), q.now, q.leaseId), ttl);
    && r' == reg
    && (answer.Granted? || answer.Reused? ==> outcome == Acquired(answer.claim) && Entered(table, t, answer.claim))
    && (answer.Queued? ==> outcome == WriterConflict(answer.conflicts) && t == table)
    && !answer.NothingRequested?
  }

  /** The claim is in the table, in the place of any earlier one of that id. */
  ghost predicate Entered(table: seq<Claim>, t: seq<Claim>, claim: Claim) {
    && claim in t
    && (forall c: Claim :: c.id != claim.id ==> (c in t <==> c in table))
    && (SortedBy(table, OtherClaim) ==> SortedBy(t, OtherClaim))
  }

  predicate OtherClaim(a: Claim, b: Claim) { a.id != b.id }

  lemma {:induction false} EntersTable(table: seq<Claim>, claim: Claim)
    ensures Entered(table, PutClaim(table, claim), claim)
  {
    if table != [] {
      var head, rest := table[0], table[1..];
      assert table == [head] + rest;
      if head.id == claim.id {
        assert SortedBy(table, OtherClaim) ==> SortedBy([claim] + rest, OtherClaim);
      } else {
        EntersTable(rest, claim);
        var t := PutClaim(rest, claim);
        if SortedBy(table, OtherClaim) {
          TailSorted(table, OtherClaim);
          forall c | c in t
            ensures OtherClaim(head, c)
          {
            if c in rest {
              var k :| 0 <= k < |rest| && rest[k] == c;
              assert OtherClaim(table[0], table[k + 1]);
            }
          }
          TailSorted([head] + t, OtherClaim);
        }
      }
    }
  }

  /** A release takes the claim out of the table of that process and its lease out of the
      registry; a crash forgets the table of that process and keeps every lease. */
  lemma {:induction false} ReleaseActExact(w: World, pid: nat, claim: Claim, ttl: Ttl)
    requires Inv(w.reg)
    ensures var w' := Act(w, DoRelease(pid, claim), ttl);
            && (forall l :: l in w'.reg.leases <==> l in w.reg.leases && l.id != claim.id)
            && w'.reg.waiters == w.reg.waiters
            && (forall c :: c in w'.tables[pid] <==> c in Table(w, pid) && c.id != claim.id)
            && w'.tables - {pid} == w.tables - {pid} && w'.issued == w.issued
    ensures Act(w, Crash(pid), ttl) == World(w.reg, w.tables[pid := []], w.issued)
  {
    ReleaseExact(w.reg, claim.id);
    hide ReleaseStep, Inv;
  }

  /** The number a string of digits stands for. */
  function Reading(digits: string): nat {
    if digits == [] then 0
    else
      var d := digits[|digits| - 1];
      10 * Reading(digits[..|digits| - 1]) + if '0' <= d <= '9' then (d as int) - ('0' as int) else 0
  }

  lemma {:induction false} DigitReads(d: nat)
    requires d < 10
    ensures var c := "0123456789"[d]; '0' <= c <= '9' && (c as int) - ('0' as int) == d && (c == '0' <==> d == 0)
  {
    assert d == 0 || d == 1 || d == 2 || d == 3 || d == 4 || d == 5 || d == 6 || d == 7 || d == 8 || d == 9;
  }

  lemma {:induction false} OneMoreDigit(front: string, d: nat)
    requires d < 10
    ensures Reading(front + ["0123456789"[d]]) == 10 * Reading(front) + d
  {
    DigitReads(d);
    var digits := front + ["0123456789"[d]];
    assert digits[..|digits| - 1] == front;
  }

  /** Numbers are written in decimal, without leading zeros. */
  lemma {:induction false} DecimalReads(n: nat)
    ensures Reading(Decimal(n)) == n
    ensures forall i :: 0 <= i < |Decimal(n)| ==> '0' <= Decimal(n)[i] <= '9'
    ensures Decimal(n) != [] && (Decimal(n)[0] == '0' <==> n == 0)
  {
    DigitReads(n % 10);
    if n < 10 {
      assert Decimal(n) == [] + ["0123456789"[n]];
      OneMoreDigit([], n);
    } else {
      DecimalReads(n / 10);
      OneMoreDigit(Decimal(n / 10), n % 10);
      hide Reading;
      assert Decimal(n) == Decimal(n / 10) + ["0123456789"[n % 10]];
    }
  }
}
