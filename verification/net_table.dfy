/** Who owns each slot of the socket table, and what happened to the bytes and pbufs that
    arrived (port/net_shim.c). */
module NetTable {
  import opened Bytes
  import opened NetModel

  /** A slot in use belongs to the application, or to the accept queue of one listener. */
  datatype Owner = NoOne | App | Queue(listener: nat)

  /** What one slot saw: stream bytes received, handed out and credited through tcp_recved()
      since it was last set up; identities of all pbufs that ever arrived and were freed. */
  datatype Ledger = Ledger(
    received: seq<Octet>, handed: seq<Octet>, credited: nat, arrived: multiset<nat>, freed: multiset<nat>)

  ghost predicate SockOK(s: Sock) {
    && RingOK(s.udpq) && |s.udpq.slots| == UDP_RXQ_MAX
    && RingOK(s.acceptq) && |s.acceptq.slots| == ACCEPTQ_MAX
    && (if s.state == SkFree then s.chain == [] && s.udpq.count == 0 else ChainOK(s.chain, s.off))
    && (s.acceptq.count > 0 ==> s.state == SkListening)
    && (s.state == SkListening ==> s.pcb)
    && (s.stype == SockDgram ==> s.chain == [] && !s.eof && s.state in {SkFree, SkClosed, SkConnected})
    && (s.stype == SockStream ==> s.udpq.count == 0)
    // bytes arrive on established connections only
    && (s.state in {SkClosed, SkConnecting, SkListening} || (s.state == SkError && s.pcb) ==> s.chain == [] && !s.eof)
  }

  ghost predicate NoDup(q: seq<nat>) {
    forall j, k :: 0 <= j < k < |q| ==> q[j] != q[k]
  }

  /** The slots a listener holds for connections nobody accepted yet. */
  ghost function Waiting(s: Sock): seq<nat>
    requires SockOK(s)
  {
    Entries(s.acceptq)
  }

  ghost predicate SocksOK(socks: seq<Sock>) {
    |socks| == SOCK_MAX && forall i :: 0 <= i < SOCK_MAX ==> SockOK(socks[i])
  }

  /** The ring of listener l and the owner map agree. */
  ghost predicate RingOwned(socks: seq<Sock>, owner: seq<Owner>, l: nat)
    requires SocksOK(socks) && |owner| == SOCK_MAX && l < SOCK_MAX
  {
    && NoDup(Waiting(socks[l]))
    && forall k :: 0 <= k < |Waiting(socks[l])| ==>
         Waiting(socks[l])[k] < SOCK_MAX && owner[Waiting(socks[l])[k]] == Queue(l)
  }

  ghost predicate SlotOwned(socks: seq<Sock>, owner: seq<Owner>, i: nat)
    requires SocksOK(socks) && |owner| == SOCK_MAX && i < SOCK_MAX
  {
    && (owner[i] == NoOne <==> socks[i].state == SkFree)
    && (owner[i].Queue? ==>
          && owner[i].listener < SOCK_MAX
          && i in Waiting(socks[owner[i].listener])
          && socks[i].stype == SockStream && socks[i].state in {SkConnected, SkError})
  }

  ghost predicate TableOK(socks: seq<Sock>, owner: seq<Owner>) {
    && SocksOK(socks) && |owner| == SOCK_MAX
    && (forall l :: 0 <= l < SOCK_MAX ==> RingOwned(socks, owner, l))
    && (forall i :: 0 <= i < SOCK_MAX ==> SlotOwned(socks, owner, i))
  }

  /** A listener's ring holds distinct slots other than the listener's own. */
  lemma RingExcludes(socks: seq<Sock>, owner: seq<Owner>, l: nat, e: nat)
    requires TableOK(socks, owner) && l < SOCK_MAX && e in Waiting(socks[l])
    ensures e < SOCK_MAX && owner[e] == Queue(l) && e != l && owner[l] == App && socks[l].state == SkListening
    ensures socks[e].stype == SockStream && socks[e].state in {SkConnected, SkError} && socks[e].acceptq.count == 0
  {
    assert RingOwned(socks, owner, l);
    assert SlotOwned(socks, owner, e) && SlotOwned(socks, owner, l);
    assert SockOK(socks[l]) && SockOK(socks[e]);
  }

  /** Slot i is entry k of the ring of l. */
  ghost predicate InRing(socks: seq<Sock>, l: nat, k: int, i: nat)
    requires SocksOK(socks) && l < SOCK_MAX
  {
    0 <= k < |Waiting(socks[l])| && Waiting(socks[l])[k] == i
  }

  /** A partition: a slot in use is the application's or in exactly one place of one ring. */
  lemma OwnedOnce(socks: seq<Sock>, owner: seq<Owner>, i: nat)
    requires TableOK(socks, owner) && i < SOCK_MAX && socks[i].state != SkFree
    ensures owner[i] == App <==> forall l :: 0 <= l < SOCK_MAX ==> i !in Waiting(socks[l])
    ensures forall l, m, j, k ::
              0 <= l < SOCK_MAX && 0 <= m < SOCK_MAX && InRing(socks, l, j, i) && InRing(socks, m, k, i) ==>
              l == m && j == k
  {
    assert SlotOwned(socks, owner, i);
    forall l | 0 <= l < SOCK_MAX && i in Waiting(socks[l]) ensures owner[i] == Queue(l) {
      RingExcludes(socks, owner, l, i);
    }
    forall l, m, j, k | 0 <= l < SOCK_MAX && 0 <= m < SOCK_MAX && InRing(socks, l, j, i) && InRing(socks, m, k, i)
      ensures l == m && j == k
    {
      assert i in Waiting(socks[l]) && i in Waiting(socks[m]);
      assert RingOwned(socks, owner, l);
    }
  }

  function Elements(q: seq<nat>): (r: set<nat>) {
    set x | x in q
  }

  lemma {:induction false} NoDupCard(q: seq<nat>)
    requires NoDup(q)
    ensures |Elements(q)| == |q|
  {
    if q == [] {
      assert Elements(q) == {};
    } else {
      var front, last := q[..|q| - 1], q[|q| - 1];
      NoDupCard(front);
      assert q == front + [last] && last !in front;
      assert Elements(q) == Elements(front) + {last};
    }
  }

  function Below(n: nat): (r: set<nat>)
    ensures |r| == n && forall x: nat :: x in r <==> x < n
  {
    if n == 0 then {} else Below(n - 1) + {n - 1}
  }

  /** Distinct numbers below n, one of which is left out. */
  lemma Pigeonhole(q: seq<nat>, n: nat, left: nat)
    requires NoDup(q) && left < n && forall k :: 0 <= k < |q| ==> q[k] < n && q[k] != left
    ensures |q| < n
  {
    NoDupCard(q);
    var rest := Below(n) - {left};
    assert |rest| == n - 1;
    assert Elements(q) <= rest;
    SubsetCard(Elements(q), rest);
  }

  lemma SubsetCard(a: set<nat>, b: set<nat>)
    requires a <= b
    ensures |a| <= |b|
  {
    assert b == a + (b - a);
  }

  /** The "queue full" refusal of on_accept() is never reached. */
  lemma RingNeverFull(socks: seq<Sock>, owner: seq<Owner>, l: nat)
    requires TableOK(socks, owner) && l < SOCK_MAX
    ensures socks[l].acceptq.count < ACCEPTQ_MAX
  {
    var q := Waiting(socks[l]);
    assert RingOwned(socks, owner, l);
    forall k | 0 <= k < |q| ensures q[k] < SOCK_MAX && q[k] != l {
      RingExcludes(socks, owner, l, q[k]);
    }
    Pigeonhole(q, SOCK_MAX, l);
  }

  /* ---- what each kind of change keeps ---- */

  /** Changing a socket's own fields. */
  lemma KeepOwner(socks: seq<Sock>, owner: seq<Owner>, i: nat, s: Sock)
    requires TableOK(socks, owner) && i < SOCK_MAX && SockOK(s) && s.acceptq == socks[i].acceptq
    requires s.state == SkFree <==> socks[i].state == SkFree
    requires owner[i].Queue? ==> s.stype == SockStream && s.state in {SkConnected, SkError}
    ensures TableOK(socks[i := s], owner)
  {
    var after := socks[i := s];
    forall l | 0 <= l < SOCK_MAX ensures RingOwned(after, owner, l) {
      assert RingOwned(socks, owner, l);
    }
    forall k | 0 <= k < SOCK_MAX ensures SlotOwned(after, owner, k) {
      assert SlotOwned(socks, owner, k);
    }
  }

  /** The application's slot, not holding connections, is freed. */
  lemma FreeSlot(socks: seq<Sock>, owner: seq<Owner>, i: nat, s: Sock)
    requires TableOK(socks, owner) && i < SOCK_MAX && owner[i] == App
    requires SockOK(s) && s.state == SkFree && s.acceptq.count == socks[i].acceptq.count == 0
    ensures TableOK(socks[i := s], owner[i := NoOne])
  {
    ReplaceOwner(socks, owner, i, s, NoOne);
  }

  /** A slot outside every ring changes hands; its own ring is and stays empty. */
  lemma ReplaceOwner(socks: seq<Sock>, owner: seq<Owner>, i: nat, s: Sock, o: Owner)
    requires TableOK(socks, owner) && i < SOCK_MAX && !owner[i].Queue? && !o.Queue?
    requires SockOK(s) && s.acceptq.count == socks[i].acceptq.count == 0 && (o == NoOne <==> s.state == SkFree)
    ensures TableOK(socks[i := s], owner[i := o])
  {
    var after, owner' := socks[i := s], owner[i := o];
    forall l | 0 <= l < SOCK_MAX ensures RingOwned(after, owner', l) {
      assert RingOwned(socks, owner, l);
    }
    forall k | 0 <= k < SOCK_MAX ensures SlotOwned(after, owner', k) {
      assert SlotOwned(socks, owner, k);
    }
  }

  /** on_accept(): a free slot joins the ring of l. */
  function Enqueued(socks: seq<Sock>, l: nat, e: nat, s: Sock): seq<Sock>
    requires l < |socks| && e < |socks| && socks[l].acceptq.tail < |socks[l].acceptq.slots|
  {
    socks[e := s][l := socks[l].(acceptq := Push(socks[l].acceptq, e))]
  }

  /** The oldest slot e leaves the ring of l. */
  function Dequeued(socks: seq<Sock>, l: nat, e: nat, s: Sock): seq<Sock>
    requires l < |socks| && e < |socks| && |socks[l].acceptq.slots| > 0 && socks[l].acceptq.count > 0
  {
    socks[l := socks[l].(acceptq := Pop(socks[l].acceptq))][e := s]
  }

  lemma EnqueueRings(socks: seq<Sock>, l: nat, e: nat, s: Sock)
    requires SocksOK(socks) && l < SOCK_MAX && socks[l].state == SkListening && socks[l].acceptq.count < ACCEPTQ_MAX
    requires e < SOCK_MAX && e != l && SockOK(s) && s.acceptq.count == socks[e].acceptq.count == 0
    ensures var after := Enqueued(socks, l, e, s);
            && SocksOK(after)
            && (forall k :: 0 <= k < SOCK_MAX ==>
                 Waiting(after[k]) == if k == l then Waiting(socks[l]) + [e] else Waiting(socks[k]))
            && (forall k :: 0 <= k < SOCK_MAX && k != e ==>
                 after[k].state == socks[k].state && after[k].stype == socks[k].stype)
            && after[e] == s
  {
    PushAppends(socks[l].acceptq, e);
  }

  lemma DequeueRings(socks: seq<Sock>, l: nat, e: nat, s: Sock)
    requires SocksOK(socks) && l < SOCK_MAX && socks[l].acceptq.count > 0
    requires e < SOCK_MAX && e != l && SockOK(s) && s.acceptq.count == socks[e].acceptq.count == 0
    ensures var after := Dequeued(socks, l, e, s);
            && SocksOK(after)
            && (forall k :: 0 <= k < SOCK_MAX ==>
                 Waiting(after[k]) == if k == l then Waiting(socks[l])[1..] else Waiting(socks[k]))
            && (forall k :: 0 <= k < SOCK_MAX && k != e ==>
                 after[k].state == socks[k].state && after[k].stype == socks[k].stype)
            && after[e] == s
  {
    PopDrops(socks[l].acceptq);
  }

  lemma EnqueueSlot(socks: seq<Sock>, owner: seq<Owner>, l: nat, e: nat, s: Sock)
    requires TableOK(socks, owner) && l < SOCK_MAX && socks[l].state == SkListening
    requires socks[l].acceptq.count < ACCEPTQ_MAX
    requires e < SOCK_MAX && socks[e].state == SkFree
    requires SockOK(s) && s.state == SkConnected && s.stype == SockStream && s.acceptq.count == 0
    ensures TableOK(Enqueued(socks, l, e, s), owner[e := Queue(l)])
  {
    var after, owner' := Enqueued(socks, l, e, s), owner[e := Queue(l)];
    EnqueueOwned(socks, owner, l, e, s, 0);
    forall k | 0 <= k < SOCK_MAX ensures RingOwned(after, owner', k) {
      EnqueueRingOwned(socks, owner, l, e, s, k);
    }
    forall k | 0 <= k < SOCK_MAX ensures SlotOwned(after, owner', k) {
      EnqueueOwned(socks, owner, l, e, s, k);
    }
  }

  lemma NoDupSnoc(q: seq<nat>, e: nat)
    requires NoDup(q) && e !in q
    ensures NoDup(q + [e])
  {
  }

  lemma EnqueueRingOwned(socks: seq<Sock>, owner: seq<Owner>, l: nat, e: nat, s: Sock, k: nat)
    requires TableOK(socks, owner) && l < SOCK_MAX && socks[l].state == SkListening
    requires socks[l].acceptq.count < ACCEPTQ_MAX
    requires e < SOCK_MAX && socks[e].state == SkFree && k < SOCK_MAX
    requires SockOK(s) && s.state == SkConnected && s.stype == SockStream && s.acceptq.count == 0
    ensures SocksOK(Enqueued(socks, l, e, s)) && RingOwned(Enqueued(socks, l, e, s), owner[e := Queue(l)], k)
  {
    assert SockOK(socks[e]);
    EnqueueRings(socks, l, e, s);
    assert SlotOwned(socks, owner, e) && RingOwned(socks, owner, k);
    var q, q' := Waiting(socks[k]), Waiting(Enqueued(socks, l, e, s)[k]);
    forall j | 0 <= j < |q| ensures q[j] < SOCK_MAX && q[j] != e && owner[q[j]] == Queue(k) {
    }
    if k == l {
      NoDupSnoc(q, e);
      assert q' == q + [e];
    } else {
      assert q' == q;
    }
  }

  lemma EnqueueOwned(socks: seq<Sock>, owner: seq<Owner>, l: nat, e: nat, s: Sock, k: nat)
    requires TableOK(socks, owner) && l < SOCK_MAX && socks[l].state == SkListening
    requires socks[l].acceptq.count < ACCEPTQ_MAX
    requires e < SOCK_MAX && socks[e].state == SkFree && k < SOCK_MAX
    requires SockOK(s) && s.state == SkConnected && s.stype == SockStream && s.acceptq.count == 0
    ensures SocksOK(Enqueued(socks, l, e, s)) && SlotOwned(Enqueued(socks, l, e, s), owner[e := Queue(l)], k)
  {
    var after := Enqueued(socks, l, e, s);
    assert SockOK(socks[e]);
    EnqueueRings(socks, l, e, s);
    assert SlotOwned(socks, owner, k);
    if k == e {
      assert Waiting(after[l])[|Waiting(socks[l])|] == e;
    }
  }

  lemma DequeueSlot(socks: seq<Sock>, owner: seq<Owner>, l: nat, e: nat, s: Sock, o: Owner)
    requires TableOK(socks, owner) && l < SOCK_MAX && socks[l].acceptq.count > 0 && e == Waiting(socks[l])[0]
    requires SockOK(s) && s.acceptq.count == 0 && !o.Queue? && (o == NoOne <==> s.state == SkFree)
    ensures e < SOCK_MAX && e != l && owner[e] == Queue(l)
    ensures TableOK(Dequeued(socks, l, e, s), owner[e := o])
  {
    RingExcludes(socks, owner, l, e);
    DequeueRings(socks, l, e, s);
    var after, owner' := Dequeued(socks, l, e, s), owner[e := o];
    DequeueRingsOwned(socks, owner, l, e, after, owner');
    DequeueSlotsOwned(socks, owner, l, e, after, owner');
  }

  /** after has the rings of socks, that of l without its oldest entry e. */
  ghost predicate RingsMoved(socks: seq<Sock>, after: seq<Sock>, l: nat, e: nat)
    requires SocksOK(socks) && SocksOK(after) && l < SOCK_MAX
  {
    && |Waiting(socks[l])| > 0 && e == Waiting(socks[l])[0] && e < SOCK_MAX && e != l
    && forall k :: 0 <= k < SOCK_MAX ==>
         Waiting(after[k]) == if k == l then Waiting(socks[l])[1..] else Waiting(socks[k])
  }

  lemma DequeueRingsOwned(socks: seq<Sock>, owner: seq<Owner>, l: nat, e: nat, after: seq<Sock>, owner': seq<Owner>)
    requires TableOK(socks, owner) && SocksOK(after) && l < SOCK_MAX && RingsMoved(socks, after, l, e)
    requires |owner'| == SOCK_MAX && owner' == owner[e := owner'[e]]
    ensures forall k :: 0 <= k < SOCK_MAX ==> RingOwned(after, owner', k)
  {
    forall k | 0 <= k < SOCK_MAX ensures RingOwned(after, owner', k) {
      DequeueRingOwned(socks, owner, l, e, after, owner', k);
    }
  }

  lemma DequeueRingOwned(socks: seq<Sock>, owner: seq<Owner>, l: nat, e: nat, after: seq<Sock>, owner': seq<Owner>,
                         k: nat)
    requires TableOK(socks, owner) && SocksOK(after) && l < SOCK_MAX && RingsMoved(socks, after, l, e)
    requires |owner'| == SOCK_MAX && owner' == owner[e := owner'[e]] && k < SOCK_MAX
    ensures RingOwned(after, owner', k)
  {
    assert RingOwned(socks, owner, k) && RingOwned(socks, owner, l);
    if k == l {
      QueueTail(Waiting(socks[l]), owner, owner', l);
    } else {
      QueueOther(Waiting(socks[k]), owner, owner', k, l, e);
    }
  }

  /** The slots of q are waiting in the ring of l. */
  ghost predicate AllQueued(q: seq<nat>, owner: seq<Owner>, l: nat)
    requires |owner| == SOCK_MAX
  {
    NoDup(q) && forall k :: 0 <= k < |q| ==> q[k] < SOCK_MAX && owner[q[k]] == Queue(l)
  }

  lemma QueueTail(q: seq<nat>, owner: seq<Owner>, owner': seq<Owner>, l: nat)
    requires |owner| == |owner'| == SOCK_MAX && q != [] && AllQueued(q, owner, l)
    requires owner' == owner[q[0] := owner'[q[0]]]
    ensures AllQueued(q[1..], owner', l)
  {
    forall k | 0 <= k < |q[1..]| ensures q[1..][k] < SOCK_MAX && owner'[q[1..][k]] == Queue(l) {
      assert q[1..][k] == q[k + 1] != q[0];
    }
  }

  lemma QueueOther(q: seq<nat>, owner: seq<Owner>, owner': seq<Owner>, l: nat, other: nat, e: nat)
    requires |owner| == |owner'| == SOCK_MAX && AllQueued(q, owner, l) && l != other
    requires e < SOCK_MAX && owner[e] == Queue(other) && owner' == owner[e := owner'[e]]
    ensures AllQueued(q, owner', l)
  {
  }

  lemma DequeueSlotsOwned(socks: seq<Sock>, owner: seq<Owner>, l: nat, e: nat, after: seq<Sock>, owner': seq<Owner>)
    requires TableOK(socks, owner) && SocksOK(after) && l < SOCK_MAX && RingsMoved(socks, after, l, e)
    requires |owner'| == SOCK_MAX && owner' == owner[e := owner'[e]] && !owner'[e].Queue?
    requires owner'[e] == NoOne <==> after[e].state == SkFree
    requires forall k :: 0 <= k < SOCK_MAX && k != e ==>
               after[k].state == socks[k].state && after[k].stype == socks[k].stype
    ensures forall k :: 0 <= k < SOCK_MAX ==> SlotOwned(after, owner', k)
  {
    forall k | 0 <= k < SOCK_MAX ensures SlotOwned(after, owner', k) {
      assert SlotOwned(socks, owner, k);
      DequeueKeepsIn(Waiting(socks[l]), k);
    }
  }

  lemma DequeueKeepsIn(q: seq<nat>, k: nat)
    requires q != []
    ensures k in q && k != q[0] ==> k in q[1..]
  {
  }

  /* ---- bytes and pbufs ---- */

  function Ids(chain: seq<Pbuf>): multiset<nat> {
    if chain == [] then multiset{} else multiset{chain[0].id} + Ids(chain[1..])
  }

  function DgramIds(q: seq<Datagram>): multiset<nat> {
    if q == [] then multiset{} else multiset{q[0].p.id} + DgramIds(q[1..])
  }

  lemma {:induction false} IdsAppend(a: seq<Pbuf>, b: seq<Pbuf>)
    ensures Ids(a + b) == Ids(a) + Ids(b)
    decreases |a|
  {
    if a == [] {
      assert a + b == b;
    } else {
      assert (a + b)[1..] == a[1..] + b;
      IdsAppend(a[1..], b);
    }
  }

  lemma {:induction false} DgramIdsSnoc(q: seq<Datagram>, d: Datagram)
    ensures DgramIds(q + [d]) == DgramIds(q) + multiset{d.p.id}
    decreases |q|
  {
    if q == [] {
      assert q + [d] == [d];
      assert [d][1..] == [];
    } else {
      assert (q + [d])[1..] == q[1..] + [d];
      DgramIdsSnoc(q[1..], d);
    }
  }

  /** Stream bytes: what came in is what went out plus what is queued, and all that went out was
      credited while the connection lives. */
  ghost predicate StreamOK(s: Sock, l: Ledger)
    requires s.state != SkFree ==> ChainOK(s.chain, s.off)
  {
    s.state != SkFree && s.stype == SockStream ==>
      l.received == l.handed + Queued(s.chain, s.off) && (s.pcb ==> l.credited == |l.handed|)
  }

  /** Pbufs: what arrived was freed, once, or is still queued. */
  ghost predicate PbufsOK(s: Sock, l: Ledger)
    requires RingOK(s.udpq)
  {
    l.arrived == l.freed + Ids(s.chain) + DgramIds(Entries(s.udpq))
  }

  ghost predicate LedgerOK(s: Sock, l: Ledger)
    requires SockOK(s)
  {
    StreamOK(s, l) && PbufsOK(s, l)
  }

  lemma RecvSock(s: Sock, p: seq<Pbuf>)
    requires SockOK(s) && s.stype == SockStream && s.state == SkConnected
    ensures SockOK(s.(chain := s.chain + p))
  {
    CatQueues(s.chain, s.off, p);
  }

  lemma RecvStream(s: Sock, l: Ledger, p: seq<Pbuf>)
    requires ChainOK(s.chain, s.off) && StreamOK(s, l)
    ensures ChainOK(s.chain + p, s.off)
    ensures StreamOK(s.(chain := s.chain + p),
            l.(received := l.received + ChainBytes(p), arrived := l.arrived + Ids(p)))
  {
    CatQueues(s.chain, s.off, p);
    assert (l.handed + Queued(s.chain, s.off)) + ChainBytes(p) == l.handed + (Queued(s.chain, s.off) + ChainBytes(p));
  }

  lemma RecvPbufs(s: Sock, l: Ledger, p: seq<Pbuf>)
    requires RingOK(s.udpq) && PbufsOK(s, l)
    ensures PbufsOK(s.(chain := s.chain + p), l.(received := l.received + ChainBytes(p), arrived := l.arrived + Ids(p)))
  {
    IdsAppend(s.chain, p);
  }

  /** on_recv() */
  lemma RecvLedger(s: Sock, l: Ledger, p: seq<Pbuf>)
    requires SockOK(s) && LedgerOK(s, l) && s.stype == SockStream && s.state == SkConnected
    ensures var s' := s.(chain := s.chain + p);
            SockOK(s') && LedgerOK(s', l.(received := l.received + ChainBytes(p), arrived := l.arrived + Ids(p)))
  {
    RecvSock(s, p);
    RecvStream(s, l, p);
    RecvPbufs(s, l, p);
  }

  /** Reading: r is what came out of the chain. */
  function ReadSock(s: Sock, r: Read): Sock {
    s.(chain := r.chain, off := r.off)
  }

  function ReadLedger(s: Sock, l: Ledger, r: Read): Ledger {
    l.(handed := l.handed + r.got, credited := l.credited + (if s.pcb then |r.got| else 0),
        freed := l.freed + Ids(r.freed))
  }

  lemma ReadStream(s: Sock, l: Ledger, r: Read)
    requires ChainOK(s.chain, s.off) && StreamOK(s, l) && ChainOK(r.chain, r.off)
    requires Queued(s.chain, s.off) == r.got + Queued(r.chain, r.off)
    ensures StreamOK(ReadSock(s, r), ReadLedger(s, l, r))
  {
    assert l.handed + (r.got + Queued(r.chain, r.off)) == (l.handed + r.got) + Queued(r.chain, r.off);
  }

  lemma ReadPbufs(s: Sock, l: Ledger, r: Read)
    requires RingOK(s.udpq) && PbufsOK(s, l) && s.chain == r.freed + r.chain
    ensures PbufsOK(ReadSock(s, r), ReadLedger(s, l, r))
  {
    IdsAppend(r.freed, r.chain);
  }

  /** bsock_read() */
  lemma ReadOneKeeps(s: Sock, l: Ledger, len: nat)
    requires SockOK(s) && LedgerOK(s, l) && s.stype == SockStream && s.state != SkFree && s.chain != [] && len > 0
    ensures s.off <= |s.chain[0].data|
    ensures var r := ReadOne(s.chain, s.off, len);
            |r.got| <= len && SockOK(ReadSock(s, r)) && LedgerOK(ReadSock(s, r), ReadLedger(s, l, r))
  {
    var r := ReadOne(s.chain, s.off, len);
    ReadOneTakes(s.chain, s.off, len);
    ReadStream(s, l, r);
    ReadPbufs(s, l, r);
  }

  /** Two reads in a row are one read of both. */
  lemma ReadTwice(s: Sock, l: Ledger, r: Read, t: Read)
    ensures ReadSock(ReadSock(s, r), t) == ReadSock(s, Then(r, t))
    ensures ReadLedger(ReadSock(s, r), ReadLedger(s, l, r), t) == ReadLedger(s, l, Then(r, t))
  {
    Joins(l.handed, r.got, t.got);
    IdsJoin(l.freed, r.freed, t.freed);
  }

  lemma IdsJoin(m: multiset<nat>, b: seq<Pbuf>, c: seq<Pbuf>)
    ensures m + Ids(b) + Ids(c) == m + Ids(b + c)
  {
    IdsAppend(b, c);
  }

  /** In the loop of recv(): having read `done`, slot and ledger are cur and g, and the rest of the
      loop still comes to one Drain. */
  ghost predicate Reading(s: Sock, l: Ledger, len: nat, done: Read, cur: Sock, g: Ledger)
    requires ChainOK(s.chain, s.off)
  {
    && ChainOK(done.chain, done.off) && |done.got| <= len
    && cur == ReadSock(s, done) && g == ReadLedger(s, l, done)
    && Drain(s.chain, s.off, len) == Then(done, Drain(done.chain, done.off, len - |done.got|))
  }

  lemma ReadingStart(s: Sock, l: Ledger, len: nat)
    requires ChainOK(s.chain, s.off)
    ensures Reading(s, l, len, Read([], s.chain, s.off, []), s, l)
  {
    NothingThen(s.chain, s.off, Drain(s.chain, s.off, len));
    NothingRead(s, l);
  }

  lemma NothingThen(chain: seq<Pbuf>, off: nat, r: Read)
    ensures Then(Read([], chain, off, []), r) == r
  {
    assert [] + r.got == r.got && [] + r.freed == r.freed;
  }

  lemma NothingRead(s: Sock, l: Ledger)
    ensures ReadSock(s, Read([], s.chain, s.off, [])) == s && ReadLedger(s, l, Read([], s.chain, s.off, [])) == l
  {
    assert l.handed + [] == l.handed;
  }

  /** One more turn of the loop. */
  lemma ReadingStep(s: Sock, l: Ledger, len: nat, done: Read, cur: Sock, g: Ledger)
    requires ChainOK(s.chain, s.off) && Reading(s, l, len, done, cur, g) && |done.got| < len && cur.chain != []
    ensures cur.off <= |cur.chain[0].data|
    ensures var r := ReadOne(cur.chain, cur.off, len - |done.got|);
            && Reading(s, l, len, Then(done, r), ReadSock(cur, r), ReadLedger(cur, g, r))
            && (|r.chain| < |cur.chain| || |r.got| > 0) && |r.chain| <= |cur.chain|
  {
    var left := len - |done.got|;
    ReadOneTakes(done.chain, done.off, left);
    DrainStep(done, left);
    ReadingMoves(s, l, len, done, cur, g, ReadOne(done.chain, done.off, left));
  }

  lemma ReadingMoves(s: Sock, l: Ledger, len: nat, done: Read, cur: Sock, g: Ledger, r: Read)
    requires ChainOK(s.chain, s.off) && Reading(s, l, len, done, cur, g)
    requires ChainOK(r.chain, r.off) && |done.got| + |r.got| <= len
    requires var left := len - |done.got|;
             Drain(done.chain, done.off, left) == Then(r, Drain(r.chain, r.off, left - |r.got|))
    ensures Reading(s, l, len, Then(done, r), ReadSock(cur, r), ReadLedger(cur, g, r))
  {
    var left := len - |done.got|;
    ReadTwice(s, l, done, r);
    ThenAssoc(done, r, Drain(r.chain, r.off, left - |r.got|));
    assert left - |r.got| == len - |Then(done, r).got|;
  }

  lemma DrainStep(done: Read, len: nat)
    requires ChainOK(done.chain, done.off) && done.chain != [] && len > 0
    ensures var r := ReadOne(done.chain, done.off, len);
            && |r.got| <= len && ChainOK(r.chain, r.off)
            && Drain(done.chain, done.off, len) == Then(r, Drain(r.chain, r.off, len - |r.got|))
  {
    var r := ReadOne(done.chain, done.off, len);
    ReadOneTakes(done.chain, done.off, len);
    if r.freed == [] {
      ThenNothing(r);
    }
  }

  lemma ThenNothing(r: Read)
    ensures Then(r, Read([], r.chain, r.off, [])) == r
  {
    assert r.got + [] == r.got && r.freed + [] == r.freed;
  }

  lemma ReadingEnd(s: Sock, l: Ledger, len: nat, done: Read, cur: Sock, g: Ledger)
    requires ChainOK(s.chain, s.off) && Reading(s, l, len, done, cur, g) && (|done.got| == len || cur.chain == [])
    ensures done == Drain(s.chain, s.off, len)
  {
    assert done.got + [] == done.got && done.freed + [] == done.freed;
  }

  /** In the loop of recvmsg(), before buffer k. */
  ghost predicate Scattering(s: Sock, l: Ledger, lens: seq<nat>, k: nat, pieces: seq<seq<Octet>>, done: Read, cur: Sock,
                             g: Ledger)
    requires ChainOK(s.chain, s.off)
  {
    && k <= |lens| && ChainOK(done.chain, done.off)
    && cur == ReadSock(s, done) && g == ReadLedger(s, l, done)
    && var rest := Scatter(done.chain, done.off, lens[k..]);
       Scatter(s.chain, s.off, lens) == (pieces + rest.0, Then(done, rest.1))
  }

  lemma ScatteringStart(s: Sock, l: Ledger, lens: seq<nat>)
    requires ChainOK(s.chain, s.off)
    ensures Scattering(s, l, lens, 0, [], Read([], s.chain, s.off, []), s, l)
  {
    var (pieces, r) := Scatter(s.chain, s.off, lens);
    assert lens[0..] == lens && [] + pieces == pieces;
    NothingThen(s.chain, s.off, r);
    NothingRead(s, l);
  }

  /** One more buffer. */
  lemma ScatteringStep(s: Sock, l: Ledger, lens: seq<nat>, k: nat, pieces: seq<seq<Octet>>, done: Read, cur: Sock,
                       g: Ledger)
    requires ChainOK(s.chain, s.off) && Scattering(s, l, lens, k, pieces, done, cur, g) && k < |lens| && cur.chain != []
    ensures var r := Drain(cur.chain, cur.off, lens[k]);
            Scattering(s, l, lens, k + 1, pieces + [r.got], Then(done, r), ReadSock(cur, r), ReadLedger(cur, g, r))
  {
    var r := Drain(done.chain, done.off, lens[k]);
    DrainTakes(done.chain, done.off, lens[k]);
    ReadTwice(s, l, done, r);
    assert lens[k..][0] == lens[k] && lens[k..][1..] == lens[k + 1..];
    var rest := Scatter(r.chain, r.off, lens[k + 1..]);
    ThenAssoc(done, r, rest.1);
    assert pieces + ([r.got] + rest.0) == (pieces + [r.got]) + rest.0;
  }

  lemma ScatteringEnd(s: Sock, l: Ledger, lens: seq<nat>, k: nat, pieces: seq<seq<Octet>>, done: Read, cur: Sock,
                      g: Ledger)
    requires ChainOK(s.chain, s.off) && Scattering(s, l, lens, k, pieces, done, cur, g)
    requires (k == |lens| || cur.chain == [])
    ensures Scatter(s.chain, s.off, lens) == (pieces, done)
  {
    assert done.got + [] == done.got && done.freed + [] == done.freed && pieces + [] == pieces;
  }

  /** on_udp_recv() */
  lemma UdpPushKeeps(s: Sock, l: Ledger, d: Datagram)
    requires SockOK(s) && LedgerOK(s, l) && s.stype == SockDgram && s.state != SkFree && s.udpq.count < UDP_RXQ_MAX
    ensures var s' := s.(udpq := Push(s.udpq, d));
            && SockOK(s') && LedgerOK(s', l.(arrived := l.arrived + multiset{d.p.id}))
            && Entries(s'.udpq) == Entries(s.udpq) + [d]
  {
    PushAppends(s.udpq, d);
    DgramIdsSnoc(Entries(s.udpq), d);
  }

  lemma UdpPopKeeps(s: Sock, l: Ledger)
    requires SockOK(s) && LedgerOK(s, l) && s.udpq.count > 0
    ensures var d, s' := s.udpq.slots[s.udpq.head], s.(udpq := Pop(s.udpq));
            && SockOK(s') && LedgerOK(s', l.(freed := l.freed + multiset{d.p.id}))
            && Entries(s.udpq) == [d] + Entries(s'.udpq)
  {
    PopDrops(s.udpq);
    var q := Entries(s.udpq);
    assert q == [q[0]] + q[1..];
  }

  ghost predicate LedgersOK(socks: seq<Sock>, ledger: seq<Ledger>)
    requires SocksOK(socks)
  {
    |ledger| == SOCK_MAX && forall i {:trigger LedgerOK(socks[i], ledger[i])} :: 0 <= i < SOCK_MAX ==>
        LedgerOK(socks[i], ledger[i])
  }

  lemma OneLedger(socks: seq<Sock>, ledger: seq<Ledger>, i: nat, s: Sock, g: Ledger)
    requires SocksOK(socks) && LedgersOK(socks, ledger) && i < SOCK_MAX && SockOK(s) && LedgerOK(s, g)
    ensures SocksOK(socks[i := s]) && LedgersOK(socks[i := s], ledger[i := g])
  {
    var after, ledger' := socks[i := s], ledger[i := g];
    forall k | 0 <= k < SOCK_MAX ensures LedgerOK(after[k], ledger'[k]) {
      assert LedgerOK(socks[k], ledger[k]);
    }
  }

  lemma SameLedger(socks: seq<Sock>, ledger: seq<Ledger>, l: nat, e: nat)
    requires SocksOK(socks) && LedgersOK(socks, ledger) && l < SOCK_MAX && socks[l].acceptq.count < ACCEPTQ_MAX
    requires socks[l].state == SkListening
    ensures var s := socks[l].(acceptq := Push(socks[l].acceptq, e));
            SocksOK(socks[l := s]) && LedgersOK(socks[l := s], ledger)
  {
    var s := socks[l].(acceptq := Push(socks[l].acceptq, e));
    PushAppends(socks[l].acceptq, e);
    assert LedgerOK(socks[l], ledger[l]);
    OneLedger(socks, ledger, l, s, ledger[l]);
    assert ledger[l := ledger[l]] == ledger;
  }

  /** Moving the ring on, and changing slot e and its ledger, leaves the other ledgers right. */
  lemma DequeueLedgers(socks: seq<Sock>, ledger: seq<Ledger>, l: nat, e: nat, s: Sock, g: Ledger)
    requires SocksOK(socks) && LedgersOK(socks, ledger) && l < SOCK_MAX && e < SOCK_MAX && l != e
    requires socks[l].acceptq.count > 0 && SockOK(s) && LedgerOK(s, g)
    requires SocksOK(Dequeued(socks, l, e, s))
    ensures LedgersOK(Dequeued(socks, l, e, s), ledger[e := g])
  {
    var after := Dequeued(socks, l, e, s);
    assert LedgerOK(socks[l], ledger[l]);
    forall i | 0 <= i < SOCK_MAX ensures LedgerOK(after[i], ledger[e := g][i]) {
      assert LedgerOK(socks[i], ledger[i]);
    }
  }

  /* ---- closing ---- */

  /** A stream slot given back: everything still queued is freed. */
  function FreedSock(s: Sock): Sock {
    s.(chain := [], state := SkFree)
  }

  function FreedLedger(s: Sock, l: Ledger): Ledger {
    l.(freed := l.freed + Ids(s.chain))
  }

  lemma FreedKeeps(s: Sock, l: Ledger)
    requires SockOK(s) && LedgerOK(s, l) && s.stype == SockStream && s.acceptq.count == 0
    ensures SockOK(FreedSock(s)) && LedgerOK(FreedSock(s), FreedLedger(s, l))
  {
    assert Entries(s.udpq) == [];
  }

  /** Closing listener l: every slot that was waiting in its ring is freed, the others are untouched. */
  ghost predicate RingFreed(before: seq<Sock>, after: seq<Sock>, l: nat, freed: seq<nat>)
    requires |before| == |after| == SOCK_MAX && l < SOCK_MAX
  {
    && after[l] == before[l].(acceptq := after[l].acceptq)
    && forall k :: 0 <= k < SOCK_MAX && k != l ==> after[k] == if k in freed then FreedSock(before[k]) else before[k]
  }

  ghost predicate OwnersFreed(before: seq<Owner>, after: seq<Owner>, freed: seq<nat>)
    requires |before| == |after| == SOCK_MAX
  {
    forall k :: 0 <= k < SOCK_MAX ==> after[k] == if k in freed then NoOne else before[k]
  }

  ghost predicate LedgersFreed(socks: seq<Sock>, before: seq<Ledger>, after: seq<Ledger>, freed: seq<nat>)
    requires |socks| == |before| == |after| == SOCK_MAX
  {
    forall k :: 0 <= k < SOCK_MAX ==> after[k] == if k in freed then FreedLedger(socks[k], before[k]) else before[k]
  }

  /** One more waiting slot freed. */
  lemma RingFreedStep(socks: seq<Sock>, now: seq<Sock>, l: nat, q: seq<nat>, n: nat)
    requires SocksOK(socks) && SocksOK(now) && l < SOCK_MAX && n < |q| && NoDup(q) && now[l].acceptq.count > 0
    requires q[n] < SOCK_MAX && q[n] != l && RingFreed(socks, now, l, q[..n])
    ensures now[q[n]] == socks[q[n]]
    ensures RingFreed(socks, Dequeued(now, l, q[n], FreedSock(now[q[n]])), l, q[..n + 1])
  {
    assert q[..n + 1] == q[..n] + [q[n]];
    assert q[n] !in q[..n];
  }

  lemma CloseRingStart(socks: seq<Sock>, owner: seq<Owner>, ledger: seq<Ledger>, l: nat)
    requires SocksOK(socks) && |owner| == |ledger| == SOCK_MAX && l < SOCK_MAX
    ensures RingFreed(socks, socks, l, []) && OwnersFreed(owner, owner, []) && LedgersFreed(socks, ledger, ledger, [])
  {
  }

  /** A datagram slot whose ring was emptied and whose state is now free. */
  lemma DgramFreed(s: Sock, l: Ledger, s': Sock, g: Ledger)
    requires SockOK(s) && LedgerOK(s, l) && s.stype == SockDgram
    requires s' == s.(udpq := s'.udpq, state := SkFree) && RingOK(s'.udpq) && s'.udpq.count == 0
    requires |s'.udpq.slots| == UDP_RXQ_MAX && s.acceptq.count == 0
    requires g == l.(freed := l.freed + DgramIds(Entries(s.udpq)))
    ensures SockOK(s') && LedgerOK(s', g)
  {
    assert Entries(s'.udpq) == [];
  }

  /** Nothing that arrived for a slot that is now free is still around. */
  lemma Settled(socks: seq<Sock>, ledger: seq<Ledger>)
    requires SocksOK(socks) && LedgersOK(socks, ledger)
    ensures forall k :: 0 <= k < SOCK_MAX && socks[k].state == SkFree ==> ledger[k].freed == ledger[k].arrived
  {
    forall k | 0 <= k < SOCK_MAX && socks[k].state == SkFree ensures ledger[k].freed == ledger[k].arrived {
      assert LedgerOK(socks[k], ledger[k]);
      assert Entries(socks[k].udpq) == [];
    }
  }

  lemma NotInOwnRing(socks: seq<Sock>, owner: seq<Owner>, l: nat)
    requires TableOK(socks, owner) && l < SOCK_MAX
    ensures l !in Waiting(socks[l])
  {
    if l in Waiting(socks[l]) {
      RingExcludes(socks, owner, l, l);
    }
  }

  /* ---- readiness ---- */

  /** What a call finds when it looks at the socket, before it polls or sleeps. */
  datatype Look = Now(r: int) | Wait

  const EINVAL: int := 22
  const ECONNRESET: int := 104
  const ENOTCONN: int := 107

  /** tcp_wait_rx(): 1 for bytes to read, 0 at the end of the stream. */
  function TcpLook(s: Sock): (r: Look)
    // queued bytes come first, then the end of the stream, and only then an error
    ensures r == Now(1) <==> s.chain != []
    ensures r == Now(0) <==> s.chain == [] && s.eof
    ensures r == Now(-104) <==> s.chain == [] && !s.eof && s.state == SkError
    ensures r == Now(-107) <==> s.chain == [] && !s.eof && (s.state == SkClosed || s.state == SkListening)
    ensures r == Wait <==> s.chain == [] && !s.eof && s.state !in {SkError, SkClosed, SkListening}
  {
    if s.chain != [] then Now(1)
    else if s.eof then Now(0)
    else if s.state == SkError then Now(-ECONNRESET)
    else if s.state in {SkClosed, SkListening} then Now(-ENOTCONN)
    else Wait
  }

  /** udp_wait_rx(): 0 for a datagram to read. */
  function UdpLook(s: Sock): (r: Look)
    ensures r == Now(0) <==> s.udpq.count > 0
    ensures r == Wait <==> s.udpq.count == 0
  {
    if s.udpq.count != 0 then Now(0) else Wait
  }

  function RecvLook(s: Sock): Look {
    if s.stype == SockDgram then UdpLook(s) else TcpLook(s)
  }

  /** net_shim_accept() */
  function AcceptLook(s: Sock): (r: Look)
    ensures r == Now(0) <==> s.acceptq.count > 0
    ensures r == Now(-22) <==> s.acceptq.count == 0 && s.state != SkListening
    ensures r == Wait <==> s.acceptq.count == 0 && s.state == SkListening
  {
    if s.acceptq.count != 0 then Now(0) else if s.state != SkListening then Now(-EINVAL) else Wait
  }

  /** The bits of net_shim_poll(); `room` says whether lwIP would take more to send. */
  datatype Revents = Revents(pollIn: bool, pollOut: bool, rdHup: bool, hup: bool, err: bool)

  function PollNow(s: Sock, room: bool): (r: Revents)
    ensures r.err ==> r.hup && s.soError != 0
    ensures r.err <==> s.stype != SockDgram && s.state == SkError && s.soError != 0
    ensures r.hup <==> s.stype != SockDgram && (s.state == SkError || s.state == SkClosed)
    ensures r.rdHup <==> s.stype != SockDgram && s.state == SkConnected && s.eof
    ensures r.pollOut <==> s.stype == SockDgram || r.hup || (s.state == SkConnected && s.pcb && room)
    ensures s.stype == SockDgram ==> (r.pollIn <==> s.udpq.count > 0)
    ensures s.stype != SockDgram ==>
              (r.pollIn <==> || (s.state == SkListening && s.acceptq.count > 0)
                             || (s.state == SkConnected && (s.chain != [] || s.eof))
                             || s.state == SkError)
  {
    if s.stype == SockDgram then Revents(s.udpq.count != 0, true, false, false, false)
    else match s.state
      case SkListening => Revents(s.acceptq.count != 0, false, false, false, false)
      case SkConnected => Revents(s.chain != [] || s.eof, s.pcb && room, s.eof, false, false)
      case SkError => Revents(true, true, false, true, s.soError != 0)
      case SkClosed => Revents(false, true, false, true, false)
      case _ => Revents(false, false, false, false, false)
  }

  /** Masking with the requested events; POLLERR and POLLHUP are always reported. */
  function Requested(r: Revents, wanted: Revents): (t: Revents)
    ensures t.hup == r.hup && t.err == r.err
    ensures t.pollIn || t.pollOut || t.rdHup ==> wanted.pollIn || wanted.pollOut || wanted.rdHup
    ensures wanted.pollIn && wanted.pollOut && wanted.rdHup ==> t == r
    ensures (t.pollIn ==> r.pollIn && wanted.pollIn) && (t.pollOut ==> r.pollOut && wanted.pollOut)
    ensures t.rdHup ==> r.rdHup && wanted.rdHup
  {
    Revents(r.pollIn && wanted.pollIn, r.pollOut && wanted.pollOut, r.rdHup && wanted.rdHup, r.hup, r.err)
  }

  /** poll() reports input exactly when recv() would not wait, except on a stream socket that was
      never connected: there recv() fails at once but poll() reports no input. */
  lemma PollMatchesRecv(s: Sock, room: bool, wanted: Revents)
    requires SockOK(s) && s.state != SkFree && wanted.pollIn
    ensures (Requested(PollNow(s, room), wanted).pollIn <==> RecvLook(s) != Wait)
            <==> !(s.stype == SockStream && (s.state == SkClosed || (s.state == SkListening && s.acceptq.count == 0)))
  {
  }

  /** For a listener poll() reports input exactly when accept() would hand a connection over now. */
  lemma PollMatchesAccept(s: Sock, room: bool, wanted: Revents)
    requires SockOK(s) && s.stype == SockStream && s.state == SkListening && wanted.pollIn
    ensures Requested(PollNow(s, room), wanted).pollIn <==> AcceptLook(s) == Now(0)
    ensures AcceptLook(s) == Now(0) <==> AcceptLook(s) != Wait
  {
  }

  /* ---- datagrams into buffers ---- */

  function Least(a: nat, b: nat): nat {
    if a < b then a else b
  }

  /** In the loop of udp_do_recvv(), before buffer k: n bytes of data are out. */
  ghost predicate Copying(data: seq<Octet>, lens: seq<nat>, k: nat, pieces: seq<seq<Octet>>, n: nat) {
    var m := Least(|data|, Sum(lens));
    && k <= |lens| && n <= m && m - n <= Sum(lens[k..]) && |pieces| == k
    && (m == |data| || m - n == Sum(lens[k..]))
    && Cut(data[..m], lens) == pieces + Cut(data[n..m], lens[k..])
  }

  lemma CopyingStart(data: seq<Octet>, lens: seq<nat>)
    ensures Copying(data, lens, 0, [], 0)
  {
    assert lens[0..] == lens;
    var m := Least(|data|, Sum(lens));
    assert data[0..m] == data[..m];
  }

  lemma CopyingStep(data: seq<Octet>, lens: seq<nat>, k: nat, pieces: seq<seq<Octet>>, n: nat)
    requires Copying(data, lens, k, pieces, n) && k < |lens| && n < |data|
    ensures var chunk := Least(lens[k], |data| - n);
            Copying(data, lens, k + 1, pieces + [data[n..n + chunk]], n + chunk)
  {
    var m, chunk := Least(|data|, Sum(lens)), Least(lens[k], |data| - n);
    assert lens[k..][0] == lens[k] && lens[k..][1..] == lens[k + 1..];
    assert n + chunk <= m;
    if m - n <= lens[k] {
      assert n + chunk == m && data[n..m] == data[n..n + chunk];
      assert data[n + chunk..m] == [];
    } else {
      assert data[n..m][..lens[k]] == data[n..n + chunk];
      assert data[n..m][lens[k]..] == data[n + chunk..m];
    }
    assert pieces + ([data[n..n + chunk]] + Cut(data[n + chunk..m], lens[k + 1..]))
        == (pieces + [data[n..n + chunk]]) + Cut(data[n + chunk..m], lens[k + 1..]);
  }

  lemma {:induction false} PaddedPrefix(pieces: seq<seq<Octet>>, n: nat)
    requires |pieces| <= n
    ensures Padded(pieces, n) == pieces + Padded([], n - |pieces|)
    decreases n
  {
    if pieces != [] {
      PaddedPrefix(pieces[1..], n - 1);
      assert [pieces[0]] + (pieces[1..] + Padded([], n - |pieces|)) == pieces + Padded([], n - |pieces|);
    }
  }

  lemma CopyingEnd(data: seq<Octet>, lens: seq<nat>, k: nat, pieces: seq<seq<Octet>>, n: nat)
    requires Copying(data, lens, k, pieces, n) && (k == |lens| || n >= |data|)
    ensures n == Least(|data|, Sum(lens)) && Padded(pieces, |lens|) == Cut(data[..n], lens)
  {
    var m := Least(|data|, Sum(lens));
    assert n == m && data[n..m] == [];
    CutNothing(lens[k..]);
    PaddedPrefix(pieces, |lens|);
  }
}
