/** The socket table as the source keeps it (port/net_shim.c): sixteen records changed in place by
    lwIP's callbacks and by the calls, which let callbacks in only where they poll or sleep. */
module NetShim {
  import opened NetModel
  import opened NetTable

  const SOCK_FD_BASE: int := 100
  const AF_INET: int := 2
  const SOCK_STREAM: int := 1
  const SOCK_DGRAM: int := 2
  const SOCK_NONBLOCK: int := 2048
  const EINTR: int := 4
  const EAGAIN: int := 11
  const ENOMEM: int := 12
  const EMFILE: int := 24
  const EOPNOTSUPP: int := 95
  const EAFNOSUPPORT: int := 97
  const EADDRINUSE: int := 98
  const ECONNABORTED: int := 103
  const ETIMEDOUT: int := 110
  const ECONNREFUSED: int := 111
  const EISCONN: int := 106
  const EALREADY: int := 114
  const EINPROGRESS: int := 115

  datatype LwipErr = ErrOk | ErrVal | ErrMem | ErrRst | ErrAbrt | ErrOther

  function EmptyRing<T>(n: nat, x: T): Ring<T> {
    Ring(seq(n, _ => x), 0, 0, 0)
  }

  /** reset_sock() */
  function ResetSock(stype: SType): Sock {
    Sock(SkFree, stype, false, false, [], 0, false,
         EmptyRing(UDP_RXQ_MAX, Datagram(Pbuf(0, []), 0, 0)), EmptyRing(ACCEPTQ_MAX, 0),
         NET_BLOCK_TIMEOUT_MS, NET_BLOCK_TIMEOUT_MS, false, 0)
  }

  /** IPv4, a stream or datagrams; the type's low byte decides, its flag bits do not. */
  predicate Supported(domain: int, kind: int) {
    domain == AF_INET && (kind % 256 == SOCK_STREAM || kind % 256 == SOCK_DGRAM)
  }

  function BaseType(kind: int): SType {
    if kind % 256 == SOCK_DGRAM then SockDgram else SockStream
  }

  predicate WantsNonblock(kind: int) {
    kind / SOCK_NONBLOCK % 2 == 1
  }

  /** What socket() leaves in the slot. */
  function NewSock(kind: int): Sock {
    var stype := BaseType(kind);
    ResetSock(stype).(state := SkClosed, nonblock := WantsNonblock(kind), pcb := stype == SockStream,
        upcb := stype == SockDgram)
  }

  /** Nothing has arrived, no error is on record, and the limits of the waits are those of a new socket. */
  ghost predicate Empty(s: Sock) {
    && s.chain == [] && s.off == 0 && !s.eof && s.soError == 0
    && s.udpq.count == 0 && |s.udpq.slots| == 8 && s.acceptq.count == 0 && |s.acceptq.slots| == 16
    && s.rcvTimeout == s.sndTimeout == 30000
  }

  /** A stream just made: recv() fails at once, but poll() reports no input. */
  lemma NewStreamDisagrees(nonblock: bool, room: bool)
    ensures var s := NewSock(SOCK_STREAM + if nonblock then SOCK_NONBLOCK else 0);
            && SockOK(s) && s.stype == SockStream && s.nonblock == nonblock
            && RecvLook(s) == Now(-107) && !PollNow(s, room).pollIn
  {
    var kind := SOCK_STREAM + if nonblock then SOCK_NONBLOCK else 0;
    assert kind % 256 == 1 && kind / 2048 % 2 == if nonblock then 1 else 0;
  }

  /** A slot set up afresh: the stream starts from nothing, pbufs are remembered. */
  function ResetLedger(l: Ledger): Ledger {
    l.(received := [], handed := [], credited := 0)
  }

  lemma ResetKeeps(s: Sock, l: Ledger, s': Sock)
    requires SockOK(s) && s.state == SkFree && LedgerOK(s, l)
    requires s' == ResetSock(s'.stype).(state := s'.state, pcb := s'.pcb, upcb := s'.upcb, nonblock := s'.nonblock)
    requires s'.state in {SkFree, SkClosed, SkConnected}
    ensures SockOK(s') && LedgerOK(s', ResetLedger(l)) && s'.acceptq.count == 0
  {
    assert Entries(s.udpq) == [] && Entries(s'.udpq) == [];
  }

  lemma ResetFresh(s: Sock, l: Ledger)
    requires s == ResetSock(SockStream).(rcvTimeout := 0, sndTimeout := 0)
    requires l == Ledger([], [], 0, multiset{}, multiset{})
    ensures SockOK(s) && LedgerOK(s, l) && Entries(s.acceptq) == []
  {
    assert Entries(s.udpq) == [];
  }

  class SockTable {
    const socks: array<Sock>
    var owner: seq<Owner>
    ghost var ledger: seq<Ledger>

    ghost predicate Valid()
      reads this, socks
    {
      && socks.Length == SOCK_MAX && TableOK(socks[..], owner)
      && LedgersOK(socks[..], ledger)
    }

    /** The table at start-up: all slots free. */
    constructor ()
      ensures Valid() && fresh(socks) && forall i :: 0 <= i < SOCK_MAX ==> owner[i] == NoOne
    {
      var zero := ResetSock(SockStream).(rcvTimeout := 0, sndTimeout := 0);
      var all := new Sock[SOCK_MAX](_ => zero);
      socks := all;
      owner := seq(SOCK_MAX, _ => NoOne);
      ledger := seq(SOCK_MAX, _ => Ledger([], [], 0, multiset{}, multiset{}));
      new;
      ResetFresh(zero, ledger[0]);
      forall i | 0 <= i < SOCK_MAX ensures LedgerOK(socks[..][i], ledger[i]) {
        assert socks[..][i] == zero;
      }
    }

    /** Writes one record, which stays with its owner. */
    method SetSock(i: nat, s: Sock, ghost l: Ledger)
      requires Valid() && i < SOCK_MAX && SockOK(s) && LedgerOK(s, l) && s.acceptq == socks[i].acceptq
      requires s.state == SkFree <==> socks[i].state == SkFree
      requires owner[i].Queue? ==> s.stype == SockStream && s.state in {SkConnected, SkError}
      modifies socks, this`ledger
      ensures Valid() && socks[..] == old(socks[..])[i := s] && ledger == old(ledger)[i := l]
    {
      KeepOwner(socks[..], owner, i, s);
      OneLedger(socks[..], ledger, i, s, l);
      socks[i] := s;
      ledger := ledger[i := l];
      assert socks[..] == old(socks[..])[i := s];
    }

    /* ---- lwIP callbacks ---- */

    /** on_recv() with data: appended to the chain, or dropped when lwIP reports an error. */
    method OnRecv(i: nat, p: seq<Pbuf>, err: LwipErr)
      requires Valid() && i < SOCK_MAX && socks[i].stype == SockStream && socks[i].state == SkConnected
      modifies socks, this`ledger
      ensures Valid()
      ensures var s, l := old(socks[i]), old(ledger[i]);
              if err == ErrOk
              then socks[..] == old(socks[..])[i := s.(chain := s.chain + p)]
                   && ledger == old(ledger)[i := l.(received := l.received + ChainBytes(p),
                      arrived := l.arrived + Ids(p))]
              else socks[..] == old(socks[..])
                   && ledger == old(ledger)[i := l.(arrived := l.arrived + Ids(p), freed := l.freed + Ids(p))]
    {
      var s := socks[i];
      assert socks[..][i] == s && LedgerOK(socks[..][i], ledger[i]);
      if err != ErrOk {
        SetSock(i, s, ledger[i].(arrived := ledger[i].arrived + Ids(p), freed := ledger[i].freed + Ids(p)));
        return;
      }
      RecvLedger(s, ledger[i], p);
      SetSock(i, s.(chain := s.chain + p),
              ledger[i].(received := ledger[i].received + ChainBytes(p), arrived := ledger[i].arrived + Ids(p)));
    }

    /** on_recv() with no data: the peer is done sending. */
    method OnFin(i: nat)
      requires Valid() && i < SOCK_MAX && socks[i].stype == SockStream && socks[i].state == SkConnected
      modifies socks, this`ledger
      ensures Valid() && ledger == old(ledger) && socks[..] == old(socks[..])[i := old(socks[i]).(eof := true)]
    {
      assert socks[..][i] == socks[i] && LedgerOK(socks[..][i], ledger[i]);
      SetSock(i, socks[i].(eof := true), ledger[i]);
    }

    /** on_err(): lwIP gave the connection up and freed its pcb. */
    method OnErr(i: nat, err: LwipErr)
      requires Valid() && i < SOCK_MAX && socks[i].stype == SockStream
      requires socks[i].state !in {SkFree, SkListening} && socks[i].pcb
      modifies socks, this`ledger
      ensures Valid() && ledger == old(ledger)
      ensures var s := old(socks[i]);
              socks[..] == old(socks[..])[i := s.(state := SkError, pcb := false, soError :=
                if s.state == SkConnecting then (if err == ErrRst then ECONNREFUSED else ETIMEDOUT)
                else if err == ErrAbrt then ECONNABORTED else ECONNRESET)]
    {
      var s := socks[i];
      assert socks[..][i] == s && LedgerOK(socks[..][i], ledger[i]);
      assert SlotOwned(socks[..], owner, i);
      var code;
      if s.state == SkConnecting {
        code := if err == ErrRst then ECONNREFUSED else ETIMEDOUT;
      } else {
        code := if err == ErrAbrt then ECONNABORTED else ECONNRESET;
      }
      SetSock(i, s.(state := SkError, pcb := false, soError := code), ledger[i]);
    }

    /** on_connected() */
    method OnConnected(i: nat, err: LwipErr)
      requires Valid() && i < SOCK_MAX && socks[i].stype == SockStream && socks[i].state == SkConnecting
      modifies socks, this`ledger
      ensures Valid() && ledger == old(ledger)
      ensures var s := old(socks[i]);
              socks[..] == old(socks[..])[i :=
                if err == ErrOk then s.(state := SkConnected) else s.(state := SkError, soError := ECONNREFUSED)]
    {
      var s := socks[i];
      assert socks[..][i] == s && LedgerOK(socks[..][i], ledger[i]);
      assert SlotOwned(socks[..], owner, i);
      if err == ErrOk {
        SetSock(i, s.(state := SkConnected), ledger[i]);
      } else {
        SetSock(i, s.(state := SkError, soError := ECONNREFUSED), ledger[i]);
      }
    }

    /** on_udp_recv(): a datagram is queued whole, with its sender, or dropped when the ring is full. */
    method OnUdpRecv(i: nat, d: Datagram)
      requires Valid() && i < SOCK_MAX && socks[i].stype == SockDgram && socks[i].state != SkFree
      modifies socks, this`ledger
      ensures Valid()
      ensures var s, l := old(socks[i]), old(ledger[i]);
              if s.udpq.count == UDP_RXQ_MAX
              then socks[..] == old(socks[..])
                   && ledger == old(ledger)[i := l.(arrived := l.arrived + multiset{d.p.id},
                      freed := l.freed + multiset{d.p.id})]
              else socks[..] == old(socks[..])[i := s.(udpq := socks[i].udpq)]
                   && Entries(socks[i].udpq) == Entries(s.udpq) + [d]
                   && ledger == old(ledger)[i := l.(arrived := l.arrived + multiset{d.p.id})]
    {
      var s := socks[i];
      assert socks[..][i] == s && SlotOwned(socks[..], owner, i) && LedgerOK(socks[..][i], ledger[i]);
      if s.udpq.count >= UDP_RXQ_MAX {
        SetSock(i, s, ledger[i].(arrived := ledger[i].arrived + multiset{d.p.id},
            freed := ledger[i].freed + multiset{d.p.id}));
        return;
      }
      UdpPushKeeps(s, ledger[i], d);
      SetSock(i, s.(udpq := Push(s.udpq, d)), ledger[i].(arrived := ledger[i].arrived + multiset{d.p.id}));
    }

    /** alloc_slot(): the lowest free slot, or -1. */
    method AllocSlot() returns (slot: int)
      requires Valid()
      ensures -1 <= slot < SOCK_MAX
      ensures slot == -1 ==> forall i :: 0 <= i < SOCK_MAX ==> socks[..][i].state != SkFree
      ensures slot >= 0 ==> socks[..][slot].state == SkFree && forall i :: 0 <= i < slot ==>
                socks[..][i].state != SkFree
    {
      for i := 0 to SOCK_MAX
        invariant forall k :: 0 <= k < i ==> socks[..][k].state != SkFree
      {
        if socks[i].state == SkFree {
          return i;
        }
      }
      slot := -1;
    }

    /** The part of on_accept() that sets the new slot up and queues it. */
    method QueueConnection(i: nat, slot: nat)
      requires Valid() && i < SOCK_MAX && socks[..][i].state == SkListening && socks[..][i].acceptq.count < ACCEPTQ_MAX
      requires slot < SOCK_MAX && socks[..][slot].state == SkFree
      modifies socks, this`ledger, this`owner
      ensures Valid()
      ensures socks[..] == Enqueued(old(socks[..]), i, slot, ResetSock(SockStream).(state := SkConnected, pcb := true))
      ensures owner == old(owner)[slot := Queue(i)] && ledger == old(ledger)[slot := ResetLedger(old(ledger)[slot])]
      ensures Waiting(socks[..][i]) == Waiting(old(socks[..])[i]) + [slot]
    {
      ghost var all := socks[..];
      var ns := ResetSock(SockStream).(state := SkConnected, pcb := true);
      assert LedgerOK(all[slot], ledger[slot]);
      ResetKeeps(all[slot], ledger[slot], ns);
      OneLedger(all, ledger, slot, ns, ResetLedger(ledger[slot]));
      SameLedger(all[slot := ns], ledger[slot := ResetLedger(ledger[slot])], i, slot);
      EnqueueSlot(all, owner, i, slot, ns);
      PushAppends(all[i].acceptq, slot);
      socks[slot] := ns;
      socks[i] := socks[i].(acceptq := Push(socks[i].acceptq, slot));
      assert socks[..] == Enqueued(all, i, slot, ns);
      owner := owner[slot := Queue(i)];
      ledger := ledger[slot := ResetLedger(ledger[slot])];
    }

    /** on_accept(): the connection gets a slot of its own and joins the listener's ring.  Refusal
        means the table is full; the ring never is. */
    method OnAccept(i: nat, err: LwipErr, havePcb: bool) returns (r: LwipErr, ghost slot: nat)
      requires Valid() && i < SOCK_MAX && socks[..][i].state == SkListening
      modifies socks, this`ledger, this`owner
      ensures Valid()
      ensures err != ErrOk || !havePcb <==> r == ErrVal
      ensures r == ErrMem <==> err == ErrOk && havePcb && forall k :: 0 <= k < SOCK_MAX ==>
                old(socks[..])[k].state != SkFree
      ensures r != ErrOk ==>
                && r in {ErrVal, ErrMem}
                && socks[..] == old(socks[..]) && owner == old(owner) && ledger == old(ledger)
      ensures r == ErrOk ==>
                && slot < SOCK_MAX && old(socks[..])[slot].state == SkFree
                && (forall k :: 0 <= k < slot ==> old(socks[..])[k].state != SkFree)
                && socks[..] == Enqueued(old(socks[..]), i, slot,
                   ResetSock(SockStream).(state := SkConnected, pcb := true))
                && owner == old(owner)[slot := Queue(i)]
                && ledger == old(ledger)[slot := ResetLedger(old(ledger)[slot])]
                && Waiting(socks[..][i]) == Waiting(old(socks[..])[i]) + [slot]
    {
      slot := 0;
      if err != ErrOk || !havePcb {
        return ErrVal, 0;
      }
      RingNeverFull(socks[..], owner, i);
      var found := -1;
      if socks[i].acceptq.count < ACCEPTQ_MAX {
        found := AllocSlot();
      }
      if found < 0 {
        return ErrMem, 0;
      }
      QueueConnection(i, found);
      return ErrOk, found;
    }

    /* ---- calls ---- */

    /** Writes a free slot: for the application, or leaving it free. */
    method SetUp(slot: nat, s: Sock, o: Owner)
      requires Valid() && slot < SOCK_MAX && socks[..][slot].state == SkFree
      requires s == ResetSock(s.stype).(state := s.state, pcb := s.pcb, upcb := s.upcb, nonblock := s.nonblock)
      requires if o == App then s.state == SkClosed else o == NoOne && s.state == SkFree
      modifies socks, this`ledger, this`owner
      ensures Valid() && socks[..] == old(socks[..])[slot := s] && owner == old(owner)[slot := o]
      ensures o == NoOne ==> owner == old(owner)
    {
      ghost var all := socks[..];
      assert SlotOwned(all, owner, slot) && LedgerOK(all[slot], ledger[slot]);
      ResetKeeps(all[slot], ledger[slot], s);
      OneLedger(all, ledger, slot, s, ResetLedger(ledger[slot]));
      ReplaceOwner(all, owner, slot, s, o);
      assert o == NoOne ==> owner[slot := o] == owner;
      socks[slot] := s;
      owner := owner[slot := o];
      ledger := ledger[slot := ResetLedger(ledger[slot])];
      assert socks[..] == all[slot := s];
    }

    /** socket(); created says whether lwIP had a pcb to give. */
    method Socket(domain: int, kind: int, created: bool) returns (r: int)
      requires Valid()
      modifies socks, this`ledger, this`owner
      ensures Valid()
      // AF_INET is 2, SOCK_STREAM 1 and SOCK_DGRAM 2; SOCK_NONBLOCK is bit 11
      ensures r == -97 <==> domain != 2 || kind % 256 !in {1, 2}
      ensures r == -24 <==> domain == 2 && kind % 256 in {1, 2} && forall k :: 0 <= k < SOCK_MAX ==>
                old(socks[..])[k].state != SkFree
      ensures r == -24 || r == -97 ==> socks[..] == old(socks[..]) && owner == old(owner)
      ensures r == -12 ==> !created && owner == old(owner)
                               && forall k :: 0 <= k < SOCK_MAX && old(socks[..])[k].state != SkFree ==>
                                    socks[..][k] == old(socks[..])[k]
      // success: a free slot, set up afresh, becomes the application's
      ensures r >= 0 ==>
                && created && SOCK_FD_BASE <= r < SOCK_FD_BASE + SOCK_MAX
                && old(socks[..])[r - SOCK_FD_BASE].state == SkFree
                && owner == old(owner)[r - SOCK_FD_BASE := App]
                && socks[..] == old(socks[..])[r - SOCK_FD_BASE := socks[..][r - SOCK_FD_BASE]]
                && var s := socks[..][r - SOCK_FD_BASE];
                   && s.stype == (if kind % 256 == 2 then SockDgram else SockStream)
                   && s.state == SkClosed && (s.nonblock <==> kind / 2048 % 2 == 1)
                   && s.pcb == (kind % 256 == 1) && s.upcb == (kind % 256 == 2)
                   && Empty(s)
      ensures r >= 0 || r in {-24, -12, -97}
    {
      if !Supported(domain, kind) {
        return -EAFNOSUPPORT;
      }
      var slot := AllocSlot();
      if slot < 0 {
        return -EMFILE;
      }
      var s := ResetSock(BaseType(kind)).(nonblock := WantsNonblock(kind));
      if !created {
        SetUp(slot, s, NoOne);
        return -ENOMEM;
      }
      SetUp(slot, NewSock(kind), App);
      return SOCK_FD_BASE + slot;
    }

    /** listen(); lwIP turns only an unconnected pcb, or one already listening, into a listener. */
    method Listen(i: nat, listening: bool) returns (r: int)
      requires Valid() && i < SOCK_MAX && owner[i] == App
      requires listening ==> socks[..][i].pcb && socks[..][i].state in {SkClosed, SkError, SkListening}
      modifies socks, this`ledger
      ensures Valid() && ledger == old(ledger)
      ensures var s := old(socks[..])[i];
              if s.stype != SockStream then r == -EOPNOTSUPP && socks[..] == old(socks[..])
              else if !listening then r == -EADDRINUSE && socks[..] == old(socks[..])
              else r == 0 && socks[..] == old(socks[..])[i := s.(state := SkListening)]
    {
      var s := socks[i];
      assert socks[..][i] == s && SlotOwned(socks[..], owner, i) && LedgerOK(socks[..][i], ledger[i]);
      if s.stype != SockStream {
        return -EOPNOTSUPP;
      }
      if !listening {
        return -EADDRINUSE;
      }
      SetSock(i, s.(state := SkListening), ledger[i]);
      return 0;
    }

    /** connect() of a datagram socket: only a default destination. */
    method ConnectDgram(i: nat, accepted: bool) returns (r: int)
      requires Valid() && i < SOCK_MAX && owner[i] == App && socks[..][i].stype == SockDgram
      modifies socks, this`ledger
      ensures Valid() && ledger == old(ledger)
      ensures if accepted then r == 0 && socks[..] == old(socks[..])[i := old(socks[..])[i].(state := SkConnected)]
              else r == -ECONNREFUSED && socks[..] == old(socks[..])
    {
      if !accepted {
        return -ECONNREFUSED;
      }
      var s := socks[i];
      assert socks[..][i] == s && SlotOwned(socks[..], owner, i) && LedgerOK(socks[..][i], ledger[i]);
      SetSock(i, s.(state := SkConnected), ledger[i]);
      r := 0;
    }

    /** connect() of a stream up to its wait; Wait says the connection is under way. */
    method ConnectStart(i: nat, started: bool) returns (r: Look)
      requires Valid() && i < SOCK_MAX && owner[i] == App && socks[..][i].stype == SockStream
      modifies socks, this`ledger
      ensures Valid() && ledger == old(ledger)
      ensures var s := old(socks[..])[i];
              match s.state
              case SkConnecting => r == Now(-EALREADY) && socks[..] == old(socks[..])
              case SkConnected => r == Now(-EISCONN) && socks[..] == old(socks[..])
              case _ =>
                if s.state != SkClosed || !s.pcb then r == Now(-EINVAL) && socks[..] == old(socks[..])
                else if started then r == Wait && socks[..] == old(socks[..])[i := s.(state := SkConnecting)]
                else r == Now(-ECONNREFUSED) && socks[..] == old(socks[..])[i := s.(state := SkError)]
    {
      var s := socks[i];
      assert socks[..][i] == s && SlotOwned(socks[..], owner, i) && LedgerOK(socks[..][i], ledger[i]);
      if s.state == SkConnecting {
        return Now(-EALREADY);
      }
      if s.state == SkConnected {
        return Now(-EISCONN);
      }
      if s.state != SkClosed || !s.pcb {
        return Now(-EINVAL);
      }
      if !started {
        SetSock(i, s.(state := SkError), ledger[i]);
        return Now(-ECONNREFUSED);
      }
      SetSock(i, s.(state := SkConnecting), ledger[i]);
      r := Wait;
    }

    /** The end of connect(): the outcome, and SO_ERROR is consumed. */
    method ConnectEnd(i: nat) returns (r: int)
      requires Valid() && i < SOCK_MAX
      modifies socks, this`ledger
      ensures Valid() && ledger == old(ledger)
      ensures var s := old(socks[..])[i];
              if s.state == SkConnected then r == 0 && socks[..] == old(socks[..])
              else r == -(if s.soError != 0 then s.soError else ECONNREFUSED)
                   && socks[..] == old(socks[..])[i := s.(soError := 0)]
    {
      var s := socks[i];
      assert socks[..][i] == s && SlotOwned(socks[..], owner, i) && LedgerOK(socks[..][i], ledger[i]);
      if s.state == SkConnected {
        return 0;
      }
      SetSock(i, s.(soError := 0), ledger[i]);
      r := -(if s.soError != 0 then s.soError else ECONNREFUSED);
    }

    /** The last part of accept(): the oldest waiting connection becomes the application's. */
    method AcceptPop(i: nat, nonblock: bool) returns (slot: nat)
      requires Valid() && i < SOCK_MAX && socks[..][i].acceptq.count > 0
      modifies socks, this`owner
      ensures Valid() && ledger == old(ledger)
      ensures slot == Waiting(old(socks[..])[i])[0] && slot < SOCK_MAX && slot != i
      ensures old(owner)[slot] == Queue(i) && owner == old(owner)[slot := App]
      ensures socks[..] == Dequeued(old(socks[..]), i, slot, old(socks[..])[slot].(nonblock := nonblock))
    {
      ghost var all := socks[..];
      slot := socks[i].acceptq.slots[socks[i].acceptq.head];
      PopDrops(all[i].acceptq);
      RingExcludes(all, owner, i, slot);
      var s := socks[slot].(nonblock := nonblock);
      assert LedgerOK(all[slot], ledger[slot]);
      DequeueSlot(all, owner, i, slot, s, App);
      DequeueLedgers(all, ledger, i, slot, s, ledger[slot]);
      assert ledger[slot := ledger[slot]] == ledger;
      WriteDequeued(i, slot, s);
      owner := owner[slot := App];
    }

    /** The listener's ring moves on, and the slot that left it is written. */
    method WriteDequeued(i: nat, slot: nat, s: Sock)
      requires socks.Length == SOCK_MAX && i < SOCK_MAX && slot < SOCK_MAX && i != slot
      requires |socks[i].acceptq.slots| > 0 && socks[i].acceptq.count > 0
      modifies socks
      ensures socks[..] == Dequeued(old(socks[..]), i, slot, s)
    {
      socks[i] := socks[i].(acceptq := Pop(socks[i].acceptq));
      socks[slot] := s;
    }

    /** bsock_read(): up to len bytes from the first pbuf, freed once it is used up. */
    method BsockRead(i: nat, len: nat) returns (got: seq<Octet>)
      requires Valid() && i < SOCK_MAX && socks[..][i].stype == SockStream && socks[..][i].chain != [] && len > 0
      modifies socks, this`ledger
      ensures Valid()
      ensures old(socks[..])[i].off <= |old(socks[..])[i].chain[0].data|
      ensures var s, l := old(socks[..])[i], old(ledger)[i];
              var r := ReadOne(s.chain, s.off, len);
              && got == r.got && |got| <= len
              && socks[..] == old(socks[..])[i := ReadSock(s, r)] && ledger == old(ledger)[i := ReadLedger(s, l, r)]
    {
      var s := socks[i];
      assert socks[..][i] == s && SlotOwned(socks[..], owner, i) && LedgerOK(socks[..][i], ledger[i]);
      ReadOneKeeps(s, ledger[i], len);
      var chain, off;
      got, chain, off := ReadFront(s, len);
      SetSock(i, s.(chain := chain, off := off), ReadLedger(s, ledger[i], ReadOne(s.chain, s.off, len)));
    }

    /** memcpy() from the first pbuf, and whether it is used up. */
    method ReadFront(s: Sock, len: nat) returns (got: seq<Octet>, chain: seq<Pbuf>, off: nat)
      requires s.chain != [] && s.off <= |s.chain[0].data|
      ensures var r := ReadOne(s.chain, s.off, len); got == r.got && chain == r.chain && off == r.off
    {
      var p := s.chain[0];
      var avail := |p.data| - s.off;
      var n := if len < avail then len else avail;
      got := p.data[s.off..s.off + n];
      chain, off := s.chain, s.off + n;
      if off == |p.data| {
        chain, off := chain[1..], 0;
      }
    }

    /** The loop of recv() on a stream: everything that fits, without waiting again. */
    method RecvQueued(i: nat, len: nat) returns (got: seq<Octet>)
      requires Valid() && i < SOCK_MAX && socks[..][i].stype == SockStream && socks[..][i].state != SkFree
      modifies socks, this`ledger
      ensures Valid()
      ensures ChainOK(old(socks[..])[i].chain, old(socks[..])[i].off)
      ensures var s, l := old(socks[..])[i], old(ledger)[i];
              var r := Drain(s.chain, s.off, len);
              && got == r.got
              && socks[..] == old(socks[..])[i := ReadSock(s, r)] && ledger == old(ledger)[i := ReadLedger(s, l, r)]
    {
      got := [];
      ghost var s, l := socks[..][i], ledger[i];
      assert SockOK(s);
      ghost var done := Read([], s.chain, s.off, []);
      ReadingStart(s, l, len);
      while |got| < len && socks[i].chain != []
        invariant Valid() && got == done.got && socks[..][i].stype == SockStream
        invariant socks[..] == old(socks[..])[i := socks[..][i]] && ledger == old(ledger)[i := ledger[i]]
        invariant Reading(s, l, len, done, socks[..][i], ledger[i])
        decreases |socks[i].chain|, len - |got|
      {
        var piece;
        piece, done := RecvTurn(i, len - |got|, s, l, len, done);
        got := got + piece;
      }
      ReadingEnd(s, l, len, done, socks[..][i], ledger[i]);
    }

    /** One turn of that loop. */
    method RecvTurn(i: nat, left: nat, ghost s: Sock, ghost l: Ledger, ghost len: nat, ghost done: Read)
        returns (piece: seq<Octet>, ghost done': Read)
      requires Valid() && i < SOCK_MAX && socks[..][i].stype == SockStream && socks[..][i].chain != [] && left > 0
      requires ChainOK(s.chain, s.off) && Reading(s, l, len, done, socks[..][i], ledger[i]) && left == len - |done.got|
      modifies socks, this`ledger
      ensures Valid() && socks[..][i].stype == SockStream && done'.got == done.got + piece
      ensures socks[..] == old(socks[..])[i := socks[..][i]] && ledger == old(ledger)[i := ledger[i]]
      ensures Reading(s, l, len, done', socks[..][i], ledger[i])
      ensures |socks[i].chain| < |old(socks[i]).chain| || (|piece| > 0 && |socks[i].chain| == |old(socks[i]).chain|)
    {
      ReadingStep(s, l, len, done, socks[..][i], ledger[i]);
      done' := Then(done, ReadOne(socks[..][i].chain, socks[..][i].off, left));
      piece := BsockRead(i, left);
    }

    /** The loop of recvmsg() on a stream. */
    method ScatterQueued(i: nat, lens: seq<nat>) returns (pieces: seq<seq<Octet>>)
      requires Valid() && i < SOCK_MAX && socks[..][i].stype == SockStream && socks[..][i].state != SkFree
      modifies socks, this`ledger
      ensures Valid()
      ensures ChainOK(old(socks[..])[i].chain, old(socks[..])[i].off)
      // the slot, the ledger and the bytes are those of one recv() of the total capacity
      ensures var s, l := old(socks[..])[i], old(ledger)[i];
              var r := Drain(s.chain, s.off, Sum(lens));
              && |r.got| <= Sum(lens) && |pieces| <= |lens| && Padded(pieces, |lens|) == Cut(r.got, lens)
              && socks[..] == old(socks[..])[i := ReadSock(s, r)] && ledger == old(ledger)[i := ReadLedger(s, l, r)]
    {
      pieces := [];
      var k := 0;
      ghost var s, l := socks[..][i], ledger[i];
      assert SockOK(s);
      ghost var done := Read([], s.chain, s.off, []);
      ScatteringStart(s, l, lens);
      while k < |lens| && socks[i].chain != []
        invariant 0 <= k <= |lens| && |pieces| == k
        invariant Valid() && socks[..][i].stype == SockStream && socks[..][i].state != SkFree
        invariant socks[..] == old(socks[..])[i := socks[..][i]] && ledger == old(ledger)[i := ledger[i]]
        invariant Scattering(s, l, lens, k, pieces, done, socks[..][i], ledger[i])
        decreases |lens| - k
      {
        var piece;
        piece, done := ScatterTurn(i, lens, k, s, l, pieces, done);
        pieces, k := pieces + [piece], k + 1;
      }
      ScatteringEnd(s, l, lens, k, pieces, done, socks[..][i], ledger[i]);
      ScatterIsRecv(s.chain, s.off, lens);
    }

    /** One turn of that loop: buffer k. */
    method ScatterTurn(i: nat, lens: seq<nat>, k: nat, ghost s: Sock, ghost l: Ledger, ghost pieces: seq<seq<Octet>>,
                       ghost done: Read)
        returns (piece: seq<Octet>, ghost done': Read)
      requires Valid() && i < SOCK_MAX && socks[..][i].stype == SockStream && socks[..][i].state != SkFree
      requires k < |lens| && socks[..][i].chain != [] && ChainOK(s.chain, s.off)
      requires Scattering(s, l, lens, k, pieces, done, socks[..][i], ledger[i])
      modifies socks, this`ledger
      ensures Valid() && socks[..][i].stype == SockStream && socks[..][i].state != SkFree
      ensures socks[..] == old(socks[..])[i := socks[..][i]] && ledger == old(ledger)[i := ledger[i]]
      ensures Scattering(s, l, lens, k + 1, pieces + [piece], done', socks[..][i], ledger[i])
    {
      ScatteringStep(s, l, lens, k, pieces, done, socks[..][i], ledger[i]);
      done' := Then(done, Drain(socks[..][i].chain, socks[..][i].off, lens[k]));
      piece := RecvQueued(i, lens[k]);
    }

    /** The pbufs still queued are freed one by one, and the slot is free. */
    method FreeRecord(i: nat)
      requires socks.Length == SOCK_MAX && i < SOCK_MAX && |ledger| == SOCK_MAX
      modifies socks, this`ledger
      ensures socks[..] == old(socks[..])[i := FreedSock(old(socks[..])[i])]
      ensures ledger == old(ledger)[i := FreedLedger(old(socks[..])[i], old(ledger)[i])]
    {
      ghost var freed := DropChain(i);
      ghost var l := ledger[i];
      ledger := ledger[i := l.(freed := l.freed + freed)];
      socks[i] := socks[i].(state := SkFree);
      assert socks[..] == old(socks[..])[i := FreedSock(old(socks[..])[i])];
    }

    /** while (s->rx_head): unlink the first pbuf and free it */
    method DropChain(i: nat) returns (ghost freed: multiset<nat>)
      requires i < socks.Length
      modifies socks
      ensures socks[..] == old(socks[..])[i := old(socks[..])[i].(chain := [])]
      ensures freed == Ids(old(socks[..])[i].chain)
    {
      ghost var all, s := socks[..], socks[..][i];
      freed := multiset{};
      var rest := socks[i].chain;
      assert socks[..] == all[i := s.(chain := rest)];
      while rest != []
        invariant socks[..] == all[i := s.(chain := rest)]
        invariant freed + Ids(rest) == Ids(s.chain)
        decreases |rest|
      {
        freed := freed + multiset{rest[0].id};
        SetChain(i, all, s, rest[1..]);
        rest := socks[i].chain;
      }
    }

    /** s->rx_head = rest */
    method SetChain(i: nat, ghost all: seq<Sock>, ghost s: Sock, rest: seq<Pbuf>)
      requires i < socks.Length && |all| == socks.Length && socks[..] == all[i := s.(chain := socks[..][i].chain)]
      modifies socks
      ensures socks[..] == all[i := s.(chain := rest)] && socks[i].chain == rest
    {
      assert socks[i] == socks[..][i] == s.(chain := socks[i].chain);
      socks[i] := socks[i].(chain := rest);
    }

    /** Frees the oldest waiting connection of listener i: close_queued_conn(). */
    method CloseQueuedConn(i: nat) returns (slot: nat)
      requires Valid() && i < SOCK_MAX && socks[..][i].acceptq.count > 0
      modifies socks, this`ledger, this`owner
      ensures Valid() && slot == Waiting(old(socks[..])[i])[0] && slot < SOCK_MAX && slot != i
      ensures socks[..] == Dequeued(old(socks[..]), i, slot, FreedSock(old(socks[..])[slot]))
      ensures owner == old(owner)[slot := NoOne]
      ensures ledger == old(ledger)[slot := FreedLedger(old(socks[..])[slot], old(ledger)[slot])]
    {
      ghost var all := socks[..];
      slot := socks[i].acceptq.slots[socks[i].acceptq.head];
      PopDrops(all[i].acceptq);
      RingExcludes(all, owner, i, slot);
      ghost var s, g := FreedSock(all[slot]), FreedLedger(all[slot], ledger[slot]);
      assert LedgerOK(all[slot], ledger[slot]);
      FreedKeeps(all[slot], ledger[slot]);
      DequeueSlot(all, owner, i, slot, s, NoOne);
      DequeueLedgers(all, ledger, i, slot, s, g);
      socks[i] := socks[i].(acceptq := Pop(socks[i].acceptq));
      assert socks[..][slot] == all[slot];
      FreeRecord(slot);
      owner := owner[slot := NoOne];
      assert socks[..] == Dequeued(all, i, slot, s);
    }

    /** Everything still waiting in the listener's ring is freed. */
    method CloseRing(i: nat)
      requires Valid() && i < SOCK_MAX
      modifies socks, this`ledger, this`owner
      ensures Valid() && socks[..][i].acceptq.count == 0
      ensures var q := Waiting(old(socks[..])[i]);
              && RingFreed(old(socks[..]), socks[..], i, q)
              && OwnersFreed(old(owner), owner, q) && LedgersFreed(old(socks[..]), old(ledger), ledger, q)
    {
      ghost var all, q, n := socks[..], Waiting(socks[..][i]), 0;
      ghost var owner0, ledger0 := owner, ledger;
      assert RingOwned(all, owner, i);
      CloseRingStart(all, owner, ledger, i);
      while socks[i].acceptq.count > 0
        invariant 0 <= n <= |q| && Valid() && Waiting(socks[..][i]) == q[n..]
        invariant RingFreed(all, socks[..], i, q[..n])
        invariant OwnersFreed(owner0, owner, q[..n]) && LedgersFreed(all, ledger0, ledger, q[..n])
        decreases socks[i].acceptq.count
      {
        CloseOne(i, all, owner0, ledger0, q, n);
        n := n + 1;
      }
      assert q[..n] == q;
    }

    method CloseOne(i: nat, ghost all: seq<Sock>, ghost owner0: seq<Owner>, ghost ledger0: seq<Ledger>,
                    ghost q: seq<nat>, ghost n: nat)
      requires Valid() && i < SOCK_MAX && SocksOK(all) && |owner0| == |ledger0| == SOCK_MAX
      requires n < |q| && NoDup(q) && Waiting(socks[..][i]) == q[n..] && socks[..][i].acceptq.count > 0
      requires RingFreed(all, socks[..], i, q[..n])
      requires OwnersFreed(owner0, owner, q[..n]) && LedgersFreed(all, ledger0, ledger, q[..n])
      modifies socks, this`ledger, this`owner
      ensures Valid() && Waiting(socks[..][i]) == q[n + 1..]
      ensures socks[i].acceptq.count < old(socks[i].acceptq.count)
      ensures RingFreed(all, socks[..], i, q[..n + 1])
      ensures OwnersFreed(owner0, owner, q[..n + 1]) && LedgersFreed(all, ledger0, ledger, q[..n + 1])
    {
      ghost var now := socks[..];
      PopDrops(now[i].acceptq);
      RingExcludes(now, owner, i, q[n]);
      RingFreedStep(all, now, i, q, n);
      assert q[..n + 1] == q[..n] + [q[n]] && q[n] !in q[..n];
      var slot := CloseQueuedConn(i);
    }

    /** close() of a datagram socket: each queued datagram is freed. */
    method CloseDgram(i: nat)
      requires Valid() && i < SOCK_MAX && owner[i] == App && socks[..][i].stype == SockDgram
      modifies socks, this`ledger, this`owner
      ensures Valid() && owner == old(owner)[i := NoOne]
      ensures var s, l := old(socks[..])[i], old(ledger)[i];
              && socks[..] == old(socks[..])[i := s.(udpq := socks[..][i].udpq, state := SkFree)]
                 && socks[..][i].udpq.count == 0
              && ledger == old(ledger)[i := l.(freed := l.freed + DgramIds(Entries(s.udpq)))]
    {
      ghost var all, s, l := socks[..], socks[..][i], ledger[i];
      assert LedgerOK(s, l) && SlotOwned(all, owner, i);
      var rest;
      ghost var gone;
      rest, gone := DropDatagrams(i, socks[i].udpq);
      ghost var g := l.(freed := l.freed + DgramIds(gone));
      socks[i] := socks[i].(state := SkFree);
      ghost var s' := socks[..][i];
      DgramFreed(s, l, s', g);
      FreeSlot(all, owner, i, s');
      OneLedger(all, ledger, i, s', g);
      owner := owner[i := NoOne];
      ledger := ledger[i := g];
      assert socks[..] == all[i := s'];
    }

    /** while (s->udpq_count > 0): free the oldest datagram */
    method DropDatagrams(i: nat, r: Ring<Datagram>) returns (rest: Ring<Datagram>, ghost gone: seq<Datagram>)
      requires i < socks.Length && RingOK(r) && socks[i].udpq == r
      modifies socks
      ensures RingOK(rest) && rest.count == 0 && |rest.slots| == |r.slots|
      ensures socks[..] == old(socks[..])[i := old(socks[..])[i].(udpq := rest)]
      ensures gone == Entries(r)
    {
      gone := [];
      rest := r;
      while rest.count > 0
        invariant RingOK(rest) && |rest.slots| == |r.slots|
        invariant socks[..] == old(socks[..])[i := old(socks[..])[i].(udpq := rest)]
        invariant gone + Entries(rest) == Entries(r)
        decreases rest.count
      {
        rest, gone := DropDatagram(i, rest, gone);
      }
    }

    method DropDatagram(i: nat, r: Ring<Datagram>, ghost gone: seq<Datagram>)
        returns (rest: Ring<Datagram>, ghost gone': seq<Datagram>)
      requires i < socks.Length && RingOK(r) && r.count > 0
      modifies socks
      ensures socks[..] == old(socks[..])[i := old(socks[..])[i].(udpq := rest)]
      ensures RingOK(rest) && rest.count == r.count - 1 && |rest.slots| == |r.slots|
      ensures gone' + Entries(rest) == gone + Entries(r)
    {
      PopDrops(r);
      gone' := gone + [r.slots[r.head]];
      rest := Pop(r);
      SetUdpq(i, rest);
    }

    method SetUdpq(i: nat, r: Ring<Datagram>)
      requires i < socks.Length
      modifies socks
      ensures socks[..] == old(socks[..])[i := old(socks[..])[i].(udpq := r)]
    {
      socks[i] := socks[i].(udpq := r);
    }

    /** The end of close() for a stream socket. */
    method CloseStream(i: nat)
      requires Valid() && i < SOCK_MAX && owner[i] == App
      requires socks[..][i].stype == SockStream && socks[..][i].acceptq.count == 0
      modifies socks, this`ledger, this`owner
      ensures Valid() && owner == old(owner)[i := NoOne]
      ensures socks[..] == old(socks[..])[i := FreedSock(old(socks[..])[i])]
      ensures ledger == old(ledger)[i := FreedLedger(old(socks[..])[i], old(ledger)[i])]
    {
      ghost var all, s, l := socks[..], socks[..][i], ledger[i];
      assert LedgerOK(s, l);
      FreedKeeps(s, l);
      FreeSlot(all, owner, i, FreedSock(s));
      OneLedger(all, ledger, i, FreedSock(s), FreedLedger(s, l));
      FreeRecord(i);
      owner := owner[i := NoOne];
    }

    /** close(): the slot is free again, and with a listener every slot waiting in its ring. */
    method Close(i: nat)
      requires Valid() && i < SOCK_MAX && owner[i] == App
      modifies socks, this`ledger, this`owner
      ensures Valid() && socks[..][i].state == SkFree && owner[i] == NoOne
      ensures var q := Waiting(old(socks[..])[i]);
              forall k :: 0 <= k < SOCK_MAX && k != i ==>
                && socks[..][k] == (if k in q then FreedSock(old(socks[..])[k]) else old(socks[..])[k])
                && owner[k] == (if k in q then NoOne else old(owner)[k])
      // a pbuf of this socket, or of a connection it never handed out, is freed now if it was not before
      ensures forall k :: 0 <= k < SOCK_MAX ==> ledger[k].arrived == old(ledger)[k].arrived
      ensures forall k :: 0 <= k < SOCK_MAX && socks[..][k].state == SkFree ==> ledger[k].freed == ledger[k].arrived
    {
      assert SlotOwned(socks[..], owner, i) && SockOK(socks[..][i]);
      NotInOwnRing(socks[..], owner, i);
      if socks[i].stype == SockDgram {
        CloseDgram(i);
      } else {
        CloseWaiting(i);
        CloseStream(i);
      }
      Settled(socks[..], ledger);
    }

    /** if (s->pcb && s->state == SK_LISTENING): the connections nobody accepted */
    method CloseWaiting(i: nat)
      requires Valid() && i < SOCK_MAX && owner[i] == App && socks[..][i].stype == SockStream
      modifies socks, this`ledger, this`owner
      ensures Valid() && owner[i] == App
      ensures socks[..][i] == old(socks[..])[i].(acceptq := socks[..][i].acceptq) && socks[..][i].acceptq.count == 0
      ensures forall k :: 0 <= k < SOCK_MAX && k != i ==>
                var freed := k in Waiting(old(socks[..])[i]);
                && socks[..][k] == (if freed then FreedSock(old(socks[..])[k]) else old(socks[..])[k])
                && owner[k] == (if freed then NoOne else old(owner)[k])
      ensures forall k :: 0 <= k < SOCK_MAX ==> ledger[k].arrived == old(ledger)[k].arrived
    {
      NotInOwnRing(socks[..], owner, i);
      assert SockOK(socks[..][i]);
      if socks[i].pcb {
        if socks[i].state == SkListening {
          CloseRing(i);
        }
      }
    }

    /** udp_do_recvv(): the oldest datagram goes into the buffers, what does not fit is lost. */
    method UdpDoRecvv(i: nat, lens: seq<nat>)
        returns (pieces: seq<seq<Octet>>, n: nat, truncated: bool, addr: nat, port: nat)
      requires Valid() && i < SOCK_MAX && socks[..][i].stype == SockDgram && socks[..][i].udpq.count > 0
      modifies socks, this`ledger
      ensures Valid()
      ensures var s, l := old(socks[..])[i], old(ledger)[i];
              var d := Entries(s.udpq)[0];
              && n == Least(|d.p.data|, Sum(lens)) && Padded(pieces, |lens|) == Cut(d.p.data[..n], lens)
              && (truncated <==> n < |d.p.data|) && addr == d.addr && port == d.port
              && socks[..] == old(socks[..])[i := s.(udpq := socks[..][i].udpq)]
              && Entries(socks[..][i].udpq) == Entries(s.udpq)[1..]
              && ledger == old(ledger)[i := l.(freed := l.freed + multiset{d.p.id})]
    {
      var s := socks[i];
      assert socks[..][i] == s && SlotOwned(socks[..], owner, i) && LedgerOK(socks[..][i], ledger[i]);
      UdpPopKeeps(s, ledger[i]);
      var d := s.udpq.slots[s.udpq.head];
      pieces, n := CopyOut(d.p.data, lens);
      truncated, addr, port := n < |d.p.data|, d.addr, d.port;
      SetSock(i, s.(udpq := Pop(s.udpq)), ledger[i].(freed := ledger[i].freed + multiset{d.p.id}));
    }

    /** The copying loop of udp_do_recvv(). */
    method CopyOut(data: seq<Octet>, lens: seq<nat>) returns (pieces: seq<seq<Octet>>, n: nat)
      ensures n == Least(|data|, Sum(lens)) && Padded(pieces, |lens|) == Cut(data[..n], lens)
    {
      pieces, n := [], 0;
      var k := 0;
      CopyingStart(data, lens);
      while k < |lens| && n < |data|
        invariant 0 <= k <= |lens| && n <= |data| && Copying(data, lens, k, pieces, n)
        decreases |lens| - k
      {
        CopyingStep(data, lens, k, pieces, n);
        var left := |data| - n;
        var chunk := if lens[k] < left then lens[k] else left;
        pieces := pieces + [data[n..n + chunk]];
        n := n + chunk;
        k := k + 1;
      }
      CopyingEnd(data, lens, k, pieces, n);
    }
  }
}
