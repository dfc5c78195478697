/** The calls that wait (port/net_shim.c): each looks, polls lwIP once, looks again, and sleeps.
    What lwIP and other threads do at those points is an arbitrary script. */
module NetCalls {
  import opened NetModel
  import opened NetTable
  import opened NetShim

  /** A callback from lwIP, or a call another thread completes while this one sleeps. */
  datatype Event =
    | Data(i: nat, p: seq<Pbuf>, err: LwipErr)
    | Fin(i: nat)
    | Failure(i: nat, err: LwipErr)
    | Up(i: nat, err: LwipErr)
    | Incoming(i: nat, err: LwipErr, havePcb: bool)
    | Dgram(i: nat, d: Datagram)
    | DoSocket(domain: int, kind: int, created: bool)
    | DoListen(i: nat, listening: bool)
    | DoConnect(i: nat, started: bool)
    | DoAccept(i: nat, nonblock: bool)
    | DoRecv(i: nat, len: nat)
    | DoRecvDgram(i: nat, lens: seq<nat>)
    | DoClose(i: nat)

  /** block_timed_out(): times are 32-bit milliseconds, 0 means no limit. */
  predicate TimedOut(start: nat, now: nat, ms: nat) {
    ms != 0 && (now - start) % 0x1_0000_0000 >= ms % 0x1_0000_0000
  }

  /** Counting in 32 bits, the limit is over once `passed` milliseconds are at least ms, unless there is none; a
      whole turn of the counter is not noticed. */
  lemma TimedOutIs(start: nat, passed: nat, ms: nat)
    requires ms < 0x1_0000_0000
    ensures TimedOut(start % 0x1_0000_0000, (start + passed) % 0x1_0000_0000, ms)
            <==> ms > 0 && passed % 0x1_0000_0000 >= ms
    ensures passed < 0x1_0000_0000 ==> (TimedOut(start, start + passed, ms) <==> ms > 0 && passed >= ms)
  {
    Modulo(start, passed);
  }

  lemma Modulo(start: nat, passed: nat)
    ensures ((start + passed) % 0x1_0000_0000 - start % 0x1_0000_0000) % 0x1_0000_0000 == passed % 0x1_0000_0000
  {
  }

  /** What the wait loops came to when they return. */
  datatype Received = Got(data: seq<Octet>) | Failed(err: int) | Blocked

  /** The sender of a datagram, as recvmsg() reports it. */
  datatype Sender = Nobody | At(addr: nat, port: nat)

  /** How connect() ended: before waiting, with the handshake's outcome, or giving the wait up. */
  datatype ConnectEnding = AtOnce | Settled | Pending | Late | Broken | CutOff

  /** What connect() answers without waiting; Wait if it starts a handshake. */
  function ConnectAnswer(s: Sock, addrOK: bool, accepted: bool): (r: Look)
    ensures r == Wait <==> addrOK && s.stype != SockDgram && s.state == SkClosed && s.pcb && accepted
    ensures r == Now(0) <==> addrOK && s.stype == SockDgram && accepted
    ensures r == Now(-114) <==> addrOK && s.stype != SockDgram && s.state == SkConnecting
    ensures r == Now(-106) <==> addrOK && s.stype != SockDgram && s.state == SkConnected
    ensures r == Now(-111) <==>
            addrOK && !accepted && (s.stype == SockDgram || (s.state == SkClosed && s.pcb))
    ensures r.Now? ==> r.r in {0, -22, -106, -111, -114}
  {
    if !addrOK then Now(-EINVAL)
    else if s.stype == SockDgram then Now(if accepted then 0 else -ECONNREFUSED)
    else if s.state == SkConnecting then Now(-EALREADY)
    else if s.state == SkConnected then Now(-EISCONN)
    else if s.state != SkClosed || !s.pcb then Now(-EINVAL)
    else if accepted then Wait else Now(-ECONNREFUSED)
  }

  /** What such an answer leaves the socket as. */
  function AfterAnswer(s: Sock, addrOK: bool, accepted: bool): Sock {
    if addrOK && s.stype == SockDgram && accepted then s.(state := SkConnected)
    else if addrOK && s.stype == SockStream && s.state == SkClosed && s.pcb && !accepted then s.(state := SkError)
    else s
  }

  class Net {
    const table: SockTable
    const script: nat -> seq<Event>
    const clock: nat -> nat
    const interrupted: nat -> bool
    var step: nat

    constructor (table: SockTable, script: nat -> seq<Event>, clock: nat -> nat, interrupted: nat -> bool)
      requires table.Valid()
      ensures Valid() && this.table == table && step == 0
    {
      this.table, this.script, this.clock, this.interrupted := table, script, clock, interrupted;
      step := 0;
    }

    ghost predicate Valid()
      reads table, table.socks
    {
      table.Valid()
    }

    /** Nothing was polled, slept on or changed. */
    ghost predicate Untouched(at: nat, socks: seq<Sock>, ledger: seq<Ledger>, owner: seq<Owner>)
      reads this`step, table, table.socks
    {
      step == at && table.socks[..] == socks && table.ledger == ledger && table.owner == owner
    }

    /** The clock showed at a poll since step `from` that ms milliseconds had passed. */
    ghost predicate Expired(from: nat, ms: nat)
      reads this`step
    {
      exists at :: from < at <= step && TimedOut(clock(from), clock(at), ms)
    }

    /** Why a wait begun at step `from` fails with e although nothing is wrong with the socket. */
    ghost predicate Excused(e: int, nonblock: bool, from: nat, ms: nat)
      reads this`step
    {
      || (e == -EAGAIN && nonblock && step == from + 1)
      || (e == -EINTR && !nonblock && step > from && interrupted(step - 1))
      || (e == -ETIMEDOUT && !nonblock && Expired(from, ms))
    }

    /** Events a real lwIP or a well-behaved thread would not cause in this state do nothing. */
    method Callback(e: Event)
      requires Valid()
      modifies table, table.socks
      ensures Valid()
    {
      match e
      case Data(i, p, err) =>
        if i < SOCK_MAX && table.socks[i].stype == SockStream && table.socks[i].state == SkConnected {
          table.OnRecv(i, p, err);
        }
      case Fin(i) =>
        if i < SOCK_MAX && table.socks[i].stype == SockStream && table.socks[i].state == SkConnected {
          table.OnFin(i);
        }
      case Failure(i, err) =>
        if i < SOCK_MAX && table.socks[i].stype == SockStream && table.socks[i].pcb
           && table.socks[i].state != SkFree && table.socks[i].state != SkListening {
          table.OnErr(i, err);
        }
      case Up(i, err) =>
        if i < SOCK_MAX && table.socks[i].stype == SockStream && table.socks[i].state == SkConnecting {
          table.OnConnected(i, err);
        }
      case Incoming(i, err, havePcb) =>
        if i < SOCK_MAX && table.socks[i].state == SkListening {
          var answer, slot := table.OnAccept(i, err, havePcb);
        }
      case Dgram(i, d) =>
        if i < SOCK_MAX && table.socks[i].stype == SockDgram && table.socks[i].state != SkFree {
          table.OnUdpRecv(i, d);
        }
      case _ =>
    }

    method OtherCall(e: Event)
      requires Valid()
      modifies table, table.socks
      ensures Valid()
    {
      match e
      case DoSocket(domain, kind, created) =>
        var r := table.Socket(domain, kind, created);
      case DoListen(i, listening) =>
        if i < SOCK_MAX && table.owner[i] == App {
          var able := table.socks[i].pcb && table.socks[i].state in {SkClosed, SkError, SkListening};
          var r := table.Listen(i, listening && able);
        }
      case DoConnect(i, started) =>
        if i < SOCK_MAX && table.owner[i] == App {
          if table.socks[i].stype == SockDgram {
            var r := table.ConnectDgram(i, started);
          } else {
            var r := table.ConnectStart(i, started);
          }
        }
      case DoAccept(i, nonblock) =>
        if i < SOCK_MAX && table.owner[i] == App && table.socks[i].acceptq.count > 0 {
          var slot := table.AcceptPop(i, nonblock);
        }
      case DoRecv(i, len) =>
        if i < SOCK_MAX && table.owner[i] == App && table.socks[i].stype == SockStream
            && table.socks[i].state != SkFree {
          var got := table.RecvQueued(i, len);
        }
      case DoRecvDgram(i, lens) =>
        if i < SOCK_MAX && table.owner[i] == App && table.socks[i].stype == SockDgram && table.socks[i].udpq.count > 0 {
          var pieces, n, truncated, addr, port := table.UdpDoRecvv(i, lens);
        }
      case DoClose(i) =>
        if i < SOCK_MAX && table.owner[i] == App {
          table.Close(i);
        }
      case _ =>
    }

    /** net_poll(): lwIP's callbacks run. */
    method NetPoll()
      requires Valid()
      modifies this`step, table, table.socks
      ensures Valid() && step == old(step) + 1
    {
      var events := script(step);
      for k := 0 to |events|
        invariant Valid() && step == old(step)
      {
        Callback(events[k]);
      }
      step := step + 1;
    }

    /** thread_shim_sleep_until(): other threads run, callbacks included. */
    method Sleep() returns (eintr: bool)
      requires Valid()
      modifies this`step, table, table.socks
      ensures Valid() && step == old(step) + 1 && eintr == interrupted(old(step))
    {
      var events := script(step);
      for k := 0 to |events|
        invariant Valid() && step == old(step)
      {
        Callback(events[k]);
        OtherCall(events[k]);
      }
      eintr := interrupted(step);
      step := step + 1;
    }

    /** tcp_wait_rx(), for at most `rounds` turns of its loop. */
    method TcpWaitRx(i: nat, nonblock: bool, rounds: nat) returns (r: Look)
      requires Valid() && i < SOCK_MAX
      modifies this`step, table, table.socks
      ensures Valid()
      // what is there already is reported without polling or sleeping
      ensures TcpLook(old(table.socks[i])) != Wait && rounds > 0 ==>
                && r == TcpLook(old(table.socks[i]))
                && Untouched(old(step), old(table.socks[..]), old(table.ledger), old(table.owner))
      ensures TcpLook(old(table.socks[i])) == Wait && rounds > 0 ==> step > old(step)
      // otherwise the answer is what is there on return, or says why the wait ended
      ensures r.Now? ==> r == TcpLook(table.socks[i]) || Excused(r.r, nonblock, old(step), table.socks[i].rcvTimeout)
      ensures r == Now(-11) ==> table.socks[i].chain == [] && !table.socks[i].eof && table.socks[i].state != SkError
      ensures r == Now(1) ==> table.socks[i].chain != []
      ensures r == Now(0) ==> table.socks[i].chain == [] && table.socks[i].eof
      ensures r == Now(-104) ==>
                table.socks[i].chain == [] && !table.socks[i].eof && table.socks[i].state == SkError
      ensures r == Now(-107) ==>
                && table.socks[i].chain == [] && !table.socks[i].eof
                && (table.socks[i].state == SkClosed || table.socks[i].state == SkListening)
      ensures r.Now? ==> r.r in {1, 0, -104, -107, -11, -4, -110}
    {
      var start, left := clock(step), rounds;
      while left > 0
        invariant Valid() && 0 <= left <= rounds && step >= old(step)
        invariant left < rounds ==> step > old(step)
        invariant left == rounds ==> Untouched(old(step), old(table.socks[..]), old(table.ledger), old(table.owner))
        invariant left < rounds ==> TcpLook(old(table.socks[i])) == Wait
        invariant left < rounds && nonblock ==> step == old(step) + 1 && TcpLook(table.socks[i]) != Wait
        decreases left
      {
        if table.socks[i].chain != [] {
          return Now(1);
        }
        if table.socks[i].eof {
          return Now(0);
        }
        if table.socks[i].state == SkError {
          return Now(-ECONNRESET);
        }
        if table.socks[i].state == SkClosed || table.socks[i].state == SkListening {
          return Now(-ENOTCONN);
        }
        NetPoll();
        left := left - 1;
        if table.socks[i].chain != [] || table.socks[i].eof || table.socks[i].state == SkError {
          continue;
        }
        if nonblock {
          return Now(-EAGAIN);
        }
        if TimedOut(start, clock(step), table.socks[i].rcvTimeout) {
          return Now(-ETIMEDOUT);
        }
        var eintr := Sleep();
        if eintr {
          return Now(-EINTR);
        }
      }
      return Wait;
    }

    /** udp_wait_rx(), likewise. */
    method UdpWaitRx(i: nat, nonblock: bool, rounds: nat) returns (r: Look)
      requires Valid() && i < SOCK_MAX
      modifies this`step, table, table.socks
      ensures Valid()
      ensures UdpLook(old(table.socks[i])) != Wait ==>
                && r == Now(0) && Untouched(old(step), old(table.socks[..]), old(table.ledger), old(table.owner))
      ensures UdpLook(old(table.socks[i])) == Wait && rounds > 0 ==> step > old(step)
      ensures r.Now? ==> r == UdpLook(table.socks[i]) || Excused(r.r, nonblock, old(step), table.socks[i].rcvTimeout)
      ensures r == Now(-EAGAIN) ==> UdpLook(table.socks[i]) == Wait
    {
      var start, left := clock(step), rounds;
      while table.socks[i].udpq.count == 0
        invariant Valid() && 0 <= left <= rounds && step >= old(step)
        invariant left < rounds ==> step > old(step)
        invariant left == rounds ==> Untouched(old(step), old(table.socks[..]), old(table.ledger), old(table.owner))
        invariant left < rounds ==> UdpLook(old(table.socks[i])) == Wait
        invariant nonblock ==> left == rounds
        decreases left
      {
        if left == 0 {
          return Wait;
        }
        NetPoll();
        left := left - 1;
        if table.socks[i].udpq.count != 0 {
          break;
        }
        if nonblock {
          return Now(-EAGAIN);
        }
        if TimedOut(start, clock(step), table.socks[i].rcvTimeout) {
          return Now(-ETIMEDOUT);
        }
        var eintr := Sleep();
        if eintr {
          return Now(-EINTR);
        }
      }
      return Now(0);
    }

    /** net_shim_accept(): the oldest waiting connection, waiting for one if need be.  `last` is the
        table just before the connection was taken. */
    method Accept(i: nat, nonblock: bool, rounds: nat) returns (r: Look, ghost last: seq<Sock>)
      requires Valid() && i < SOCK_MAX
      modifies this`step, table, table.socks
      ensures Valid()
      ensures var s := old(table.socks[i]);
              s.stype == SockStream && AcceptLook(s) == Now(0) ==>
                  step == old(step) && last == old(table.socks[..]) && r.Now? && r.r >= SOCK_FD_BASE
      ensures var s := old(table.socks[i]);
              s.stype != SockStream || AcceptLook(s) == Now(-EINVAL) ==>
                && r == Now(if s.stype != SockStream then -EOPNOTSUPP else -EINVAL)
                && Untouched(old(step), old(table.socks[..]), old(table.ledger), old(table.owner))
      ensures var s := old(table.socks[i]);
              s.stype == SockStream && AcceptLook(s) == Wait && rounds > 0 ==> step > old(step)
      // a descriptor is that of the oldest connection, and now the application's
      ensures r.Now? && r.r >= 0 ==>
                && SOCK_FD_BASE <= r.r < SOCK_FD_BASE + SOCK_MAX && table.owner[r.r - SOCK_FD_BASE] == App
                && SocksOK(last) && last[i].acceptq.count > 0 && r.r - SOCK_FD_BASE == Waiting(last[i])[0]
                && table.socks[..] == Dequeued(last, i, r.r - SOCK_FD_BASE,
                                               last[r.r - SOCK_FD_BASE].(nonblock := nonblock))
      // and an error has its cause
      ensures r.Now? ==> r.r >= 0 || r.r in {-EOPNOTSUPP, -EINVAL, -EAGAIN, -EINTR}
      ensures r == Now(-EINVAL) ==> AcceptLook(table.socks[i]) == Now(-EINVAL)
      ensures r == Now(-EAGAIN) ==> table.socks[i].acceptq.count == 0
                                    && (table.socks[i].nonblock || Expired(old(step), table.socks[i].rcvTimeout))
      ensures r == Now(-EINTR) ==> step > old(step) && interrupted(step - 1)
    {
      last := table.socks[..];
      if table.socks[i].stype != SockStream {
        return Now(-EOPNOTSUPP), last;
      }
      var start, left := clock(step), rounds;
      while table.socks[i].acceptq.count == 0
        invariant Valid() && 0 <= left <= rounds && step >= old(step)
        invariant left < rounds ==> step > old(step)
        invariant left == rounds ==> Untouched(old(step), old(table.socks[..]), old(table.ledger), old(table.owner))
        invariant left < rounds ==> AcceptLook(old(table.socks[i])) == Wait
        decreases left
      {
        if table.socks[i].state != SkListening {
          return Now(-EINVAL), last;
        }
        if left == 0 {
          return Wait, last;
        }
        NetPoll();
        left := left - 1;
        if table.socks[i].acceptq.count != 0 {
          break;
        }
        if table.socks[i].nonblock {
          return Now(-EAGAIN), last;
        }
        if TimedOut(start, clock(step), table.socks[i].rcvTimeout) {
          return Now(-EAGAIN), last;
        }
        var eintr := Sleep();
        if eintr {
          return Now(-EINTR), last;
        }
      }
      last := table.socks[..];
      var slot := table.AcceptPop(i, nonblock);
      return Now(SOCK_FD_BASE + slot), last;
    }

    /** An error of recv() or recvmsg() is what the socket's state says, or has its cause in the wait. */
    ghost predicate WhyFailed(e: int, i: nat, stype: SType, nonblock: bool, from: nat)
      requires i < table.socks.Length
      reads this`step, table.socks
    {
      || (stype == SockStream && TcpLook(table.socks[i]) == Now(e) && e < 0)
      || Excused(e, nonblock, from, table.socks[i].rcvTimeout)
    }

    /** Called on stream s, for at most cap bytes, recv() hands out as many of the queued bytes as fit, whatever the
        state of the socket; if there are none and the peer is done, it reports the end. */
    ghost predicate BytesFirst(s: Sock, cap: nat, r: Received) {
      s.stype == SockStream ==>
        && (s.chain != [] ==>
              && r.Got? && ChainOK(s.chain, s.off)
              && r.data == Queued(s.chain, s.off)[..Least(cap, |Queued(s.chain, s.off)|)])
        && (s.chain == [] && s.eof ==> r == Got([]))
    }

    /** ECONNRESET (104) and ENOTCONN (107) are answered only when nothing is queued on return, the peer is not done,
        and the socket has failed, or was never connected; no other errors but EAGAIN, EINTR and ETIMEDOUT are. */
    ghost predicate ErrorsLast(i: nat, e: int, stype: SType)
      requires i < table.socks.Length
      reads table.socks
    {
      var s := table.socks[i];
      && e in {-104, -107, -11, -4, -110}
      && (e == -104 ==> stype == SockStream && s.chain == [] && !s.eof && s.state == SkError)
      && (e == -107 ==>
            stype == SockStream && s.chain == [] && !s.eof && (s.state == SkClosed || s.state == SkListening))
    }

    /** net_shim_recv() on a datagram socket. */
    method RecvDatagram(i: nat, len: nat, nonblock: bool, rounds: nat)
        returns (r: Received, ghost last: seq<Sock>, ghost book: seq<Ledger>)
      requires Valid() && i < SOCK_MAX && table.socks[i].stype == SockDgram
      modifies this`step, table, table.socks
      ensures Valid()
      ensures |last| == |book| == SOCK_MAX && SocksOK(last)
      ensures r.Got? ==>
                && last[i].udpq.count > 0
                && var d := Entries(last[i].udpq)[0];
                   r.data == d.p.data[..Least(len, |d.p.data|)]
                       && Entries(table.socks[..][i].udpq) == Entries(last[i].udpq)[1..]
      ensures r.Failed? ==> WhyFailed(r.err, i, SockDgram, nonblock, old(step)) && ErrorsLast(i, r.err, SockDgram)
      ensures UdpLook(old(table.socks[i])) != Wait && rounds > 0 ==> r != Blocked && step == old(step)
    {
      last, book := table.socks[..], table.ledger;
      assert SockOK(last[i]);
      var ready := UdpWaitRx(i, nonblock, rounds);
      if ready == Wait {
        return Blocked, last, book;
      }
      if ready.r < 0 {
        return Failed(ready.r), last, book;
      }
      last, book := table.socks[..], table.ledger;
      assert SockOK(last[i]);
      var pieces, n, truncated, addr, port := table.UdpDoRecvv(i, [len]);
      OneBuffer(Entries(last[i].udpq)[0].p.data, len, pieces, n);
      return Got(if pieces == [] then [] else pieces[0]), last, book;
    }

    /** net_shim_recv(): `last` and `book` are table and ledgers just before bytes were taken. */
    method Recv(i: nat, len: nat, nonblock: bool, rounds: nat)
        returns (r: Received, ghost last: seq<Sock>, ghost book: seq<Ledger>)
      requires Valid() && i < SOCK_MAX
      modifies this`step, table, table.socks
      ensures Valid()
      ensures |last| == |book| == SOCK_MAX && SocksOK(last)
      ensures r.Got? && old(table.socks[i]).stype == SockStream && len > 0 && last[i].chain != [] ==>
                var d := Drain(last[i].chain, last[i].off, len);
                && r.data == d.got && |r.data| == Least(len, |Queued(last[i].chain, last[i].off)|)
                && table.socks[..] == last[i := ReadSock(last[i], d)]
                && table.ledger == book[i := ReadLedger(last[i], book[i], d)]
      ensures r.Got? && old(table.socks[i]).stype == SockStream && len > 0 && last[i].chain == [] ==>
                r.data == [] && last[i].eof && table.socks[..] == last
      ensures r.Got? && old(table.socks[i]).stype == SockDgram ==>
                && last[i].udpq.count > 0
                && var d := Entries(last[i].udpq)[0];
                   r.data == d.p.data[..Least(len, |d.p.data|)]
                       && Entries(table.socks[..][i].udpq) == Entries(last[i].udpq)[1..]
      ensures var s := old(table.socks[i]);
              r.Failed? ==> WhyFailed(r.err, i, s.stype, s.nonblock || nonblock, old(step))
      // what poll() reports as input does not wait
      ensures RecvLook(old(table.socks[i])) != Wait && rounds > 0 ==> r != Blocked && step == old(step)
      // on a stream the bytes that are there come first, whatever became of the connection, then its end
      ensures rounds > 0 && len > 0 ==> BytesFirst(old(table.socks[i]), len, r)
      ensures r.Failed? ==> ErrorsLast(i, r.err, old(table.socks[i]).stype)
    {
      last, book := table.socks[..], table.ledger;
      assert SockOK(last[i]);
      if table.socks[i].stype == SockDgram {
        r, last, book := RecvDatagram(i, len, table.socks[i].nonblock || nonblock, rounds);
        return;
      }
      if len == 0 {
        return Got([]), last, book;
      }
      var ready := TcpWaitRx(i, table.socks[i].nonblock || nonblock, rounds);
      if ready == Wait {
        return Blocked, last, book;
      }
      last, book := table.socks[..], table.ledger;
      if ready.r < 0 {
        return Failed(ready.r), last, book;
      }
      if ready.r == 0 {
        return Got([]), last, book;
      }
      assert SockOK(last[i]);
      var got := table.RecvQueued(i, len);
      DrainTakes(last[i].chain, last[i].off, len);
      return Got(got), last, book;
    }

    /** net_shim_recvmsg() on a stream. */
    method RecvMsgStream(i: nat, lens: seq<nat>, nonblock: bool, rounds: nat)
        returns (r: Received, pieces: seq<seq<Octet>>, ghost last: seq<Sock>, ghost book: seq<Ledger>)
      requires Valid() && i < SOCK_MAX && table.socks[i].stype == SockStream
      modifies this`step, table, table.socks
      ensures Valid()
      ensures r.Failed? ==> WhyFailed(r.err, i, SockStream, nonblock, old(step))
      ensures |last| == |book| == SOCK_MAX && SocksOK(last) && (r.Got? ==> r.data == Flatten(pieces))
      ensures rounds > 0 && Sum(lens) > 0 ==> BytesFirst(old(table.socks[i]), Sum(lens), r)
      ensures r.Failed? ==> ErrorsLast(i, r.err, SockStream)
      ensures r.Got? && Sum(lens) > 0 && last[i].chain != [] ==>
                var d := Drain(last[i].chain, last[i].off, Sum(lens));
                && |d.got| <= Sum(lens) && Padded(pieces, |lens|) == Cut(d.got, lens)
                && table.socks[..] == last[i := ReadSock(last[i], d)]
                && table.ledger == book[i := ReadLedger(last[i], book[i], d)]
    {
      last, book, pieces := table.socks[..], table.ledger, [];
      assert SockOK(last[i]);
      if Sum(lens) == 0 {
        return Got([]), pieces, last, book;
      }
      var ready := TcpWaitRx(i, nonblock, rounds);
      if ready == Wait {
        return Blocked, pieces, last, book;
      }
      last, book := table.socks[..], table.ledger;
      if ready.r < 0 {
        return Failed(ready.r), pieces, last, book;
      }
      if ready.r == 0 {
        return Got([]), pieces, last, book;
      }
      assert SockOK(last[i]);
      pieces := table.ScatterQueued(i, lens);
      DrainTakes(last[i].chain, last[i].off, Sum(lens));
      FlattenPieces(pieces, Drain(last[i].chain, last[i].off, Sum(lens)).got, lens);
      return Got(Flatten(pieces)), pieces, last, book;
    }

    /** net_shim_recvmsg(): the pieces are what each buffer gets. */
    method RecvMsg(i: nat, lens: seq<nat>, nonblock: bool, rounds: nat)
        returns (r: Received, pieces: seq<seq<Octet>>, truncated: bool, from: Sender,
                 ghost last: seq<Sock>, ghost book: seq<Ledger>)
      requires Valid() && i < SOCK_MAX
      modifies this`step, table, table.socks
      ensures Valid()
      ensures var s := old(table.socks[i]);
              r.Failed? ==> WhyFailed(r.err, i, s.stype, s.nonblock || nonblock, old(step))
      ensures old(table.socks[i]).stype == SockStream ==> from == Nobody
      ensures |last| == |book| == SOCK_MAX && SocksOK(last) && (r.Got? ==> r.data == Flatten(pieces))
      // on a stream the bytes that are there come first, whatever became of the connection, then its end
      ensures rounds > 0 && Sum(lens) > 0 ==> BytesFirst(old(table.socks[i]), Sum(lens), r)
      ensures r.Failed? ==> ErrorsLast(i, r.err, old(table.socks[i]).stype)
      // on a stream: the same slot, ledger and bytes as one recv() of the total capacity
      ensures r.Got? && old(table.socks[i]).stype == SockStream && Sum(lens) > 0 && last[i].chain != [] ==>
                var d := Drain(last[i].chain, last[i].off, Sum(lens));
                && |d.got| <= Sum(lens) && Padded(pieces, |lens|) == Cut(d.got, lens) && !truncated
                && table.socks[..] == last[i := ReadSock(last[i], d)]
                && table.ledger == book[i := ReadLedger(last[i], book[i], d)]
      ensures r.Got? && old(table.socks[i]).stype == SockDgram ==>
                && last[i].udpq.count > 0
                && var d := Entries(last[i].udpq)[0];
                   var n := Least(|d.p.data|, Sum(lens));
                   && Padded(pieces, |lens|) == Cut(d.p.data[..n], lens) && (truncated <==> n < |d.p.data|)
                   && from == At(d.addr, d.port)
                   && Entries(table.socks[..][i].udpq) == Entries(last[i].udpq)[1..]
    {
      last, book, pieces, truncated, from := table.socks[..], table.ledger, [], false, Nobody;
      assert SockOK(last[i]);
      var ready;
      if table.socks[i].stype == SockDgram {
        ready := UdpWaitRx(i, table.socks[i].nonblock || nonblock, rounds);
        if ready == Wait {
          return Blocked, pieces, false, from, last, book;
        }
        if ready.r < 0 {
          return Failed(ready.r), pieces, false, from, last, book;
        }
        last, book := table.socks[..], table.ledger;
        assert SockOK(last[i]);
        var n, addr, port;
        pieces, n, truncated, addr, port := table.UdpDoRecvv(i, lens);
        return Got(Flatten(pieces)), pieces, truncated, At(addr, port), last, book;
      }
      r, pieces, last, book := RecvMsgStream(i, lens, table.socks[i].nonblock || nonblock, rounds);
    }

    /** net_shim_connect(): `last` is the socket just before connect() read its outcome. */
    method Connect(i: nat, addrOK: bool, accepted: bool, rounds: nat)
        returns (r: Look, end: ConnectEnding, ghost last: seq<Sock>)
      requires Valid() && i < SOCK_MAX && table.owner[i] == App
      modifies this`step, table, table.socks
      ensures Valid()
      ensures end == AtOnce ==> step == old(step) && r == ConnectAnswer(old(table.socks[i]), addrOK, accepted)
                                && table.socks[..] == old(table.socks[..])[
                                     i := AfterAnswer(old(table.socks[i]), addrOK, accepted)]
      ensures end == AtOnce <==> ConnectAnswer(old(table.socks[i]), addrOK, accepted) != Wait
      // the outcome is that of the handshake, and SO_ERROR is consumed by a failure
      ensures end == Settled ==>
                && |last| == SOCK_MAX && last[i].state != SkConnecting && step > old(step)
                && r == Now(if last[i].state == SkConnected then 0
                            else if last[i].soError != 0 then -last[i].soError else -111)
                && table.socks[..] == last[i := if last[i].state == SkConnected then last[i]
                                                else last[i].(soError := 0)]
      ensures end == Pending ==>
                r == Now(-EINPROGRESS) && table.socks[i].nonblock && table.socks[i].state == SkConnecting
      ensures end == Late ==>
                && r == Now(-ETIMEDOUT) && table.socks[i].state == SkConnecting
                && Expired(old(step), table.socks[i].sndTimeout)
      ensures end == Broken ==> r == Now(-EINTR) && step > old(step) && interrupted(step - 1)
      ensures end == CutOff <==> r == Wait
      ensures end == CutOff ==> step >= old(step) + rounds
    {
      last := table.socks[..];
      if !addrOK {
        return Now(-EINVAL), AtOnce, last;
      }
      if table.socks[i].stype == SockDgram {
        var answer := table.ConnectDgram(i, accepted);
        return Now(answer), AtOnce, last;
      }
      r := table.ConnectStart(i, accepted);
      if r != Wait {
        return r, AtOnce, last;
      }
      r, end := ConnectWait(i, rounds);
      if end == Settled {
        last := table.socks[..];
        var outcome := table.ConnectEnd(i);
        r := Now(outcome);
      }
    }

    /** The loop of connect(). */
    method ConnectWait(i: nat, rounds: nat) returns (r: Look, end: ConnectEnding)
      requires Valid() && i < SOCK_MAX && table.socks[i].state == SkConnecting
      modifies this`step, table, table.socks
      ensures Valid() && end != AtOnce
      ensures end == Settled ==> table.socks[i].state != SkConnecting && step > old(step)
      ensures end == Pending ==>
                r == Now(-EINPROGRESS) && table.socks[i].nonblock && table.socks[i].state == SkConnecting
      ensures end == Late ==>
                && r == Now(-ETIMEDOUT) && table.socks[i].state == SkConnecting
                && Expired(old(step), table.socks[i].sndTimeout)
      ensures end == Broken ==> r == Now(-EINTR) && step > old(step) && interrupted(step - 1)
      ensures end == CutOff ==> step >= old(step) + rounds
      ensures end == CutOff <==> r == Wait
    {
      var start, left := clock(step), rounds;
      while table.socks[i].state == SkConnecting
        invariant Valid() && 0 <= left <= rounds && step >= old(step) + (rounds - left)
        invariant table.socks[i].state == SkConnecting || step > old(step)
        decreases left
      {
        if left == 0 {
          return Wait, CutOff;
        }
        NetPoll();
        left := left - 1;
        if table.socks[i].state != SkConnecting {
          break;
        }
        if table.socks[i].nonblock {
          return Now(-EINPROGRESS), Pending;
        }
        if TimedOut(start, clock(step), table.socks[i].sndTimeout) {
          return Now(-ETIMEDOUT), Late;
        }
        var eintr := Sleep();
        if eintr {
          return Now(-EINTR), Broken;
        }
      }
      return Now(0), Settled;
    }
  }

  /** A single buffer gets the front of the datagram. */
  lemma OneBuffer(data: seq<Octet>, len: nat, pieces: seq<seq<Octet>>, n: nat)
    requires n == Least(|data|, Sum([len])) && Padded(pieces, 1) == Cut(data[..n], [len])
    ensures (if pieces == [] then [] else pieces[0]) == data[..Least(len, |data|)]
  {
    assert Sum([len]) == len;
    assert Cut(data[..n], [len]) == [data[..n]];
    assert Padded(pieces, 1)[0] == data[..n];
  }
}
