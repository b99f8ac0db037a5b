/** The LEACH base station: it counts the relays heads send it, per head and in total,
    and logs every relayed fingerprint. The step function specifies one delivered
    message on a snapshot of the station's fields; class BaseStation implements it on
    mutable fields and is proved against it. */
module LeachBaseStation {
  import opened LeachTypes

  /** Every field of the station that the protocol reads or writes. */
  datatype BsState = BsState(
    bsPktReceived: nat,
    packetsPerCH: map<Addr, nat>,
    packetRecLog: seq<Fingerprint>)

  /** The state after initialisation. */
  function InitialBs(): BsState
  {
    BsState(0, map[], [])
  }

  /** The per-head count as the map's subscript operator reads it: an absent head counts 0. */
  function CountOf(m: map<Addr, nat>, a: Addr): nat
  {
    if a in m then m[a] else 0
  }

  /** The sum of all per-head counts. */
  ghost function MapSum(m: map<Addr, nat>): nat
    decreases |m.Keys|
  {
    if m == map[] then 0
    else
      var k :| k in m;
      m[k] + MapSum(m - {k})
  }

  /** Any key may be taken out first. */
  lemma {:induction false} MapSumRemove(m: map<Addr, nat>, k: Addr)
    requires k in m
    ensures MapSum(m) == m[k] + MapSum(m - {k})
    decreases |m.Keys|
  {
    var j :| j in m && MapSum(m) == m[j] + MapSum(m - {j});
    if j != k {
      assert |(m - {j}).Keys| < |m.Keys| by { assert (m - {j}).Keys < m.Keys; }
      MapSumRemove(m - {j}, k);
      assert |(m - {k}).Keys| < |m.Keys| by { assert (m - {k}).Keys < m.Keys; }
      MapSumRemove(m - {k}, j);
      assert m - {j} - {k} == m - {k} - {j};
    }
  }

  /** Raising one head's count by one raises the sum by one. */
  lemma MapSumIncrement(m: map<Addr, nat>, a: Addr)
    ensures MapSum(m[a := CountOf(m, a) + 1]) == MapSum(m) + 1
  {
    var m' := m[a := CountOf(m, a) + 1];
    MapSumRemove(m', a);
    if a in m {
      MapSumRemove(m, a);
      assert m' - {a} == m - {a};
    } else {
      assert m' - {a} == m;
    }
  }

  /** What holds of the station between messages: one log entry per relay received,
      and no more relays attributed to heads than received (a relay whose source
      address is unknown is counted in the total only). */
  ghost predicate BsInv(s: BsState)
  {
    && |s.packetRecLog| == s.bsPktReceived
    && MapSum(s.packetsPerCH) <= s.bsPktReceived
  }

  /** Whether a message is a relay the station accepts: a manet packet of kind BS on ipIn. */
  predicate IsRelay(msg: Message)
  {
    msg.Arrival? && msg.packet.manet && msg.packet.onIpIn && msg.packet.body.BsPacket?
  }

  /** The BS branch: the total, the count of the source head when the packet carries
      its source address, and the log. */
  function ReceiveRelay(s: BsState, src: Option<Addr>, fingerprint: Fingerprint): (r: BsState)
    ensures r.bsPktReceived == s.bsPktReceived + 1
    ensures r.packetRecLog == s.packetRecLog + [fingerprint]
    ensures forall a :: CountOf(r.packetsPerCH, a) == CountOf(s.packetsPerCH, a) + (if src == Some(a) then 1 else 0)
  {
    var m := s.packetsPerCH;
    BsState(
      s.bsPktReceived + 1,
      if src.Some? then m[src.value := CountOf(m, src.value) + 1] else m,
      s.packetRecLog + [fingerprint])
  }

  /** handleMessageWhenUp: timers are dropped, a packet without the manet tag and one
      arriving on another gate are runtime errors, packets of the four other kinds are
      dropped, and a BS packet is received. */
  function BsStep(s: BsState, msg: Message): (r: (BsState, Result<()>))
    ensures msg.Arrival? && !msg.packet.manet ==> r == (s, Err(UnsupportedMessage))
    ensures msg.Arrival? && msg.packet.manet && !msg.packet.onIpIn ==> r == (s, Err(UnknownGate))
    ensures r.1.Err? <==> msg.Arrival? && !(msg.packet.manet && msg.packet.onIpIn)
    ensures !IsRelay(msg) ==> r.0 == s
    ensures IsRelay(msg) ==> r.0 == ReceiveRelay(s, msg.packet.srcTag, msg.packet.body.fingerprint)
  {
    match msg
    case SelfMessage => (s, Ok(()))
    case Arrival(p) =>
      if !p.manet then (s, Err(UnsupportedMessage))
      else if !p.onIpIn then (s, Err(UnknownGate))
      else
        match p.body
        case BsPacket(_, fingerprint) => (ReceiveRelay(s, p.srcTag, fingerprint), Ok(()))
        case _ => (s, Ok(()))
  }

  /** Every message keeps the invariant. */
  lemma {:induction false} BsStepKeepsInv(s: BsState, msg: Message)
    requires BsInv(s)
    ensures BsInv(BsStep(s, msg).0)
  {
    if IsRelay(msg) && msg.packet.srcTag.Some? {
      MapSumIncrement(s.packetsPerCH, msg.packet.srcTag.value);
    }
  }

  /** No message lowers any head's count, the total, or the log. */
  lemma BsStepMonotone(s: BsState, msg: Message, a: Addr)
    ensures var r := BsStep(s, msg).0;
      && CountOf(s.packetsPerCH, a) <= CountOf(r.packetsPerCH, a)
      && s.bsPktReceived <= r.bsPktReceived
      && s.packetRecLog <= r.packetRecLog
  {
  }

  // ---------------------------------------------------------------------------
  // Runs

  /** The state after a sequence of messages (a failing message leaves the state as it was). */
  function BsRun(s: BsState, msgs: seq<Message>): BsState
    decreases |msgs|
  {
    if msgs == [] then s else BsRun(BsStep(s, msgs[0]).0, msgs[1..])
  }

  /** The number of relays in `msgs`. */
  function Relays(msgs: seq<Message>): nat
    decreases |msgs|
  {
    if msgs == [] then 0 else (if IsRelay(msgs[0]) then 1 else 0) + Relays(msgs[1..])
  }

  /** The number of relays in `msgs` whose source address is `a`. */
  function RelaysFrom(msgs: seq<Message>, a: Addr): nat
    decreases |msgs|
  {
    if msgs == [] then 0
    else (if IsRelay(msgs[0]) && msgs[0].packet.srcTag == Some(a) then 1 else 0) + RelaysFrom(msgs[1..], a)
  }

  /** The fingerprints of the relays in `msgs`, in arrival order, repeats included. */
  function RelayedFingerprints(msgs: seq<Message>): seq<Fingerprint>
    decreases |msgs|
  {
    if msgs == [] then []
    else (if IsRelay(msgs[0]) then [msgs[0].packet.body.fingerprint] else []) + RelayedFingerprints(msgs[1..])
  }

  /** Over any run the station counts exactly the relays it received: the total grows by
      their number, each head's count by the number carrying that head's address, and
      the log by their fingerprints in order, without deduplication. */
  lemma {:induction false} BsRunCountsRelays(s: BsState, msgs: seq<Message>, a: Addr)
    ensures BsRun(s, msgs).bsPktReceived == s.bsPktReceived + Relays(msgs)
    ensures CountOf(BsRun(s, msgs).packetsPerCH, a) == CountOf(s.packetsPerCH, a) + RelaysFrom(msgs, a)
    ensures BsRun(s, msgs).packetRecLog == s.packetRecLog + RelayedFingerprints(msgs)
    decreases |msgs|
  {
    if msgs != [] {
      var s1 := BsStep(s, msgs[0]).0;
      BsRunCountsRelays(s1, msgs[1..], a);
      assert s1.packetRecLog == s.packetRecLog + (if IsRelay(msgs[0]) then [msgs[0].packet.body.fingerprint] else []);
    }
  }

  /** The invariant holds after any run from a state that satisfies it. */
  lemma {:induction false} BsRunKeepsInv(s: BsState, msgs: seq<Message>)
    requires BsInv(s)
    ensures BsInv(BsRun(s, msgs))
    decreases |msgs|
  {
    if msgs != [] {
      BsStepKeepsInv(s, msgs[0]);
      BsRunKeepsInv(BsStep(s, msgs[0]).0, msgs[1..]);
    }
  }

  /** From the initial state, the counters and the log describe exactly the relays received. */
  lemma BsRunFromInitial(msgs: seq<Message>, a: Addr)
    ensures var r := BsRun(InitialBs(), msgs);
      && r.bsPktReceived == Relays(msgs) == |r.packetRecLog|
      && r.packetRecLog == RelayedFingerprints(msgs)
      && CountOf(r.packetsPerCH, a) == RelaysFrom(msgs, a)
      && MapSum(r.packetsPerCH) <= Relays(msgs)
  {
    BsRunCountsRelays(InitialBs(), msgs, a);
    assert BsInv(InitialBs());
    BsRunKeepsInv(InitialBs(), msgs);
  }

  // ---------------------------------------------------------------------------
  // The base-station object

  class BaseStation {
    var bsPktReceived: nat
    var packetsPerCH: map<Addr, nat>
    var packetRecLog: seq<Fingerprint>

    ghost function State(): BsState
      reads this
    {
      BsState(bsPktReceived, packetsPerCH, packetRecLog)
    }

    ghost predicate Valid()
      reads this
    {
      BsInv(State())
    }

    constructor ()
      ensures State() == InitialBs() && Valid()
    {
      bsPktReceived := 0;
      packetsPerCH := map[];
      packetRecLog := [];
    }

    /** stop() does nothing. */
    method Stop()
      ensures State() == old(State())
    {
    }

    method HandleMessageWhenUp(msg: Message) returns (res: Result<()>)
      requires Valid()
      modifies this
      ensures Valid()
      ensures (State(), res) == BsStep(old(State()), msg)
    {
      match msg
      case SelfMessage =>
        res := Ok(());
      case Arrival(p) =>
        if !p.manet {
          return Err(UnsupportedMessage);
        }
        if !p.onIpIn {
          return Err(UnknownGate);
        }
        if p.body.BsPacket? {
          bsPktReceived := bsPktReceived + 1;
          if p.srcTag.Some? {
            var sourceAddr := p.srcTag.value;
            packetsPerCH := packetsPerCH[sourceAddr := CountOf(packetsPerCH, sourceAddr) + 1];
          }
          AddToPacketRecLog(p.body.fingerprint);
        }
        res := Ok(());
      BsStepKeepsInv(old(State()), msg);
    }

    method AddToPacketRecLog(fingerprint: Fingerprint)
      modifies this
      ensures State() == old(State()).(packetRecLog := old(packetRecLog) + [fingerprint])
    {
      packetRecLog := packetRecLog + [fingerprint];
    }
  }
}
