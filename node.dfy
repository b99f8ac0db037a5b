/** The LEACH sensor node: round ticks with cluster-head election, and the handlers for
    head announcements, acknowledgements, schedules and data. The step functions below
    specify each handler on a snapshot of the node's fields; class Node implements them
    on mutable fields and is proved against them. */
module LeachNode {
  import opened LeachTypes
  import opened LeachTables

  datatype LeachState = NCH | CH

  /** What a node is configured with: its own address, the interval length
      int(1.0 / clusterHeadPercentage), the round duration, and the fingerprint hash
      applied to (node address, head address, current time). */
  datatype Config = Config(
    self: Addr,
    intervalLength: int,
    roundDuration: Time,
    resolveFingerprint: (Addr, Addr, Time) -> Fingerprint)

  /** Every field of the node that the protocol reads or writes. */
  datatype NodeState = NodeState(
    round: nat,
    weight: nat,
    wasCH: bool,
    leachState: LeachState,
    roundStartTime: Time,
    tdmaDelayCounter: int,
    nodeMemory: seq<MemoryEntry>,
    nodeCHMemory: seq<SlotEntry>,
    extractedTDMASchedule: seq<SlotEntry>,
    packetLog: seq<Fingerprint>,
    controlPktSent: nat,
    controlPktReceived: nat,
    dataPktSent: nat,
    dataPktReceived: nat,
    dataPktReceivedVerf: nat,
    bsPktSent: nat)

  /** The state after initialisation. */
  function Initial(): NodeState
  {
    NodeState(0, 0, false, NCH, 0, 1, [], [], [], [], 0, 0, 0, 0, 0, 0)
  }

  /** What holds of the node between events. */
  predicate Inv(s: NodeState)
  {
    && HeadsUnique(s.nodeMemory)
    && SlotTableValid(s.nodeCHMemory, s.tdmaDelayCounter)
    && s.dataPktReceivedVerf <= s.dataPktReceived
  }

  /** fmod(round, intervalLength) == 0; fmod by zero is NaN, which never equals 0. */
  predicate IsCycleBoundary(intervalLength: int, round: int)
  {
    intervalLength != 0 && round % intervalLength == 0
  }

  /** The three per-cycle tables emptied and the slot counter back at 1. */
  function ClearTables(s: NodeState): NodeState
  {
    s.(nodeMemory := [], nodeCHMemory := [], extractedTDMASchedule := [], tdmaDelayCounter := 1)
  }

  /** stop(): tables cleared and the node back to NCH. */
  function StopStep(s: NodeState): (r: NodeState)
    ensures r.nodeMemory == [] && r.nodeCHMemory == [] && r.extractedTDMASchedule == []
    ensures r.tdmaDelayCounter == 1 && r.leachState == NCH
    ensures r.round == s.round && r.weight == s.weight && r.wasCH == s.wasCH && r.packetLog == s.packetLog
    ensures r == s.(nodeMemory := [], nodeCHMemory := [], extractedTDMASchedule := [],
                    tdmaDelayCounter := 1, leachState := NCH)
    ensures Inv(s) ==> Inv(r)
  {
    ClearTables(s).(leachState := NCH)
  }

  /** Whether the round tick elects the node: the draw fell below the threshold and the
      node has not been head yet in this cycle. */
  predicate Elected(s: NodeState, drawBelowThreshold: bool)
  {
    drawBelowThreshold && !s.wasCH
  }

  /** The two guarded demotions at the top of the tick, in this order: the head's term
      has timed out, or the timer of kind SELF has fired while the node is head (the
      round timer always carries kind SELF, so a head is always demoted before the draw). */
  function Demote(c: Config, s: NodeState, now: Time): (r: NodeState)
    ensures r.leachState == NCH && r == s.(leachState := NCH)
  {
    if s.leachState == CH && now >= s.roundStartTime + c.roundDuration then s.(leachState := NCH)
    else if s.leachState == CH then s.(leachState := NCH)
    else assert s.leachState == NCH; s
  }

  /** Becoming head: the weight counts it, wasCH blocks another election this cycle,
      and the announcement is counted as sent. */
  function Elect(s: NodeState): NodeState
  {
    s.(weight := s.weight + 1, leachState := CH, wasCH := true, controlPktSent := s.controlPktSent + 1)
  }

  /** The end of the tick: the round advances, a cycle boundary starts a fresh cycle,
      and the head term's start time is taken. */
  function AdvanceRound(c: Config, s: NodeState, now: Time): NodeState
  {
    if IsCycleBoundary(c.intervalLength, s.round + 1) then
      ClearTables(s).(round := s.round + 1, wasCH := false, roundStartTime := now)
    else
      s.(round := s.round + 1, roundStartTime := now)
  }

  /** The round tick. */
  function TickStep(c: Config, s: NodeState, now: Time, drawBelowThreshold: bool): (r: (NodeState, seq<Outgoing>))
    ensures r.0.round == s.round + 1
    ensures r.0.leachState == (if Elected(s, drawBelowThreshold) then CH else NCH)
    ensures r.0.weight == s.weight + (if Elected(s, drawBelowThreshold) then 1 else 0)
    ensures r.0.controlPktSent == s.controlPktSent + |r.1|
    ensures r.1 == (if Elected(s, drawBelowThreshold) then [Announce(c.self)] else [])
    ensures IsCycleBoundary(c.intervalLength, r.0.round) ==>
      !r.0.wasCH && r.0.nodeMemory == [] && r.0.nodeCHMemory == [] && r.0.extractedTDMASchedule == []
      && r.0.tdmaDelayCounter == 1
    ensures !IsCycleBoundary(c.intervalLength, r.0.round) ==>
      r.0.wasCH == (s.wasCH || drawBelowThreshold) && r.0.nodeMemory == s.nodeMemory
      && r.0.nodeCHMemory == s.nodeCHMemory && r.0.extractedTDMASchedule == s.extractedTDMASchedule
      && r.0.tdmaDelayCounter == s.tdmaDelayCounter
    ensures r.0.packetLog == s.packetLog
    ensures r.0.roundStartTime == now
    ensures && r.0.controlPktReceived == s.controlPktReceived && r.0.dataPktSent == s.dataPktSent
            && r.0.dataPktReceived == s.dataPktReceived && r.0.dataPktReceivedVerf == s.dataPktReceivedVerf
            && r.0.bsPktSent == s.bsPktSent
  {
    var demoted := Demote(c, s, now);
    var elected := drawBelowThreshold && !demoted.wasCH;
    var s1 := if elected then Elect(demoted) else demoted;
    (AdvanceRound(c, s1, now), if elected then [Announce(c.self)] else [])
  }

  /** processMessage: one received LEACH packet. */
  function ProcessStep(c: Config, s: NodeState, p: Packet, now: Time): (r: (NodeState, Result<seq<Outgoing>>))
    ensures !p.onIpIn ==> r == (s, Err(UnknownGate))
    ensures r.1.Err? ==> r.0 == s
    ensures r.0.round == s.round && r.0.weight == s.weight && r.0.wasCH == s.wasCH
    ensures s.packetLog <= r.0.packetLog
    ensures Inv(s) ==> Inv(r.0)
  {
    if !p.onIpIn then (s, Err(UnknownGate))
    else
      match p.body
      case HeadAnnouncement(chAddr) =>
        var mem := AddHead(s.nodeMemory, c.self, chAddr, p.rxPower);
        (s.(controlPktReceived := s.controlPktReceived + 1, nodeMemory := mem),
         Ok([Ack(c.self, IdealCH(mem, c.self))]))
      case AckPacket(nodeAddr) =>
        if s.leachState == CH then
          var (table, counter) := AddMember(s.nodeCHMemory, s.tdmaDelayCounter, nodeAddr);
          (s.(nodeCHMemory := table, tdmaDelayCounter := counter),
           Ok(if |table| >= 1 then [Schedule(c.self, table)] else []))
        else (s, Ok([]))
      case SchedulePacket(chAddr, entries) =>
        var cache := s.extractedTDMASchedule + entries;
        var delay := ReceivedDelay(cache, c.self);
        var s1 := s.(extractedTDMASchedule := cache);
        if delay > -1 then
          var dest := IdealCH(s.nodeMemory, c.self);
          var fp := c.resolveFingerprint(c.self, dest, now);
          (s1.(packetLog := s.packetLog + [fp], dataPktSent := s.dataPktSent + 1),
           Ok([Data(c.self, dest, fp, delay)]))
        else (s1, Ok([]))
      case DataPacket(nchAddr, fp) =>
        (s.(dataPktReceivedVerf := s.dataPktReceivedVerf + (if fp in s.packetLog then 1 else 0),
            dataPktReceived := s.dataPktReceived + 1,
            bsPktSent := s.bsPktSent + 1,
            leachState := NCH),
         Ok([Relay(c.self, fp)]))
      case BsPacket(_, _) => (s, Ok([]))
  }

  /** handleMessageWhenUp: the round timer, a manet packet, or anything else (dropped). */
  function HandleStep(c: Config, s: NodeState, msg: Message, now: Time, drawBelowThreshold: bool)
    : (r: (NodeState, Result<seq<Outgoing>>))
    ensures msg.Arrival? && !msg.packet.manet ==> r == (s, Ok([]))
    ensures r.0.weight <= s.weight + 1
    ensures s.packetLog <= r.0.packetLog
  {
    match msg
    case SelfMessage =>
      var (s', out) := TickStep(c, s, now, drawBelowThreshold);
      (s', Ok(out))
    case Arrival(p) =>
      if p.manet then ProcessStep(c, s, p, now) else (s, Ok([]))
  }

  // ---------------------------------------------------------------------------
  // Properties of single handlers

  /** Every handler keeps the invariant. */
  lemma HandleStepKeepsInv(c: Config, s: NodeState, msg: Message, now: Time, drawBelowThreshold: bool)
    requires Inv(s)
    ensures Inv(HandleStep(c, s, msg, now, drawBelowThreshold).0)
  {
  }

  /** A head announcement records the head once and is always answered by one Ack,
      addressed to the strongest head heard so far (not necessarily the announcer). */
  lemma AnnouncementAcksStrongestHead(c: Config, s: NodeState, p: Packet, now: Time)
    requires p.onIpIn && p.body.HeadAnnouncement?
    ensures var r := ProcessStep(c, s, p, now);
      && r.0.nodeMemory == AddHead(s.nodeMemory, c.self, p.body.srcAddress, p.rxPower)
      && r.0.controlPktReceived == s.controlPktReceived + 1
      && r.1 == Ok([Ack(c.self, IdealCH(r.0.nodeMemory, c.self))])
      && r.0 == s.(nodeMemory := r.0.nodeMemory, controlPktReceived := r.0.controlPktReceived)
  {
  }

  /** An Ack received while head assigns the member a slot (only the first time) and is
      answered by the whole slot table, in order, on every Ack, repeated ones included.
      An Ack received while not head changes nothing and sends nothing. */
  lemma AckBroadcastsWholeTable(c: Config, s: NodeState, p: Packet, now: Time)
    requires p.onIpIn && p.body.AckPacket?
    ensures var r := ProcessStep(c, s, p, now);
      if s.leachState == CH then
        var (table, counter) := AddMember(s.nodeCHMemory, s.tdmaDelayCounter, p.body.srcAddress);
        && r.0 == s.(nodeCHMemory := table, tdmaDelayCounter := counter)
        && r.1 == Ok([Schedule(c.self, r.0.nodeCHMemory)])
        && (HasMember(s.nodeCHMemory, p.body.srcAddress) ==> r.0 == s)
      else r == (s, Ok([]))
  {
    if s.leachState == CH {
      var t := AddMember(s.nodeCHMemory, s.tdmaDelayCounter, p.body.srcAddress).0;
      assert HasMember(t, p.body.srcAddress);
    }
  }

  /** A schedule grows the cache by exactly its entries, in order. Data is produced
      exactly when the first cached entry for this node carries a delay above -1; it is
      addressed to the strongest head at receipt, fingerprinted with the receipt time,
      and its fingerprint is in the packet log afterwards. */
  lemma ScheduleSendsData(c: Config, s: NodeState, p: Packet, now: Time)
    requires p.onIpIn && p.body.SchedulePacket?
    ensures var r := ProcessStep(c, s, p, now);
      var cache := s.extractedTDMASchedule + p.body.schedule;
      var dest := IdealCH(s.nodeMemory, c.self);
      var fp := c.resolveFingerprint(c.self, dest, now);
      && r.0.extractedTDMASchedule == cache
      && (r.1 == Ok([]) <==> ReceivedDelay(cache, c.self) <= -1)
      && (ReceivedDelay(cache, c.self) > -1 ==>
            && FirstIndexOf(cache, c.self) < |cache|
            && r.1 == Ok([Data(c.self, dest, fp, ReceivedDelay(cache, c.self))])
            && fp in r.0.packetLog
            && r.0 == s.(extractedTDMASchedule := cache, packetLog := s.packetLog + [fp],
                         dataPktSent := s.dataPktSent + 1))
      && (ReceivedDelay(cache, c.self) <= -1 ==> r.0 == s.(extractedTDMASchedule := cache))
  {
  }

  /** Data is relayed in any role: the relay goes to the base station, the node ends as
      NCH, and the verified counter moves only for a fingerprint of this node's own log. */
  lemma DataRelayDemotes(c: Config, s: NodeState, p: Packet, now: Time)
    requires p.onIpIn && p.body.DataPacket?
    ensures var r := ProcessStep(c, s, p, now);
      && r.1 == Ok([Relay(c.self, p.body.fingerprint)])
      && r.0.leachState == NCH
      && r.0.bsPktSent == s.bsPktSent + 1
      && r.0.dataPktReceived == s.dataPktReceived + 1
      && (r.0.dataPktReceivedVerf == s.dataPktReceivedVerf + 1 <==> p.body.fingerprint in s.packetLog)
      && (p.body.fingerprint !in s.packetLog ==> r.0.dataPktReceivedVerf == s.dataPktReceivedVerf)
      && r.0 == s.(dataPktReceivedVerf := r.0.dataPktReceivedVerf, dataPktReceived := s.dataPktReceived + 1,
                   bsPktSent := s.bsPktSent + 1, leachState := NCH)
  {
  }

  // ---------------------------------------------------------------------------
  // Properties of runs

  /** One delivered event: the message, the time, and the outcome of the random draw. */
  datatype Event = Event(msg: Message, now: Time, drawBelowThreshold: bool)

  /** The state after a sequence of events (a failing event leaves the state as it was). */
  function Run(c: Config, s: NodeState, evs: seq<Event>): NodeState
    decreases |evs|
  {
    if evs == [] then s
    else Run(c, HandleStep(c, s, evs[0].msg, evs[0].now, evs[0].drawBelowThreshold).0, evs[1..])
  }

  /** The invariant holds after any run from a state that satisfies it. */
  lemma {:induction false} RunKeepsInv(c: Config, s: NodeState, evs: seq<Event>)
    requires Inv(s)
    ensures Inv(Run(c, s, evs))
    decreases |evs|
  {
    if evs != [] {
      HandleStepKeepsInv(c, s, evs[0].msg, evs[0].now, evs[0].drawBelowThreshold);
      RunKeepsInv(c, HandleStep(c, s, evs[0].msg, evs[0].now, evs[0].drawBelowThreshold).0, evs[1..]);
    }
  }

  /** The packet log only grows: a fingerprint a node has sent stays in its log. */
  lemma {:induction false} RunKeepsPacketLog(c: Config, s: NodeState, evs: seq<Event>)
    ensures s.packetLog <= Run(c, s, evs).packetLog
    decreases |evs|
  {
    if evs != [] {
      RunKeepsPacketLog(c, HandleStep(c, s, evs[0].msg, evs[0].now, evs[0].drawBelowThreshold).0, evs[1..]);
    }
  }

  /** The round never goes back. */
  lemma {:induction false} RunRoundMonotone(c: Config, s: NodeState, evs: seq<Event>)
    ensures s.round <= Run(c, s, evs).round
    decreases |evs|
  {
    if evs != [] {
      RunRoundMonotone(c, HandleStep(c, s, evs[0].msg, evs[0].now, evs[0].drawBelowThreshold).0, evs[1..]);
    }
  }

  /** The weight plus one if the node may still be elected in this cycle. */
  function Potential(s: NodeState): nat
  {
    s.weight + (if s.wasCH then 0 else 1)
  }

  /** Within a cycle no handler raises the potential: an election adds one to the
      weight and spends the cycle's chance by setting wasCH. */
  lemma StepKeepsPotential(c: Config, s: NodeState, e: Event)
    requires !IsCycleBoundary(c.intervalLength, s.round + 1)
    ensures Potential(HandleStep(c, s, e.msg, e.now, e.drawBelowThreshold).0) == Potential(s)
  {
  }

  /** wasCH allows at most one election per cycle: along any run whose ticks cross no
      cycle boundary, the weight grows by at most one, and not at all if the node has
      already been head in this cycle. */
  lemma {:induction false} AtMostOneElectionPerCycle(c: Config, s: NodeState, evs: seq<Event>)
    requires forall r :: s.round < r <= Run(c, s, evs).round ==> !IsCycleBoundary(c.intervalLength, r)
    ensures Potential(Run(c, s, evs)) == Potential(s)
    ensures Run(c, s, evs).weight <= s.weight + (if s.wasCH then 0 else 1)
    decreases |evs|
  {
    if evs != [] {
      var e := evs[0];
      var s1 := HandleStep(c, s, e.msg, e.now, e.drawBelowThreshold).0;
      RunRoundMonotone(c, s1, evs[1..]);
      assert s1.round == s.round + 1 || s1.round == s.round;
      if s1.round == s.round + 1 {
        assert !IsCycleBoundary(c.intervalLength, s.round + 1);
        StepKeepsPotential(c, s, e);
      } else {
        assert e.msg.Arrival?;
      }
      AtMostOneElectionPerCycle(c, s1, evs[1..]);
    }
  }

  /** Only a tick moves the round, and only a tick moves the weight: along a run whose
      round stays put, the weight and wasCH stay put too. */
  lemma {:induction false} RunWithoutTickKeepsWeight(c: Config, s: NodeState, evs: seq<Event>)
    requires Run(c, s, evs).round == s.round
    ensures Run(c, s, evs).weight == s.weight && Run(c, s, evs).wasCH == s.wasCH
    decreases |evs|
  {
    if evs != [] {
      var e := evs[0];
      var s1 := HandleStep(c, s, e.msg, e.now, e.drawBelowThreshold).0;
      RunRoundMonotone(c, s1, evs[1..]);
      assert e.msg.Arrival?;
      RunWithoutTickKeepsWeight(c, s1, evs[1..]);
    }
  }

  /** At most one election per whole cycle: along any run that starts anywhere in a cycle
      and ends at the latest on the tick that reaches the next boundary (that last tick
      included, the one with the highest election threshold), the weight grows by at most
      one, and not at all if the node was already head in the cycle. With L == 1 this
      covers every single tick. */
  lemma {:induction false} AtMostOneElectionPerWholeCycle(c: Config, s: NodeState, evs: seq<Event>)
    requires forall r :: s.round < r < Run(c, s, evs).round ==> !IsCycleBoundary(c.intervalLength, r)
    ensures Run(c, s, evs).weight <= s.weight + (if s.wasCH then 0 else 1)
    decreases |evs|
  {
    if evs != [] {
      var e := evs[0];
      var s1 := HandleStep(c, s, e.msg, e.now, e.drawBelowThreshold).0;
      var final := Run(c, s, evs);
      assert final == Run(c, s1, evs[1..]);
      RunRoundMonotone(c, s1, evs[1..]);
      if s1.round == s.round {
        assert e.msg.Arrival?;
        AtMostOneElectionPerWholeCycle(c, s1, evs[1..]);
      } else if s1.round == final.round {
        assert e.msg.SelfMessage?;
        RunWithoutTickKeepsWeight(c, s1, evs[1..]);
      } else {
        assert s1.round == s.round + 1 < final.round;
        assert !IsCycleBoundary(c.intervalLength, s.round + 1);
        StepKeepsPotential(c, s, e);
        AtMostOneElectionPerWholeCycle(c, s1, evs[1..]);
      }
    }
  }

  // ---------------------------------------------------------------------------
  // The node object

  class Node {
    const cfg: Config

    var round: nat
    var weight: nat
    var wasCH: bool
    var leachState: LeachState
    var roundStartTime: Time
    var tdmaDelayCounter: int
    var nodeMemory: seq<MemoryEntry>
    var nodeCHMemory: seq<SlotEntry>
    var extractedTDMASchedule: seq<SlotEntry>
    var packetLog: seq<Fingerprint>
    var controlPktSent: nat
    var controlPktReceived: nat
    var dataPktSent: nat
    var dataPktReceived: nat
    var dataPktReceivedVerf: nat
    var bsPktSent: nat

    ghost function State(): NodeState
      reads this
    {
      NodeState(round, weight, wasCH, leachState, roundStartTime, tdmaDelayCounter,
                nodeMemory, nodeCHMemory, extractedTDMASchedule, packetLog,
                controlPktSent, controlPktReceived, dataPktSent, dataPktReceived,
                dataPktReceivedVerf, bsPktSent)
    }

    ghost predicate Valid()
      reads this
    {
      Inv(State())
    }

    constructor (cfg: Config)
      ensures this.cfg == cfg
      ensures State() == Initial() && Valid()
    {
      this.cfg := cfg;
      round, weight, wasCH, leachState, roundStartTime := 0, 0, false, NCH, 0;
      tdmaDelayCounter := 1;
      nodeMemory, nodeCHMemory, extractedTDMASchedule, packetLog := [], [], [], [];
      controlPktSent, controlPktReceived, dataPktSent := 0, 0, 0;
      dataPktReceived, dataPktReceivedVerf, bsPktSent := 0, 0, 0;
    }

    method Stop()
      requires Valid()
      modifies this
      ensures Valid()
      ensures State() == StopStep(old(State()))
    {
      nodeMemory := [];
      nodeCHMemory := [];
      extractedTDMASchedule := [];
      tdmaDelayCounter := 1;
      leachState := NCH;
    }

    method HandleMessageWhenUp(msg: Message, now: Time, drawBelowThreshold: bool)
      returns (res: Result<seq<Outgoing>>)
      requires Valid()
      modifies this
      ensures Valid()
      ensures (State(), res) == HandleStep(cfg, old(State()), msg, now, drawBelowThreshold)
    {
      match msg
      case SelfMessage =>
        var out := RoundTick(now, drawBelowThreshold);
        res := Ok(out);
      case Arrival(p) =>
        if p.manet {
          res := ProcessMessage(p, now);
        } else {
          res := Ok([]);
        }
      HandleStepKeepsInv(cfg, old(State()), msg, now, drawBelowThreshold);
    }

    /** The self-message branch of handleMessageWhenUp. */
    method RoundTick(now: Time, drawBelowThreshold: bool) returns (out: seq<Outgoing>)
      modifies this
      ensures (State(), out) == TickStep(cfg, old(State()), now, drawBelowThreshold)
    {
      EndHeadTerm(now);
      out := [];
      if drawBelowThreshold && !wasCH {
        var announce := BecomeHead();
        out := [announce];
      }
      StartRound(now);
    }

    /** The two demotions at the top of the tick. */
    method EndHeadTerm(now: Time)
      modifies this
      ensures State() == Demote(cfg, old(State()), now)
    {
      if leachState == CH && now >= roundStartTime + cfg.roundDuration {
        leachState := NCH;
      } else if leachState == CH {
        leachState := NCH;
      }
    }

    /** The election branch of the tick: the node becomes head and announces itself. */
    method BecomeHead() returns (announce: Outgoing)
      modifies this
      ensures announce == Announce(cfg.self)
      ensures State() == Elect(old(State()))
    {
      weight := weight + 1;
      leachState := CH;
      wasCH := true;
      announce := HandleSelfMessage();
    }

    /** The end of the tick: next round, a fresh cycle at a boundary, and the start time. */
    method StartRound(now: Time)
      modifies this
      ensures State() == AdvanceRound(cfg, old(State()), now)
    {
      round := round + 1;
      if IsCycleBoundary(cfg.intervalLength, round) {
        wasCH := false;
        nodeMemory := [];
        nodeCHMemory := [];
        extractedTDMASchedule := [];
        tdmaDelayCounter := 1;
      }
      roundStartTime := now;
    }

    /** The head announcement sent by a newly elected head. */
    method HandleSelfMessage() returns (out: Outgoing)
      modifies this
      ensures out == Announce(cfg.self)
      ensures State() == old(State()).(controlPktSent := old(controlPktSent) + 1)
    {
      out := Announce(cfg.self);
      controlPktSent := controlPktSent + 1;
    }

    method ProcessMessage(p: Packet, now: Time) returns (res: Result<seq<Outgoing>>)
      modifies this
      ensures (State(), res) == ProcessStep(cfg, old(State()), p, now)
    {
      var selfAddr := cfg.self;
      if !p.onIpIn {
        return Err(UnknownGate);
      }
      match p.body
      case HeadAnnouncement(chAddr) =>
        controlPktReceived := controlPktReceived + 1;
        AddToNodeMemory(selfAddr, chAddr, p.rxPower);
        var ack := SendAckToCH(selfAddr, chAddr);
        res := Ok([ack]);
      case AckPacket(nodeAddr) =>
        if leachState == CH {
          AddToNodeCHMemory(nodeAddr);
          if |nodeCHMemory| >= 1 {
            var sch := SendSchToNCH(selfAddr);
            res := Ok([sch]);
          } else {
            res := Ok([]);
          }
        } else {
          res := Ok([]);
        }
      case SchedulePacket(_, _) =>
        res := ReceiveSchedule(p, now);
      case DataPacket(nchAddr, fingerprint) =>
        var verified := CheckFingerprint(fingerprint);
        if verified {
          dataPktReceivedVerf := dataPktReceivedVerf + 1;
        }
        dataPktReceived := dataPktReceived + 1;
        var relay := SendDataToBS(selfAddr, fingerprint);
        res := Ok([relay]);
      case BsPacket(_, _) =>
        res := Ok([]);
    }

    /** The SCH branch of processMessage: cache the schedule, look this node up, and
        send data in its slot. */
    method ReceiveSchedule(p: Packet, now: Time) returns (res: Result<seq<Outgoing>>)
      requires p.onIpIn && p.body.SchedulePacket?
      modifies this
      ensures (State(), res) == ProcessStep(cfg, old(State()), p, now)
    {
      var selfAddr := cfg.self;
      var chAddr, entries := p.body.srcAddress, p.body.schedule;
      var cache := extractedTDMASchedule;
      var counter := 0;
      while counter < |entries|
        invariant 0 <= counter <= |entries|
        invariant cache == extractedTDMASchedule + entries[..counter]
      {
        cache := cache + [entries[counter]];
        counter := counter + 1;
      }
      assert entries[..counter] == entries;
      extractedTDMASchedule := cache;
      var receivedTDMADelay := -1;
      var i := 0;
      while i < |extractedTDMASchedule|
        invariant 0 <= i <= |extractedTDMASchedule|
        invariant forall j :: 0 <= j < i ==> extractedTDMASchedule[j].nodeAddress != selfAddr
        invariant receivedTDMADelay == -1
      {
        if extractedTDMASchedule[i].nodeAddress == selfAddr {
          receivedTDMADelay := extractedTDMASchedule[i].tdmaDelay;
          break;
        }
        i := i + 1;
      }
      assert receivedTDMADelay == ReceivedDelay(extractedTDMASchedule, selfAddr);
      if receivedTDMADelay > -1 {
        var data := SendDataToCH(selfAddr, chAddr, receivedTDMADelay, now);
        res := Ok([data]);
      } else {
        res := Ok([]);
      }
    }

    method AddToNodeMemory(nodeAddr: Addr, chAddr: Addr, rxPower: real)
      modifies this
      ensures State() == old(State()).(nodeMemory := AddHead(old(nodeMemory), nodeAddr, chAddr, rxPower))
    {
      var known := IsCHAddedInMemory(chAddr);
      if !known {
        nodeMemory := nodeMemory + [MemoryEntry(nodeAddr, chAddr, rxPower)];
      }
    }

    method AddToNodeCHMemory(nchAddr: Addr)
      modifies this
      ensures var (t, k) := AddMember(old(nodeCHMemory), old(tdmaDelayCounter), nchAddr);
        State() == old(State()).(nodeCHMemory := t, tdmaDelayCounter := k)
    {
      var known := IsNCHAddedInCHMemory(nchAddr);
      if !known {
        nodeCHMemory := nodeCHMemory + [SlotEntry(nchAddr, tdmaDelayCounter)];
        tdmaDelayCounter := tdmaDelayCounter + 1;
      }
    }

    method IsCHAddedInMemory(chAddr: Addr) returns (b: bool)
      ensures b <==> HasHead(nodeMemory, chAddr)
    {
      var i := 0;
      while i < |nodeMemory|
        invariant 0 <= i <= |nodeMemory|
        invariant forall j :: 0 <= j < i ==> nodeMemory[j].chAddr != chAddr
      {
        if nodeMemory[i].chAddr == chAddr {
          return true;
        }
        i := i + 1;
      }
      return false;
    }

    method IsNCHAddedInCHMemory(nchAddr: Addr) returns (b: bool)
      ensures b <==> HasMember(nodeCHMemory, nchAddr)
    {
      var i := 0;
      while i < |nodeCHMemory|
        invariant 0 <= i <= |nodeCHMemory|
        invariant forall j :: 0 <= j < i ==> nodeCHMemory[j].nodeAddress != nchAddr
      {
        if nodeCHMemory[i].nodeAddress == nchAddr {
          return true;
        }
        i := i + 1;
      }
      return false;
    }

    /** Rebuilds the slot table from the members recorded against this node as head.
        Nothing calls it. */
    method GenerateTDMASchedule()
      requires Valid()
      modifies this
      ensures Valid()
      ensures var members := MembersOf(old(nodeMemory), cfg.self);
        State() == old(State()).(nodeCHMemory := SlotTableOf(members), tdmaDelayCounter := |members| + 1)
    {
      var table: seq<SlotEntry> := [];
      var counter := 1;
      var i := 0;
      while i < |nodeMemory|
        invariant 0 <= i <= |nodeMemory|
        invariant table == SlotTableOf(MembersOf(nodeMemory[..i], cfg.self))
        invariant counter == |table| + 1
      {
        ghost var members := MembersOf(nodeMemory[..i], cfg.self);
        assert nodeMemory[..i + 1][..i] == nodeMemory[..i];
        if nodeMemory[i].chAddr == cfg.self {
          table := table + [SlotEntry(nodeMemory[i].nodeAddr, counter)];
          counter := counter + 1;
          assert SlotTableOf(members + [nodeMemory[i].nodeAddr]) == table;
        }
        i := i + 1;
      }
      assert nodeMemory[..i] == nodeMemory;
      nodeCHMemory, tdmaDelayCounter := table, counter;
      GeneratedTableValid(nodeMemory, cfg.self);
    }

    method GetIdealCH(nodeAddr: Addr) returns (a: Addr)
      ensures a == IdealCH(nodeMemory, nodeAddr)
    {
      var tempIdealCHAddr := Unspecified;
      var tempRxPower := -1.0;
      var i := 0;
      while i < |nodeMemory|
        invariant 0 <= i <= |nodeMemory|
        invariant BestIndex(nodeMemory, nodeAddr, i).None? ==> tempRxPower == -1.0
        invariant BestIndex(nodeMemory, nodeAddr, i).Some? ==>
          var k := BestIndex(nodeMemory, nodeAddr, i).value;
          tempRxPower == nodeMemory[k].rxPower && tempIdealCHAddr == nodeMemory[k].chAddr
      {
        if nodeMemory[i].nodeAddr == nodeAddr && nodeMemory[i].rxPower > tempRxPower {
          tempRxPower := nodeMemory[i].rxPower;
          tempIdealCHAddr := nodeMemory[i].chAddr;
        }
        i := i + 1;
      }
      if tempRxPower < 0.0 {
        return Broadcast;
      }
      return tempIdealCHAddr;
    }

    method CheckFingerprint(fingerprint: Fingerprint) returns (b: bool)
      ensures b <==> fingerprint in packetLog
    {
      var i := 0;
      while i < |packetLog|
        invariant 0 <= i <= |packetLog|
        invariant fingerprint !in packetLog[..i]
      {
        if packetLog[i] == fingerprint {
          return true;
        }
        assert packetLog[..i + 1] == packetLog[..i] + [packetLog[i]];
        i := i + 1;
      }
      assert packetLog[..i] == packetLog;
      return false;
    }

    method AddToPacketLog(fingerprint: Fingerprint)
      modifies this
      ensures State() == old(State()).(packetLog := old(packetLog) + [fingerprint])
    {
      packetLog := packetLog + [fingerprint];
    }

    /** The Ack goes to the strongest head heard, whichever head announced. */
    method SendAckToCH(nodeAddr: Addr, chAddr: Addr) returns (out: Outgoing)
      ensures out == Ack(nodeAddr, IdealCH(nodeMemory, nodeAddr))
    {
      var dest := GetIdealCH(nodeAddr);
      out := Ack(nodeAddr, dest);
    }

    /** The broadcast schedule carries the slot table entry by entry, in order. */
    method SendSchToNCH(selfAddr: Addr) returns (out: Outgoing)
      ensures out == Schedule(selfAddr, nodeCHMemory)
    {
      var entries: seq<SlotEntry> := [];
      var i := 0;
      while i < |nodeCHMemory|
        invariant 0 <= i <= |nodeCHMemory|
        invariant entries == nodeCHMemory[..i]
      {
        entries := entries + [SlotEntry(nodeCHMemory[i].nodeAddress, nodeCHMemory[i].tdmaDelay)];
        i := i + 1;
      }
      assert nodeCHMemory[..i] == nodeCHMemory;
      out := Schedule(selfAddr, entries);
    }

    /** Data for the strongest head, fingerprinted and logged now, sent after `slot`.
        The parameter `chAddr` (the schedule's sender) is never read. */
    method SendDataToCH(nodeAddr: Addr, chAddr: Addr, slot: int, now: Time) returns (out: Outgoing)
      modifies this
      ensures var dest := IdealCH(old(nodeMemory), nodeAddr);
        var fp := cfg.resolveFingerprint(nodeAddr, dest, now);
        && out == Data(nodeAddr, dest, fp, slot)
        && State() == old(State()).(packetLog := old(packetLog) + [fp], dataPktSent := old(dataPktSent) + 1)
    {
      var idealCH := GetIdealCH(nodeAddr);
      var fingerprint := cfg.resolveFingerprint(nodeAddr, idealCH, now);
      AddToPacketLog(fingerprint);
      var dest := GetIdealCH(nodeAddr);
      out := Data(nodeAddr, dest, fingerprint, slot);
      dataPktSent := dataPktSent + 1;
    }

    /** The relay to the base station; relaying ends this node's headship. */
    method SendDataToBS(chAddr: Addr, fingerprint: Fingerprint) returns (out: Outgoing)
      modifies this
      ensures out == Relay(chAddr, fingerprint)
      ensures State() == old(State()).(bsPktSent := old(bsPktSent) + 1, leachState := NCH)
    {
      out := Relay(chAddr, fingerprint);
      bsPktSent := bsPktSent + 1;
      leachState := NCH;
    }
  }
}
