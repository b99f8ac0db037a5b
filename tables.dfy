/** The sensor node's tables, as values: the association memory (heads heard and
    their signal strength), the slot table a head builds from acknowledgements, the
    schedule cache a member fills from schedule broadcasts, and the lookups over them. */
module LeachTables {
  import opened LeachTypes

  /** One association-memory entry: this node, a head it heard, and the signal power. */
  datatype MemoryEntry = MemoryEntry(nodeAddr: Addr, chAddr: Addr, rxPower: real)

  // ---------------------------------------------------------------------------
  // Association memory

  predicate HasHead(mem: seq<MemoryEntry>, ch: Addr)
  {
    exists i :: 0 <= i < |mem| && mem[i].chAddr == ch
  }

  /** At most one entry per head address. */
  predicate HeadsUnique(mem: seq<MemoryEntry>)
  {
    forall i, j :: 0 <= i < j < |mem| ==> mem[i].chAddr != mem[j].chAddr
  }

  /** The memory after a head is heard: the first hearing of a head wins. */
  function AddHead(mem: seq<MemoryEntry>, node: Addr, ch: Addr, rxPower: real): (r: seq<MemoryEntry>)
    ensures HasHead(r, ch)
    ensures HasHead(mem, ch) ==> r == mem
    ensures mem <= r && |r| <= |mem| + 1
    ensures |r| == |mem| + 1 ==> r[|mem|] == MemoryEntry(node, ch, rxPower)
    ensures forall x :: HasHead(r, x) <==> HasHead(mem, x) || x == ch
    ensures HeadsUnique(mem) ==> HeadsUnique(r)
  {
    if HasHead(mem, ch) then mem
    else
      var r := mem + [MemoryEntry(node, ch, rxPower)];
      assert r[|mem|].chAddr == ch;
      r
  }

  /** The state of the strongest-head scan after it has visited mem[..n]: the index of
      the entry it holds, or None while it still holds its initial power -1. */
  function BestIndex(mem: seq<MemoryEntry>, node: Addr, n: nat): (r: Option<nat>)
    requires n <= |mem|
    ensures r.Some? ==> r.value < n && mem[r.value].nodeAddr == node && mem[r.value].rxPower > -1.0
    ensures r.Some? ==> forall j :: 0 <= j < n && mem[j].nodeAddr == node ==> mem[j].rxPower <= mem[r.value].rxPower
    ensures r.Some? ==> forall j :: 0 <= j < r.value && mem[j].nodeAddr == node ==> mem[j].rxPower < mem[r.value].rxPower
    ensures r.None? ==> forall j :: 0 <= j < n && mem[j].nodeAddr == node ==> mem[j].rxPower <= -1.0
  {
    if n == 0 then None
    else
      var prev := BestIndex(mem, node, n - 1);
      var held := if prev.Some? then mem[prev.value].rxPower else -1.0;
      if mem[n - 1].nodeAddr == node && mem[n - 1].rxPower > held then Some(n - 1) else prev
  }

  /** The head `node` should talk to: the strongest one it heard, or Broadcast. */
  function IdealCH(mem: seq<MemoryEntry>, node: Addr): Addr
  {
    match BestIndex(mem, node, |mem|)
    case None => Broadcast
    case Some(k) => if mem[k].rxPower < 0.0 then Broadcast else mem[k].chAddr
  }

  /** The lookup falls back to Broadcast exactly when no entry of `node` has a
      non-negative power; otherwise it returns the head of the first entry of maximal
      power (a later entry of equal power does not replace it). */
  lemma IdealCHIsStrongestHead(mem: seq<MemoryEntry>, node: Addr)
    ensures (forall j :: 0 <= j < |mem| && mem[j].nodeAddr == node ==> mem[j].rxPower < 0.0) ==>
      IdealCH(mem, node) == Broadcast
    ensures (exists j :: 0 <= j < |mem| && mem[j].nodeAddr == node && mem[j].rxPower >= 0.0) ==>
      exists k :: 0 <= k < |mem| && mem[k].nodeAddr == node && IdealCH(mem, node) == mem[k].chAddr
        && (forall j :: 0 <= j < |mem| && mem[j].nodeAddr == node ==> mem[j].rxPower <= mem[k].rxPower)
        && (forall j :: 0 <= j < k && mem[j].nodeAddr == node ==> mem[j].rxPower < mem[k].rxPower)
  {
    var b := BestIndex(mem, node, |mem|);
    if exists j :: 0 <= j < |mem| && mem[j].nodeAddr == node && mem[j].rxPower >= 0.0 {
      var j :| 0 <= j < |mem| && mem[j].nodeAddr == node && mem[j].rxPower >= 0.0;
      assert b.Some? && mem[b.value].rxPower >= mem[j].rxPower;
    }
  }

  // ---------------------------------------------------------------------------
  // Slot table (the head's nodeCHMemory and its TDMADelayCounter)

  predicate HasMember(table: seq<SlotEntry>, m: Addr)
  {
    exists i :: 0 <= i < |table| && table[i].nodeAddress == m
  }

  /** Slots are 1..n in arrival order, one per distinct member, and the counter is n + 1. */
  predicate SlotTableValid(table: seq<SlotEntry>, counter: int)
  {
    && counter == |table| + 1
    && (forall i :: 0 <= i < |table| ==> table[i].tdmaDelay == i + 1)
    && (forall i, j :: 0 <= i < j < |table| ==> table[i].nodeAddress != table[j].nodeAddress)
  }

  /** The table and counter after an acknowledgement from `m`: the first ack wins. */
  function AddMember(table: seq<SlotEntry>, counter: int, m: Addr): (r: (seq<SlotEntry>, int))
    ensures HasMember(r.0, m)
    ensures HasMember(table, m) ==> r == (table, counter)
    ensures table <= r.0 && |r.0| <= |table| + 1
    ensures SlotTableValid(table, counter) && !HasMember(table, m) ==>
      r.0 == table + [SlotEntry(m, |table| + 1)]
    ensures SlotTableValid(table, counter) ==> SlotTableValid(r.0, r.1)
  {
    if HasMember(table, m) then (table, counter)
    else
      var t := table + [SlotEntry(m, counter)];
      assert t[|table|].nodeAddress == m;
      (t, counter + 1)
  }

  /** A second acknowledgement from the same member leaves the table and counter as they are. */
  lemma AddMemberIdempotent(table: seq<SlotEntry>, counter: int, m: Addr)
    ensures var r := AddMember(table, counter, m); AddMember(r.0, r.1, m) == r
  {
  }

  /** The members recorded against head `ch` in the association memory, in order. */
  function MembersOf(mem: seq<MemoryEntry>, ch: Addr): (r: seq<Addr>)
    ensures |r| <= |mem|
  {
    if mem == [] then []
    else
      var last := mem[|mem| - 1];
      MembersOf(mem[..|mem| - 1], ch) + (if last.chAddr == ch then [last.nodeAddr] else [])
  }

  /** Slots 1..n handed out to `members` in order. */
  function SlotTableOf(members: seq<Addr>): seq<SlotEntry>
  {
    seq(|members|, i requires 0 <= i < |members| => SlotEntry(members[i], i + 1))
  }

  /** With one entry per head, at most one entry names a given head. */
  lemma {:induction false} MembersOfUniqueHead(mem: seq<MemoryEntry>, ch: Addr)
    requires HeadsUnique(mem)
    ensures |MembersOf(mem, ch)| <= 1
    ensures |MembersOf(mem, ch)| == 1 <==> HasHead(mem, ch)
  {
    if mem != [] {
      var prefix := mem[..|mem| - 1];
      assert HeadsUnique(prefix);
      MembersOfUniqueHead(prefix, ch);
      if HasHead(prefix, ch) {
        var i :| 0 <= i < |prefix| && prefix[i].chAddr == ch;
        assert mem[i].chAddr == ch;
      }
      if HasHead(mem, ch) && !HasHead(prefix, ch) {
        var i :| 0 <= i < |mem| && mem[i].chAddr == ch;
        assert i == |mem| - 1;
      }
    }
  }

  /** The schedule generated from the association memory is a well-formed slot table. */
  lemma GeneratedTableValid(mem: seq<MemoryEntry>, ch: Addr)
    requires HeadsUnique(mem)
    ensures SlotTableValid(SlotTableOf(MembersOf(mem, ch)), |MembersOf(mem, ch)| + 1)
  {
    MembersOfUniqueHead(mem, ch);
  }

  // ---------------------------------------------------------------------------
  // Schedule cache (extractedTDMASchedule)

  /** The index of the first entry for `who`, or |cache| when there is none. */
  function FirstIndexOf(cache: seq<SlotEntry>, who: Addr): (k: nat)
    ensures k <= |cache|
    ensures k < |cache| ==> cache[k].nodeAddress == who
    ensures forall j :: 0 <= j < k ==> cache[j].nodeAddress != who
  {
    if cache == [] then 0
    else if cache[0].nodeAddress == who then 0
    else 1 + FirstIndexOf(cache[1..], who)
  }

  /** The delay a member reads from its cache: the first matching slot, or -1. */
  function ReceivedDelay(cache: seq<SlotEntry>, who: Addr): int
  {
    var k := FirstIndexOf(cache, who);
    if k < |cache| then cache[k].tdmaDelay else -1
  }

  /** Once a member has found its slot, appending further entries (repeated or newer
      schedules) never changes the slot it reads, and it stays found. */
  lemma {:induction false} ReceivedDelayStable(cache: seq<SlotEntry>, more: seq<SlotEntry>, who: Addr)
    requires FirstIndexOf(cache, who) < |cache|
    ensures FirstIndexOf(cache + more, who) == FirstIndexOf(cache, who)
    ensures ReceivedDelay(cache + more, who) == ReceivedDelay(cache, who)
  {
    var k := FirstIndexOf(cache, who);
    var k' := FirstIndexOf(cache + more, who);
    assert (cache + more)[k] == cache[k];
  }

  /** A member that finds itself in a well-formed slot table reads the slot given
      by its position: the member that acknowledged i-th waits i + 1. */
  lemma ReceivedDelayInValidTable(table: seq<SlotEntry>, counter: int, i: nat)
    requires SlotTableValid(table, counter) && i < |table|
    ensures ReceivedDelay(table, table[i].nodeAddress) == i + 1
  {
    var k := FirstIndexOf(table, table[i].nodeAddress);
    assert k == i;
  }
}
