/**
 Simulated transport: a queue of packets in order of arrival, broadcast to
 neighbours, per-packet loss and delay. Random draws are a parameter.
 */
module Transport {
  import opened Types

  /** Neighbours of each agent, in the order a broadcast visits them. */
  type Topology = map<AgentId, seq<AgentId>>

  /** What the random draws decide for one packet. */
  datatype Fate = Lost | Delayed(ticks: int)

  /** Connectivity per tick, and the fate of the packet sent at a tick from one agent to another. */
  datatype Network = Network(topology: nat -> Topology, fate: (nat, AgentId, AgentId) -> Fate)

  datatype Packet = Packet(due: int, dest: AgentId, message: PriceTableMessage)

  function Neighbours(network: Network, now: nat, sender: AgentId): seq<AgentId> {
    var adjacency := network.topology(now);
    if sender in adjacency then adjacency[sender] else []
  }

  /** When a packet sent now with this delay arrives. */
  function DueAt(now: nat, delay: int): int {
    now + 1 + if delay > 0 then delay else 0
  }

  /** The queue in the order the heap pops it: by due tick, first sent first. */
  ghost predicate Sorted(queue: seq<Packet>) {
    forall i, j | 0 <= i < j < |queue| :: queue[i].due <= queue[j].due
  }

  /** Heap push: behind every packet due no later. */
  function Push(queue: seq<Packet>, p: Packet): seq<Packet> {
    if queue == [] || queue[|queue| - 1].due <= p.due then queue + [p]
    else Push(queue[..|queue| - 1], p) + [queue[|queue| - 1]]
  }

  /** The queue after broadcasting to these neighbours. */
  function Enqueue(fate: (nat, AgentId, AgentId) -> Fate, queue: seq<Packet>, message: PriceTableMessage,
                   neighbours: seq<AgentId>, now: nat): seq<Packet>
  {
    if neighbours == [] then queue
    else
      var rest, dest := neighbours[..|neighbours| - 1], neighbours[|neighbours| - 1];
      var before := Enqueue(fate, queue, message, rest, now);
      match fate(now, message.sender, dest)
      case Lost => before
      case Delayed(ticks) => Push(before, Packet(DueAt(now, ticks), dest, message))
  }

  function Send(network: Network, queue: seq<Packet>, message: PriceTableMessage, now: nat): seq<Packet> {
    Enqueue(network.fate, queue, message, Neighbours(network, now, message.sender), now)
  }

  /** How many packets at the front of the queue are due. */
  function DueCount(queue: seq<Packet>, now: nat): (n: nat)
    ensures n <= |queue|
  {
    if queue == [] || queue[0].due > now then 0 else 1 + DueCount(queue[1..], now)
  }

  lemma {:induction false} PushMembers(queue: seq<Packet>, p: Packet, x: Packet)
    ensures x in Push(queue, p) <==> x == p || x in queue
  {
    if !(queue == [] || queue[|queue| - 1].due <= p.due) {
      var init, last := queue[..|queue| - 1], queue[|queue| - 1];
      PushMembers(init, p, x);
      assert queue == init + [last];
    }
  }

  lemma {:induction false} PushKeepsSorted(queue: seq<Packet>, p: Packet)
    requires Sorted(queue)
    ensures Sorted(Push(queue, p))
  {
    if !(queue == [] || queue[|queue| - 1].due <= p.due) {
      var init, last := queue[..|queue| - 1], queue[|queue| - 1];
      PushKeepsSorted(init, p);
      var pushed := Push(init, p);
      forall i | 0 <= i < |pushed| ensures pushed[i].due <= last.due {
        assert pushed[i] in pushed;
        PushMembers(init, p, pushed[i]);
        if pushed[i] in init {
          var j :| 0 <= j < |init| && init[j] == pushed[i];
        }
      }
    }
  }

  /** `x` is the packet for `dest` of a broadcast now, and it is not lost. */
  ghost predicate IsSent(fate: (nat, AgentId, AgentId) -> Fate, message: PriceTableMessage, dest: AgentId, now: nat,
                         x: Packet)
  {
    match fate(now, message.sender, dest)
    case Lost => false
    case Delayed(ticks) => x == Packet(DueAt(now, ticks), dest, message)
  }

  lemma {:induction false} EnqueueMembers(fate: (nat, AgentId, AgentId) -> Fate, queue: seq<Packet>,
                                          message: PriceTableMessage, neighbours: seq<AgentId>, now: nat, x: Packet)
    ensures x in Enqueue(fate, queue, message, neighbours, now)
            <==> x in queue || (x.dest in neighbours && IsSent(fate, message, x.dest, now, x))
  {
    if neighbours != [] {
      var rest, dest := neighbours[..|neighbours| - 1], neighbours[|neighbours| - 1];
      var before := Enqueue(fate, queue, message, rest, now);
      EnqueueMembers(fate, queue, message, rest, now, x);
      assert neighbours == rest + [dest];
      match fate(now, message.sender, dest)
      case Lost =>
      case Delayed(ticks) => PushMembers(before, Packet(DueAt(now, ticks), dest, message), x);
    }
  }

  lemma {:induction false} EnqueueKeepsSorted(fate: (nat, AgentId, AgentId) -> Fate, queue: seq<Packet>,
                                              message: PriceTableMessage, neighbours: seq<AgentId>, now: nat)
    requires Sorted(queue)
    ensures Sorted(Enqueue(fate, queue, message, neighbours, now))
  {
    if neighbours != [] {
      var rest, dest := neighbours[..|neighbours| - 1], neighbours[|neighbours| - 1];
      EnqueueKeepsSorted(fate, queue, message, rest, now);
      match fate(now, message.sender, dest)
      case Lost =>
      case Delayed(ticks) =>
        PushKeepsSorted(Enqueue(fate, queue, message, rest, now), Packet(DueAt(now, ticks), dest, message));
    }
  }

  /** Everything in front is due, and in a sorted queue nothing behind is. */
  lemma {:induction false} DueCountSplits(queue: seq<Packet>, now: nat)
    ensures forall i | 0 <= i < DueCount(queue, now) :: queue[i].due <= now
    ensures DueCount(queue, now) < |queue| ==> queue[DueCount(queue, now)].due > now
    ensures Sorted(queue) ==> forall i | DueCount(queue, now) <= i < |queue| :: queue[i].due > now
  {
    if queue != [] && queue[0].due <= now {
      DueCountSplits(queue[1..], now);
      var n := DueCount(queue[1..], now);
      forall i | 0 <= i < 1 + n ensures queue[i].due <= now {
        assert i == 0 || queue[i] == queue[1..][i - 1];
      }
      if n + 1 < |queue| {
        assert queue[n + 1] == queue[1..][n];
      }
    }
  }

  /** A due packet within or just behind the due ones is one of them. */
  lemma DueCountNext(queue: seq<Packet>, now: nat, k: nat)
    requires k <= DueCount(queue, now) && k < |queue| && queue[k].due <= now
    ensures k + 1 <= DueCount(queue, now)
  {
    DueCountSplits(queue, now);
  }

  /** Where popping stops: everything due is out, and nothing else. */
  lemma DueCountReached(queue: seq<Packet>, now: nat, k: nat)
    requires Sorted(queue) && k <= DueCount(queue, now) && (k == |queue| || queue[k].due > now)
    ensures k == DueCount(queue, now) && Sorted(queue[k..])
    ensures forall p | p in queue[..k] :: p.due <= now
    ensures forall p | p in queue[k..] :: p.due > now
  {
    DueCountSplits(queue, now);
  }

  class SimTransport {
    const network: Network
    var queue: seq<Packet>
    var messagesSent: nat

    ghost predicate Valid()
      reads this
    {
      Sorted(queue)
    }

    constructor (network: Network)
      ensures Valid() && this.network == network
      ensures queue == [] && messagesSent == 0
    {
      this.network := network;
      queue, messagesSent := [], 0;
    }

    /** Broadcast to the sender's current neighbours; lost packets are counted but not queued. */
    method Broadcast(message: PriceTableMessage, now: nat)
      requires Valid()
      modifies this
      ensures Valid()
      ensures queue == Send(network, old(queue), message, now)
      ensures forall b, d: int | message.sender in network.topology(now)
                                 && b in network.topology(now)[message.sender]
                                 && network.fate(now, message.sender, b) == Delayed(d) ::
                Packet(if d >= 0 then now + 1 + d else now + 1, b, message) in queue
      ensures forall x | x in queue && x !in old(queue) ::
                && x.message == message && message.sender in network.topology(now)
                && x.dest in network.topology(now)[message.sender]
                && exists d: int :: network.fate(now, message.sender, x.dest) == Delayed(d)
                                    && x.due == if d >= 0 then now + 1 + d else now + 1
      ensures messagesSent
              == old(messagesSent)
                 + if message.sender in network.topology(now) then |network.topology(now)[message.sender]| else 0
    {
      var neighbours := Neighbours(network, now, message.sender);
      for k := 0 to |neighbours|
        invariant queue == Enqueue(network.fate, old(queue), message, neighbours[..k], now)
        invariant messagesSent == old(messagesSent) + k
      {
        var dest := neighbours[k];
        messagesSent := messagesSent + 1;
        assert neighbours[..k + 1][..k] == neighbours[..k];
        match network.fate(now, message.sender, dest) {
          case Lost =>
          case Delayed(ticks) =>
            queue := Push(queue, Packet(DueAt(now, ticks), dest, message));
        }
      }
      assert neighbours[..|neighbours|] == neighbours;
      EnqueueKeepsSorted(network.fate, old(queue), message, neighbours, now);
      forall x: Packet ensures x in queue
          <==> x in old(queue) || (x.dest in neighbours && IsSent(network.fate, message, x.dest, now, x))
      {
        EnqueueMembers(network.fate, old(queue), message, neighbours, now, x);
      }
    }

    /** Pop everything that is due: nothing due stays behind, nothing early comes out, order is kept. */
    method DeliverDue(now: nat) returns (due: seq<Packet>)
      requires Valid()
      modifies this`queue
      ensures Valid()
      ensures old(queue) == due + queue
      ensures forall p | p in due :: p.due <= now
      ensures forall p | p in queue :: p.due > now
      ensures due == old(queue)[..DueCount(old(queue), now)]
    {
      due := [];
      ghost var all := queue;
      while queue != [] && queue[0].due <= now
        invariant |due| <= |all| && due == all[..|due|] && queue == all[|due|..]
        invariant |due| <= DueCount(all, now)
        decreases |queue|
      {
        DueCountNext(all, now, |due|);
        due, queue := due + [queue[0]], queue[1..];
      }
      DueCountReached(all, now, |due|);
    }
  }
}
