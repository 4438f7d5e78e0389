/** The neighbour messages of a telemetry tick: which cell goes into which slot. */
module Slots {
  import opened Wrappers
  import opened LteParsers
  import FakeModem
  import NeighborCache

  const SLOTS := 10
  const FIRST_SUBCMD := 31040

  datatype Message = Message(subcmd: int, pcid: int, rsrp: int, rssi: int, rsrq: int, rssnr: int, earfcn: int)

  /** `None` beyond the tenth slot. */
  function BuildNeighbor(slot: nat, c: Cell): Option<Message> {
    if slot < SLOTS then Some(Message(FIRST_SUBCMD + slot, c.pcid, c.rsrp, c.rssi, c.rsrq, c.rssnr, c.earfcn)) else None
  }

  /** What a receiver reads off a message; the time of the sighting is not sent. */
  function Decode(message: Message): (int, Cell) {
    (message.subcmd - 31040,
     Cell(pcid := message.pcid, rsrp := message.rsrp, rsrq := message.rsrq, rssi := message.rssi,
          rssnr := message.rssnr, earfcn := message.earfcn, lastSeen := 0))
  }

  /** Slot and cell are read back from what is built, and exactly the ten slots can be built. */
  lemma BuildRoundTrip(slot: nat, c: Cell)
    ensures BuildNeighbor(slot, c).Some? <==> slot < 10
    ensures slot < 10 ==> Decode(BuildNeighbor(slot, c).value) == (slot, c.(lastSeen := 0))
  {
  }

  ghost predicate KeyedByPcid(m: map<int, Cell>) { forall p | p in m :: m[p].pcid == p }

  /** The map that the polling loop shares is keyed by pcid, whatever the modem answered. */
  lemma CacheIsKeyed(cfg: NeighborCache.Config, answers: seq<NeighborCache.Answer>)
    ensures KeyedByPcid(NeighborCache.PollAll(cfg, answers).neighbors)
    ensures var shared := NeighborCache.PollAll(cfg, answers).shared; shared.Some? ==> KeyedByPcid(shared.value.neighbors)
  {
    NeighborCache.KeysArePcids(cfg, answers);
    NeighborCache.SharedAgreesAlways(cfg, answers);
  }

  /** An order in which a hash map keyed by pcid may list its values: each exactly once. */
  ghost predicate Lists(listing: seq<Cell>, m: map<int, Cell>) {
    && (forall c :: c in listing <==> c.pcid in m && m[c.pcid] == c)
    && (forall i, j | 0 <= i < j < |listing| :: listing[i] != listing[j])
  }

  /** What a sort by pcid may return. */
  ghost predicate SortedFrom(sorted: seq<Cell>, listing: seq<Cell>) {
    && multiset(sorted) == multiset(listing)
    && forall i, j | 0 <= i < j < |sorted| :: sorted[i].pcid <= sorted[j].pcid
  }

  /** How many cells have a smaller pcid. */
  ghost function Rank(m: map<int, Cell>, p: int): nat { |set q | q in m && q < p| }

  /** The slot messages are the ten cells of least rank, each in the slot of its rank. */
  ghost predicate Canonical(m: map<int, Cell>, messages: seq<Message>) {
    && |messages| == (if |m| < SLOTS then |m| else SLOTS)
    && forall i | 0 <= i < |messages| ::
         var p := messages[i].pcid;
         p in m && Rank(m, p) == i && BuildNeighbor(i, m[p]) == Some(messages[i])
  }

  lemma {:induction false} CountsOnce(s: seq<Cell>, c: Cell)
    requires forall i, j | 0 <= i < j < |s| :: s[i] != s[j]
    ensures multiset(s)[c] <= 1
  {
    if s != [] {
      CountsOnce(s[1..], c);
      assert s == [s[0]] + s[1..];
      assert c == s[0] ==> c !in s[1..];
    }
  }

  /** Sorting a listing leaves a listing. */
  lemma SortedLists(m: map<int, Cell>, listing: seq<Cell>, sorted: seq<Cell>)
    requires Lists(listing, m) && SortedFrom(sorted, listing)
    ensures Lists(sorted, m)
  {
    forall c ensures c in sorted <==> c in listing {
      assert c in sorted <==> c in multiset(sorted);
      assert c in listing <==> c in multiset(listing);
    }
    forall i, j | 0 <= i < j < |sorted| ensures sorted[i] != sorted[j] {
      CountsOnce(listing, sorted[j]);
      assert sorted == sorted[..j] + [sorted[j]] + sorted[j + 1..];
      assert sorted[i] in sorted[..j];
    }
  }

  function Pcids(cells: seq<Cell>): set<int> { set c | c in cells :: c.pcid }

  lemma {:induction false} PcidsSize(cells: seq<Cell>)
    requires forall i, j | 0 <= i < j < |cells| :: cells[i].pcid != cells[j].pcid
    ensures |Pcids(cells)| == |cells|
  {
    if cells != [] {
      var front, last := cells[..|cells| - 1], cells[|cells| - 1];
      PcidsSize(front);
      assert cells == front + [last];
      assert last.pcid !in Pcids(front);
      assert Pcids(cells) == Pcids(front) + {last.pcid};
    }
  }

  /** The pcids of a listing are the keys of the map, so it is as long as the map. */
  lemma ListingSize(m: map<int, Cell>, listing: seq<Cell>)
    requires KeyedByPcid(m) && Lists(listing, m)
    ensures |listing| == |m|
  {
    PcidsSize(listing);
    forall p ensures p in Pcids(listing) <==> p in m.Keys {
      if p in m { assert m[p] in listing; }
    }
    assert Pcids(listing) == m.Keys;
  }

  /** In a sorted listing the index of a cell is its rank. */
  lemma IndexIsRank(m: map<int, Cell>, sorted: seq<Cell>, i: nat)
    requires KeyedByPcid(m) && Lists(sorted, m) && i < |sorted|
    requires forall a, b | 0 <= a < b < |sorted| :: sorted[a].pcid <= sorted[b].pcid
    ensures sorted[i].pcid in m && m[sorted[i].pcid] == sorted[i] && Rank(m, sorted[i].pcid) == i
  {
    assert sorted[i] in sorted;
    var front := sorted[..i];
    var below := set q | q in m && q < sorted[i].pcid;
    PcidsSize(front);
    forall q ensures q in below <==> q in Pcids(front) {
      if q in below {
        assert m[q] in sorted;
        var k :| 0 <= k < |sorted| && sorted[k] == m[q];
        assert front[k] in front && front[k].pcid == q;
      }
      if q in Pcids(front) {
        var k :| 0 <= k < |front| && front[k].pcid == q;
        assert sorted[k] in sorted && sorted[k].pcid == q;
      }
    }
    assert below == Pcids(front);
  }

  /** The reporter's loop: the first ten cells of the sorted listing, one slot each; the builder
      never refuses a slot. */
  method NeighborMessages(m: map<int, Cell>, ghost listing: seq<Cell>, sorted: seq<Cell>) returns (messages: seq<Message>)
    requires KeyedByPcid(m) && Lists(listing, m) && SortedFrom(sorted, listing)
    ensures Canonical(m, messages)
    ensures |messages| == (if |m| < 10 then |m| else 10)
    ensures forall i | 0 <= i < |messages| ::
              && messages[i].subcmd == 31040 + i && messages[i].pcid in m
              && var c := m[messages[i].pcid];
                 && messages[i].pcid == c.pcid && messages[i].rsrp == c.rsrp && messages[i].rssi == c.rssi
                 && messages[i].rsrq == c.rsrq && messages[i].rssnr == c.rssnr && messages[i].earfcn == c.earfcn
  {
    SortedLists(m, listing, sorted);
    ListingSize(m, sorted);
    messages := [];
    var slot := 0;
    while slot < |sorted| && slot < SLOTS
      invariant |messages| == slot <= |sorted| && slot <= SLOTS
      invariant forall i | 0 <= i < slot :: BuildNeighbor(i, sorted[i]) == Some(messages[i])
    {
      var built := BuildNeighbor(slot, sorted[slot]);
      assert built.Some?;
      messages := messages + [built.value];
      slot := slot + 1;
    }
    forall i | 0 <= i < |messages|
      ensures messages[i].pcid in m && Rank(m, messages[i].pcid) == i && BuildNeighbor(i, m[messages[i].pcid]) == Some(messages[i])
    {
      IndexIsRank(m, sorted, i);
    }
  }

  /** Two results for one map are equal: the messages do not depend on the iteration order. */
  lemma CanonicalIsUnique(m: map<int, Cell>, a: seq<Message>, b: seq<Message>)
    requires Canonical(m, a) && Canonical(m, b)
    ensures a == b
  {
    forall i | 0 <= i < |a| ensures a[i] == b[i] {
      RankInjective(m, a[i].pcid, b[i].pcid);
    }
  }

  lemma RankInjective(m: map<int, Cell>, p: int, q: int)
    requires p in m && q in m && Rank(m, p) == Rank(m, q)
    ensures p == q
  {
    if p < q { RankGrows(m, p, q); }
    if q < p { RankGrows(m, q, p); }
  }

  lemma RankGrows(m: map<int, Cell>, p: int, q: int)
    requires p in m && q in m && p < q
    ensures Rank(m, p) < Rank(m, q)
  {
    var below := set x | x in m && x < p;
    var more := set x | x in m && x < q;
    assert below + {p} <= more;
    SubsetSize(below + {p}, more);
  }

  lemma {:induction false} SubsetSize(a: set<int>, b: set<int>)
    requires a <= b
    ensures |a| <= |b|
  {
    assert b == a + (b - a);
    assert |b| == |a| + |b - a|;
  }

  // --- end to end with the simulated modem ---

  /** The message that decodes to a cell in a slot. */
  function MessageOf(subcmd: int, c: Cell): (message: Message)
    ensures Decode(message) == (subcmd - 31040, c.(lastSeen := 0))
    ensures message.rsrp == c.rsrp && message.rsrq == c.rsrq && message.rssi == c.rssi && message.rssnr == c.rssnr
  {
    Message(subcmd := subcmd, pcid := c.pcid, rsrp := c.rsrp, rssi := c.rssi, rsrq := c.rsrq, rssnr := c.rssnr, earfcn := c.earfcn)
  }

  /** A map of two cells has one canonical list of messages: the smaller pcid first. */
  lemma TwoSlots(one: Cell, two: Cell, messages: seq<Message>)
    requires one.pcid == 100 && two.pcid == 200
    ensures Canonical(map[100 := one, 200 := two], messages) <==> messages == [MessageOf(31040, one), MessageOf(31041, two)]
  {
    var m, slots := map[100 := one, 200 := two], [MessageOf(31040, one), MessageOf(31041, two)];
    assert m.Keys == {100, 200} && |m| == |m.Keys| == 2;
    assert (set q | q in m && q < 100) == {};
    assert (set q | q in m && q < 200) == {100};
    assert Rank(m, 100) == 0 && Rank(m, 200) == 1;
    assert Canonical(m, slots);
    if Canonical(m, messages) { CanonicalIsUnique(m, messages, slots); }
  }

  /** Against the simulated modem, once it has answered two queries, a tick sends exactly the two
      cells that were printed last, every value in its own field. */
  lemma {:induction false} SimulatedSlots(cfg: NeighborCache.Config, replies: seq<NeighborCache.Reply>, messages: seq<Message>)
    requires cfg.modem.QuectelEm12? && cfg.expiry >= 0.0 && |replies| >= 2
    requires forall k | 0 <= k < |replies| :: NeighborCache.SimulatedAt(replies[k], k)
    ensures var cells := FakeModem.Neighbors(NeighborCache.LastNeighborQuery(|replies|) + 1);
            Canonical(NeighborCache.PollAll(cfg, NeighborCache.InterpretAll(cfg.modem, replies)).neighbors, messages)
            <==> messages == [MessageOf(31040, cells[0]), MessageOf(31041, cells[1])]
  {
    NeighborCache.SimulationEndToEnd(cfg, replies);
    var n, now := NeighborCache.LastNeighborQuery(|replies|) + 1, NeighborCache.QueriedAt(NeighborCache.Times(replies));
    var cells := FakeModem.Neighbors(n);
    assert NeighborCache.NeighborMap(NeighborCache.SimulatedModem(), n, now)
           == map[100 := cells[0].(lastSeen := now), 200 := cells[1].(lastSeen := now)];
    TwoSlots(cells[0].(lastSeen := now), cells[1].(lastSeen := now), messages);
  }
}
