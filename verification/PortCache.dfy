/** The cache of layer-2 ports (update_l2port_cache of src/mstpd_ovsdb_if.c): the messages
    it sends are the difference between the old and the new set of ports. */
module PortCache {

  import opened Words
  import opened Bitmap
  import opened BitmapScan

  const MAX_LPORTS: nat := 512

  /** Words of a PORT_MAP. */
  const PORT_WORDS: nat := 16

  /** What find_first_port_set and find_next_port_set leave in a uint16_t when there is no
      port. */
  const NO_PORT: nat := 0xffff

  datatype Message = Deleted(lport: nat) | Added(lport: nat)

  /** A port row of the bridge: either without interface data (or the bridge itself), or
      with the logical port of its interface. */
  datatype Row = NoInterface | Interface(lport: nat)

  // ---------------------------------------------------------------------------
  // The messages as a function of the two sets
  // ---------------------------------------------------------------------------

  ghost function PortsOf(rows: seq<Row>): set<nat> {
    if |rows| == 0 then {}
    else PortsOf(rows[..|rows| - 1]) + if rows[|rows| - 1].Interface? then {rows[|rows| - 1].lport} else {}
  }

  /** The members of a set up to n, in ascending order. */
  ghost function Listed(s: set<nat>, n: nat): seq<nat> {
    if n == 0 then [] else Listed(s, n - 1) + if n in s then [n] else []
  }

  ghost function Deletions(ports: seq<nat>): (r: seq<Message>)
    ensures |r| == |ports|
  {
    seq(|ports|, i requires 0 <= i < |ports| => Deleted(ports[i]))
  }

  ghost function Additions(ports: seq<nat>): (r: seq<Message>)
    ensures |r| == |ports|
  {
    seq(|ports|, i requires 0 <= i < |ports| => Added(ports[i]))
  }

  ghost function Elements(ports: seq<nat>): set<nat> {
    set p | p in ports
  }

  /** What the receiver of the messages ends up with. */
  ghost function Replay(ports: set<nat>, ms: seq<Message>): set<nat> {
    if |ms| == 0 then ports
    else
      var before := Replay(ports, ms[..|ms| - 1]);
      match ms[|ms| - 1]
      case Deleted(p) => before - {p}
      case Added(p) => before + {p}
  }

  /** Listed names every member once, in ascending order. */
  lemma {:induction false} ListedAscends(s: set<nat>, n: nat)
    ensures forall i, j | 0 <= i < j < |Listed(s, n)| :: Listed(s, n)[i] < Listed(s, n)[j]
    ensures forall p: nat :: p in Listed(s, n) <==> p in s && 1 <= p <= n
  {
    if n > 0 {
      ListedAscends(s, n - 1);
      var before := Listed(s, n - 1);
      assert forall i | 0 <= i < |before| :: before[i] in before;
    }
  }

  /** Numbers that are not members add nothing. */
  lemma {:induction false} ListedGap(s: set<nat>, last: nat, n: nat)
    requires last <= n && forall p: nat | last < p <= n :: p !in s
    ensures Listed(s, n) == Listed(s, last)
  {
    if last < n {
      ListedGap(s, last, n - 1);
      assert n !in s;
    }
  }

  lemma {:induction false} ReplayAppends(ports: set<nat>, ms: seq<Message>, more: seq<Message>)
    ensures Replay(ports, ms + more) == Replay(Replay(ports, ms), more)
  {
    if |more| == 0 {
      assert ms + more == ms;
    } else {
      ReplayAppends(ports, ms, more[..|more| - 1]);
      assert (ms + more)[..|ms + more| - 1] == ms + more[..|more| - 1];
    }
  }

  lemma {:induction false} ReplayDeletions(ports: set<nat>, list: seq<nat>)
    ensures Replay(ports, Deletions(list)) == ports - Elements(list)
  {
    if |list| > 0 {
      ReplayDeletions(ports, list[..|list| - 1]);
      assert Deletions(list)[..|list| - 1] == Deletions(list[..|list| - 1]);
      assert list == list[..|list| - 1] + [list[|list| - 1]];
    }
  }

  lemma {:induction false} ReplayAdditions(ports: set<nat>, list: seq<nat>)
    ensures Replay(ports, Additions(list)) == ports + Elements(list)
  {
    if |list| > 0 {
      ReplayAdditions(ports, list[..|list| - 1]);
      assert Additions(list)[..|list| - 1] == Additions(list[..|list| - 1]);
      assert list == list[..|list| - 1] + [list[|list| - 1]];
    }
  }

  /** The messages from one set of ports to another. */
  ghost function Delta(o: set<nat>, n: set<nat>): seq<Message> {
    Deletions(Listed(o - n, MAX_LPORTS)) + Additions(Listed(n - o, MAX_LPORTS))
  }

  /** Replaying them on the old set yields the new one. */
  lemma ReplayDelta(o: set<nat>, n: set<nat>)
    requires forall p | p in o || p in n :: 1 <= p <= MAX_LPORTS
    ensures Replay(o, Delta(o, n)) == n
  {
    hide Listed, Replay, Deletions, Additions;
    var del, add := Listed(o - n, MAX_LPORTS), Listed(n - o, MAX_LPORTS);
    ListedAscends(o - n, MAX_LPORTS);
    ListedAscends(n - o, MAX_LPORTS);
    assert Elements(del) == o - n && Elements(add) == n - o;
    hide Elements;
    ReplayAppends(o, Deletions(del), Additions(add));
    ReplayDeletions(o, del);
    ReplayAdditions(o - (o - n), add);
    assert (o - (o - n)) + (n - o) == n;
  }

  /** The gate compares counts only: exchanging one port for another goes unnoticed. */
  lemma ExchangeKeepsCount()
    ensures |[Interface(1)]| == |[Interface(2)]| && PortsOf([Interface(1)]) == {1} && PortsOf([Interface(2)]) == {2}
  {
  }

  // ---------------------------------------------------------------------------
  // The cache
  // ---------------------------------------------------------------------------

  class Cache {
    const l2ports: array<Word>
    const cistLookup: array<bool>     // cist_port_lookup: whether there is an entry
    const mstiLookup: array2<bool>    // msti_port_lookup, by instance and port
    var nL2ports: nat
    var sent: seq<Message>

    /** The cache at the start of the daemon: static memory, all zero. */
    constructor (instances: nat)
      ensures Valid() && Ports() == {} && nL2ports == 0 && sent == []
      ensures mstiLookup.Length0 == instances + 1 && fresh(l2ports) && fresh(cistLookup) && fresh(mstiLookup)
      ensures forall p | 0 <= p <= MAX_LPORTS :: !cistLookup[p]
      ensures forall j, p | 0 < j <= instances && 0 <= p <= MAX_LPORTS :: !mstiLookup[j, p]
    {
      l2ports := new Word[PORT_WORDS](_ => 0);
      cistLookup := new bool[MAX_LPORTS + 1](_ => false);
      mstiLookup := new bool[instances + 1, MAX_LPORTS + 1]((_, _) => false);
      nL2ports, sent := 0, [];
      new;
      PortBits();
      ZerosAreNone(l2ports[..], MAX_LPORTS);
    }

    ghost predicate Valid()
      reads this, l2ports
    {
      && l2ports.Length == PORT_WORDS && Clean(l2ports[..], MAX_LPORTS)
      && cistLookup.Length == mstiLookup.Length1 == MAX_LPORTS + 1 && mstiLookup.Length0 > 0
    }

    ghost function Ports(): set<nat>
      requires l2ports.Length == PORT_WORDS
      reads l2ports
    {
      Members(l2ports[..], MAX_LPORTS)
    }

    /** update_l2port_cache. Nothing happens while the number of port rows is the one seen
        last. Past that gate the messages sent are those from the old set to the new one, the
        lookups of deleted ports are dropped, and the number is remembered only if the sets
        differ. */
    method UpdateL2PortCache(rows: seq<Row>) returns (rc: nat)
      requires Valid()
      requires forall i | 0 <= i < |rows| && rows[i].Interface? :: 1 <= rows[i].lport <= MAX_LPORTS
      modifies this`nL2ports, this`sent, l2ports, cistLookup, mstiLookup
      ensures Valid()
      ensures old(nL2ports) == |rows| ==>
        rc == 0 && Ports() == old(Ports()) && sent == old(sent) && nL2ports == old(nL2ports)
      ensures old(nL2ports) != |rows| ==>
        && Ports() == PortsOf(rows)
        && sent == old(sent) + Delta(old(Ports()), PortsOf(rows))
        && rc == |Listed(PortsOf(rows) - old(Ports()), MAX_LPORTS)|
        && nL2ports == if old(Ports()) == PortsOf(rows) then old(nL2ports) else |rows|
      ensures Ports() == PortsOf(rows) <==> old(nL2ports) != |rows| || old(Ports()) == PortsOf(rows)
      ensures forall p | 0 <= p <= MAX_LPORTS ::
                cistLookup[p] == (old(cistLookup[p]) && (p in old(Ports()) ==> p in Ports()))
      ensures forall j, p | 0 < j < mstiLookup.Length0 && 0 <= p <= MAX_LPORTS ::
                mstiLookup[j, p] == (old(mstiLookup[j, p]) && (p in old(Ports()) ==> p in Ports()))
    {
      hide Members, Clean, RestKept, WordsFor, PortsOf, Listed;
      PortBits();
      rc := 0;
      if nL2ports != |rows| {
        var tempPorts := RowPorts(rows);
        ghost var o, n := Ports(), PortsOf(rows);
        var equal := AreEqual(l2ports, tempPorts, MAX_LPORTS);
        if equal {
          assert o - n == {} && n - o == {};
          EmptyListed(MAX_LPORTS);
        } else {
          var delPortMap := Difference(l2ports, tempPorts);
          var addPortMap := Difference(tempPorts, l2ports);
          SendDeletions(delPortMap);
          rc := SendAdditions(addPortMap);
          Copy(tempPorts, l2ports, MAX_LPORTS);
          nL2ports := |rows|;
        }
      }
    }

    /** The loop over the ports to delete, guarded by are_any_ports_set. */
    method SendDeletions(delPortMap: array<Word>)
      requires Valid() && delPortMap.Length == PORT_WORDS && delPortMap != l2ports && Clean(delPortMap[..], MAX_LPORTS)
      modifies this`sent, cistLookup, mstiLookup
      ensures sent == old(sent) + Deletions(Listed(Members(delPortMap[..], MAX_LPORTS), MAX_LPORTS))
      ensures forall p | 0 <= p <= MAX_LPORTS ::
                cistLookup[p] == (old(cistLookup[p]) && p !in Members(delPortMap[..], MAX_LPORTS))
      ensures forall j, p | 0 < j < mstiLookup.Length0 && 0 <= p <= MAX_LPORTS ::
                mstiLookup[j, p] == (old(mstiLookup[j, p]) && p !in Members(delPortMap[..], MAX_LPORTS))
    {
      hide In, Clean, WordsFor;
      PortBits();
      ghost var s := Members(delPortMap[..], MAX_LPORTS);
      var any := AreAny(delPortMap, MAX_LPORTS);
      EmptyListed(MAX_LPORTS);
      if any {
        ghost var last: nat := 0;
        var lport: nat := FirstPort(delPortMap);
        while lport <= MAX_LPORTS
          invariant last <= MAX_LPORTS && lport >= 0 && NextPort(s, last, lport)
          invariant sent == old(sent) + Deletions(Listed(s, last))
          invariant forall p | 0 <= p <= MAX_LPORTS :: cistLookup[p] == (old(cistLookup[p]) && !(p in s && p <= last))
          invariant forall j, p | 0 < j < mstiLookup.Length0 && 0 <= p <= MAX_LPORTS ::
                      mstiLookup[j, p] == (old(mstiLookup[j, p]) && !(p in s && p <= last))
          decreases MAX_LPORTS - last
        {
          sent := sent + [Deleted(lport)];
          cistLookup[lport] := false;
          DropMstiLookups(lport);
          NextListed(s, last, lport);
          last := lport;
          lport := PortAfter(delPortMap, lport);
        }
        ListedGap(s, last, MAX_LPORTS);
      }
    }

    method DropMstiLookups(lport: nat)
      requires lport < mstiLookup.Length1 && mstiLookup.Length0 > 0
      modifies mstiLookup
      ensures forall j, p | 0 <= j < mstiLookup.Length0 && 0 <= p < mstiLookup.Length1 ::
                mstiLookup[j, p] == (old(mstiLookup[j, p]) && (j > 0 ==> p != lport))
    {
      for j := 1 to mstiLookup.Length0
        invariant forall i, p | 0 <= i < mstiLookup.Length0 && 0 <= p < mstiLookup.Length1 ::
                    mstiLookup[i, p] == (old(mstiLookup[i, p]) && (0 < i < j ==> p != lport))
      {
        if mstiLookup[j, lport] {
          mstiLookup[j, lport] := false;
        }
      }
    }

    /** The loop over the ports to add, guarded by are_any_ports_set. */
    method SendAdditions(addPortMap: array<Word>) returns (rc: nat)
      requires Valid() && addPortMap.Length == PORT_WORDS && Clean(addPortMap[..], MAX_LPORTS)
      modifies this`sent
      ensures var list := Listed(Members(addPortMap[..], MAX_LPORTS), MAX_LPORTS);
        sent == old(sent) + Additions(list) && rc == |list|
    {
      hide In, Clean, WordsFor;
      PortBits();
      ghost var s := Members(addPortMap[..], MAX_LPORTS);
      var any := AreAny(addPortMap, MAX_LPORTS);
      EmptyListed(MAX_LPORTS);
      rc := 0;
      if any {
        ghost var last: nat := 0;
        var lport: nat := FirstPort(addPortMap);
        while lport <= MAX_LPORTS
          invariant last <= MAX_LPORTS && lport >= 0 && NextPort(s, last, lport)
          invariant sent == old(sent) + Additions(Listed(s, last)) && rc == |Listed(s, last)|
          decreases MAX_LPORTS - last
        {
          rc := rc + 1;
          sent := sent + [Added(lport)];
          NextListed(s, last, lport);
          last := lport;
          lport := PortAfter(addPortMap, lport);
        }
        ListedGap(s, last, MAX_LPORTS);
      }
    }
  }

  lemma PortBits()
    ensures WordsFor(MAX_LPORTS) == PORT_WORDS
  {
  }

  lemma {:induction false} EmptyListed(n: nat)
    ensures Listed({}, n) == []
  {
    if n > 0 {
      EmptyListed(n - 1);
    }
  }

  /** lport is the next member of s after `last`, or NO_PORT. */
  ghost predicate NextPort(s: set<nat>, last: nat, lport: nat) {
    if lport == NO_PORT then forall p: nat | last < p <= MAX_LPORTS :: p !in s
    else last < lport <= MAX_LPORTS && lport in s && forall p: nat | last < p < lport :: p !in s
  }

  lemma NextListed(s: set<nat>, last: nat, lport: nat)
    requires last < lport <= MAX_LPORTS && NextPort(s, last, lport)
    ensures Listed(s, lport) == Listed(s, last) + [lport]
  {
    ListedGap(s, last, lport - 1);
  }

  /** The gate compares counts only: after port 1 has been exchanged for port 2 the cache still
      holds port 1, and no message has been sent. */
  method ExchangeMissed() returns (cache: Cache)
    ensures cache.Valid() && cache.Ports() == PortsOf([Interface(1)]) == {1} && PortsOf([Interface(2)]) == {2}
    ensures cache.sent == Delta({}, {1})
  {
    hide Delta, PortsOf, Listed;
    ExchangeKeepsCount();
    cache := new Cache(64);
    var rc := cache.UpdateL2PortCache([Interface(1)]);
    assert [] + Delta({}, {1}) == Delta({}, {1});
    assert 1 in cache.Ports();
    rc := cache.UpdateL2PortCache([Interface(2)]);
  }

  /** find_first_port_set, stored in a uint16_t. */
  method FirstPort(portMap: array<Word>) returns (lport: nat)
    requires portMap.Length == PORT_WORDS
    ensures NextPort(Members(portMap[..], MAX_LPORTS), 0, lport)
  {
    hide In;
    PortBits();
    var r := FindFirst(portMap, MAX_LPORTS);
    lport := if r == -1 then NO_PORT else r;
  }

  /** find_next_port_set, stored in a uint16_t. */
  method PortAfter(portMap: array<Word>, prev: nat) returns (lport: nat)
    requires portMap.Length == PORT_WORDS && prev <= MAX_LPORTS
    ensures NextPort(Members(portMap[..], MAX_LPORTS), prev, lport)
  {
    hide In;
    PortBits();
    var r := FindNext(portMap, prev, MAX_LPORTS);
    lport := if r == -1 then NO_PORT else r;
  }

  /** The ports of the rows as a port map. */
  method RowPorts(rows: seq<Row>) returns (portMap: array<Word>)
    requires forall i | 0 <= i < |rows| && rows[i].Interface? :: 1 <= rows[i].lport <= MAX_LPORTS
    ensures fresh(portMap) && portMap.Length == PORT_WORDS && Clean(portMap[..], MAX_LPORTS)
    ensures Members(portMap[..], MAX_LPORTS) == PortsOf(rows)
  {
    hide Members, In, WordsFor;
    PortBits();
    portMap := new Word[PORT_WORDS];
    Clear(portMap, MAX_LPORTS);
    for i := 0 to |rows|
      invariant Clean(portMap[..], MAX_LPORTS) && Members(portMap[..], MAX_LPORTS) == PortsOf(rows[..i])
    {
      assert rows[..i + 1][..i] == rows[..i];
      if rows[i].Interface? {
        SetBit(portMap, rows[i].lport, MAX_LPORTS);
      }
    }
    assert rows[..|rows|] == rows;
  }

  /** The ports of one map that the other does not have: copy, inverse, and. */
  method Difference(a: array<Word>, b: array<Word>) returns (d: array<Word>)
    requires a.Length == PORT_WORDS && b.Length == PORT_WORDS
    ensures fresh(d) && d.Length == PORT_WORDS && Clean(d[..], MAX_LPORTS)
    ensures Members(d[..], MAX_LPORTS) == Members(a[..], MAX_LPORTS) - Members(b[..], MAX_LPORTS)
  {
    PortBits();
    d := new Word[PORT_WORDS];
    Copy(b, d, MAX_LPORTS);
    BitInverse(d, MAX_LPORTS);
    BitAnd(a, d, MAX_LPORTS);
  }
}
