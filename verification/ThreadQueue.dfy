/** The circular doubly linked list of src/mstpd_inlines.c, and the traversals of the queue
    of tree messages in src/mstpd_ctrl.c and src/mstpd_init.c. Port maps are sets here. */
module ThreadQueue {

  /** The port maps of a message. */
  datatype Maps = Maps(fwd: set<nat>, lrn: set<nat>, blk: set<nat>, up: set<nat>, dwn: set<nat>, flush: set<nat>)

  /** MSTP_TREE_MSG_t, which begins with its QUEUE_THREAD. The queue head is used as one of
      these too, with its links only. A node outside any queue has no forward link. */
  class Node {
    var flink: Node?
    var blink: Node?
    const mstid: nat
    var maps: Maps

    constructor (mstid: nat, maps: Maps)
      ensures this.mstid == mstid && this.maps == maps && flink == null && blink == null
    {
      this.mstid := mstid;
      this.maps := maps;
      flink := null;
      blink := null;
    }
  }

  const MSTP_INSTANCES_MAX: nat := 64

  /** What one message makes the daemon tell the database and the hardware. */
  datatype Event =
    | Down(ports: set<nat>)
    | Blocking(mstid: nat, ports: set<nat>)
    | Learning(mstid: nat, ports: set<nat>)
    | Forwarding(mstid: nat, ports: set<nat>)
    | Up(ports: set<nat>)
    | Flush(mstid: nat, ports: set<nat>)

  ghost function Opt(ports: set<nat>, e: Event): seq<Event> {
    if ports == {} then [] else [e]
  }

  /** The log after one message, its events in order. Addresses are flushed on the timer
      only. */
  ghost function Logged(log: seq<Event>, mstid: nat, m: Maps, timer: bool): seq<Event> {
    log + Opt(m.dwn, Down(m.dwn)) + Opt(m.blk, Blocking(mstid, m.blk)) + Opt(m.lrn, Learning(mstid, m.lrn))
    + Opt(m.fwd, Forwarding(mstid, m.fwd)) + Opt(m.up, Up(m.up))
    + (if timer && mstid <= MSTP_INSTANCES_MAX then Opt(m.flush, Flush(mstid, m.flush)) else [])
  }

  ghost function LoggedAll(log: seq<Event>, ms: seq<(nat, Maps)>, timer: bool): seq<Event> {
    if |ms| == 0 then log
    else Logged(LoggedAll(log, ms[..|ms| - 1], timer), ms[|ms| - 1].0, ms[|ms| - 1].1, timer)
  }

  lemma LoggedStart(log: seq<Event>, ms: seq<(nat, Maps)>, timer: bool)
    ensures LoggedAll(log, ms[..0], timer) == log
  {
  }

  lemma LoggedNext(log: seq<Event>, ms: seq<(nat, Maps)>, k: nat, timer: bool)
    requires k < |ms|
    ensures LoggedAll(log, ms[..k + 1], timer) == Logged(LoggedAll(log, ms[..k], timer), ms[k].0, ms[k].1, timer)
  {
    hide Logged;
    assert ms[..k + 1][..k] == ms[..k];
  }

  ghost function Snapshot(nodes: seq<Node>): (s: seq<(nat, Maps)>)
    reads nodes
    ensures |s| == |nodes|
  {
    seq(|nodes|, i requires 0 <= i < |nodes| reads nodes => (nodes[i].mstid, nodes[i].maps))
  }

  /** The maps of a message after it has been propagated: flush requests stay. */
  function Informed(m: Maps): Maps {
    m.(dwn := {}, blk := {}, lrn := {}, fwd := {}, up := {})
  }

  /** The maps of a message without one port. */
  function WithoutPort(m: Maps, p: nat): Maps {
    Maps(m.fwd - {p}, m.lrn - {p}, m.blk - {p}, m.up - {p}, m.dwn - {p}, m.flush - {p})
  }

  /** A ring from which the node after position i has been taken out. */
  lemma Without(c: seq<Node>, n: seq<Node>, i: nat)
    requires i + 2 < |c| && n == c[..i + 1] + c[i + 2..]
    ensures |n| == |c| - 1 && forall j | 0 <= j < |n| :: n[j] == if j <= i then c[j] else c[j + 1]
    ensures n[1..|n| - 1] == c[1..|c| - 1][..i] + c[1..|c| - 1][i + 1..]
  {
  }

  class Queue {
    const head: Node
    ghost var ring: seq<Node>   // head, the messages in order, and head again
    ghost var repr: set<Node>
    var log: seq<Event>         // what the database and the hardware have been told

    ghost predicate Valid()
      reads this`ring, this`repr, repr`flink, repr`blink
    {
      && |ring| >= 2 && ring[0] == head && ring[|ring| - 1] == head
      && (forall i | 0 <= i < |ring| :: ring[i] in repr)
      && (forall i, j | 0 <= i < j < |ring| - 1 :: ring[i] != ring[j])
      && (forall i | 0 <= i < |ring| - 1 :: ring[i].flink == ring[i + 1])
      && (forall i | 0 < i < |ring| :: ring[i].blink == ring[i - 1])
    }

    /** The messages in the queue, in order. */
    ghost function Items(): (s: seq<Node>)
      reads this`ring
    {
      if |ring| >= 2 then ring[1..|ring| - 1] else []
    }

    /** inique_nodis. */
    constructor ()
      ensures Valid() && Items() == [] && log == [] && fresh(repr)
    {
      log := [];
      head := new Node(0, Maps({}, {}, {}, {}, {}, {}));
      new;
      head.flink := head;
      head.blink := head;
      ring := [head, head];
      repr := {head};
    }

    /** A node without a forward link is not in the ring. */
    lemma Outside(node: Node)
      requires Valid() && node.flink == null
      ensures forall i | 0 <= i < |ring| :: ring[i] != node
    {
      forall i | 0 <= i < |ring|
        ensures ring[i] != node
      {
        var j := if i == |ring| - 1 then 0 else i;
        assert ring[j] == ring[i] && ring[j].flink == ring[j + 1];
      }
    }

    /** insqti_nodis: the item goes to the end; the result tells whether there were others. */
    method Insqti(newItem: Node) returns (nonempty: bool)
      requires Valid() && newItem.flink == null
      modifies this`ring, this`repr, newItem`flink, newItem`blink, repr`flink, repr`blink
      ensures Valid() && Items() == old(Items()) + [newItem] && nonempty == (old(Items()) != [])
      ensures repr == old(repr) + {newItem}
    {
      ghost var c, k := ring, |ring| - 1;
      Outside(newItem);
      assert c[k].blink == c[k - 1] && c[k - 1].flink == c[k];
      nonempty := head.blink != head;
      newItem.flink := head;
      newItem.blink := head.blink;
      head.blink.flink := newItem;
      head.blink := newItem;
      ring := c[..k] + [newItem, head];
      repr := repr + {newItem};
      forall i | 0 <= i < |ring| - 1
        ensures ring[i].flink == ring[i + 1]
      {
        if i < k - 1 {
          assert c[i] != c[k - 1] && old(c[i].flink) == c[i + 1];
        }
      }
      forall i | 0 < i < |ring|
        ensures ring[i].blink == ring[i - 1]
      {
        if 0 < i < k {
          assert c[i] != c[0] && old(c[i].blink) == c[i - 1];
        }
      }
    }

    /** qfirst_nodis. */
    method QFirst() returns (item: Node?)
      requires Valid()
      ensures item == if Items() == [] then null else Items()[0]
    {
      assert ring[0].flink == ring[1];
      item := head.flink;
      if item == head {
        item := null;
      }
    }

    /** qnext_nodis. */
    method QNext(currentItem: Node, ghost i: nat) returns (nextItem: Node?)
      requires Valid() && i < |Items()| && Items()[i] == currentItem
      ensures nextItem == if i + 1 < |Items()| then Items()[i + 1] else null
    {
      assert ring[i + 1].flink == ring[i + 2];
      if currentItem.flink == head {
        nextItem := null;
      } else {
        nextItem := currentItem.flink;
      }
    }

    /** remqhere_nodis. The head and items outside any queue are left alone. */
    method RemqHere(currentItem: Node, ghost i: nat) returns (rtnValue: bool)
      requires Valid()
      requires currentItem == head || currentItem.flink == null || (i < |Items()| && Items()[i] == currentItem)
      modifies this`ring, repr`flink, repr`blink
      ensures Valid() && rtnValue == (currentItem != head && old(currentItem.flink) != null)
      ensures !rtnValue ==> Items() == old(Items())
      ensures rtnValue ==> i < |old(Items())| && Items() == old(Items()[..i] + Items()[i + 1..])
      ensures rtnValue ==> currentItem.flink == null && currentItem.blink == null
    {
      rtnValue := false;
      if currentItem != head && currentItem.flink != null {
        ghost var c := ring;
        Around(i);
        Unlink(currentItem, i);
        Without(c, ring, i);
        rtnValue := true;
      }
    }

    /** The removal itself. */
    method Unlink(currentItem: Node, ghost i: nat)
      requires Valid() && i + 2 < |ring| && ring[i + 1] == currentItem
      requires forall j | 0 <= j < |ring| && j != i + 1 :: ring[j] != currentItem
      modifies this`ring, repr`flink, repr`blink
      ensures Valid() && ring == old(ring)[..i + 1] + old(ring)[i + 2..]
      ensures currentItem.flink == null && currentItem.blink == null
    {
      ghost var c := ring;
      assert c[i + 1].flink == c[i + 2] && c[i + 1].blink == c[i];
      currentItem.blink.flink := currentItem.flink;
      currentItem.flink.blink := currentItem.blink;
      currentItem.flink := null;
      currentItem.blink := null;
      ring := c[..i + 1] + c[i + 2..];
      forall j | 0 <= j < |ring| - 1
        ensures ring[j].flink == ring[j + 1]
      {
        if j < i {
          assert c[j] != c[i] && c[j] != c[i + 1] && old(c[j].flink) == c[j + 1];
        } else if j > i {
          assert c[j + 1] != c[i] && c[j + 1] != c[i + 1] && old(c[j + 1].flink) == c[j + 2];
        }
      }
      forall j | 0 < j < |ring|
        ensures ring[j].blink == ring[j - 1]
      {
        if j <= i {
          assert c[j] != c[i + 2] && c[j] != c[i + 1] && old(c[j].blink) == c[j - 1];
        } else if j > i + 1 {
          assert c[j + 1] != c[i + 2] && c[j + 1] != c[i + 1] && old(c[j + 1].blink) == c[j];
        }
      }
    }

    /** The links around item i; no other place of the ring holds it. */
    lemma Around(i: nat)
      requires Valid() && i < |Items()|
      ensures ring[i + 1] == Items()[i] && ring[i + 1].flink == ring[i + 2] && ring[i + 1].blink == ring[i]
      ensures forall j | 0 <= j < |ring| && j != i + 1 :: ring[j] != ring[i + 1]
    {
      assert forall j | 0 < j < |ring| - 1 :: ring[j] != ring[0];
    }

    /** remqhi_nodis. */
    method Remqhi() returns (item: Node?)
      requires Valid()
      modifies this`ring, repr`flink, repr`blink
      ensures Valid()
      ensures old(Items()) == [] ==> item == null && Items() == []
      ensures old(Items()) != [] ==> item == old(Items())[0] && Items() == old(Items())[1..] && item.flink == null
    {
      assert ring[0].flink == ring[1] && ring[1].blink == ring[0];
      item := head.flink;
      if item == head {
        item := null;
      } else {
        ghost var c := ring;
        Around(0);
        UnlinkFirst(item);
        Without(c, ring, 0);
      }
    }

    /** The removal of the first item. */
    method UnlinkFirst(item: Node)
      requires Valid() && 2 < |ring| && ring[1] == item
      requires forall j | 0 <= j < |ring| && j != 1 :: ring[j] != item
      modifies this`ring, repr`flink, repr`blink
      ensures Valid() && ring == old(ring)[..1] + old(ring)[2..]
      ensures item.flink == null && item.blink == null
    {
      hide Queue.Items;
      ghost var c := ring;
      assert c[1].flink == c[2] && c[1].blink == c[0];
      head.flink := item.flink;
      item.flink.blink := head;
      item.flink := null;
      item.blink := null;
      ring := c[..1] + c[2..];
      forall j | 0 <= j < |ring| - 1
        ensures ring[j].flink == ring[j + 1]
      {
        if j > 0 {
          assert c[j + 1] != c[0] && c[j + 1] != c[1] && old(c[j + 1].flink) == c[j + 2];
        }
      }
      forall j | 0 < j < |ring|
        ensures ring[j].blink == ring[j - 1]
      {
        if j > 1 {
          assert c[j + 1] != c[2] && c[j + 1] != c[1] && old(c[j + 1].blink) == c[j];
        }
      }
    }

    /** qempty. */
    method QEmpty() returns (r: bool)
      requires Valid()
      ensures r <==> Items() == []
    {
      var item := QFirst();
      r := item == null;
    }

    /** mstp_clearMstpToOthersMessageQueue. */
    method ClearAll()
      requires Valid()
      modifies this`ring, repr`flink, repr`blink
      ensures Valid() && Items() == []
    {
      var empty := QEmpty();
      while !empty
        invariant Valid() && (empty <==> Items() == [])
        decreases |Items()|
      {
        var m := Remqhi();
        empty := QEmpty();
      }
    }

    /** The parts of the loop of mstp_informDBOnPortStateChange for ports that go down, learn
        and come up. */
    method InformDown(m: Node)
      modifies m`maps, this`log
      ensures m.maps == old(m.maps).(dwn := {}) && log == old(log) + Opt(old(m.maps.dwn), Down(old(m.maps.dwn)))
    {
      if m.maps.dwn != {} {
        log := log + [Down(m.maps.dwn)];
        m.maps := m.maps.(dwn := {});
      }
    }

    method InformLearn(m: Node)
      modifies m`maps, this`log
      ensures m.maps == old(m.maps).(lrn := {})
      ensures log == old(log) + Opt(old(m.maps.lrn), Learning(m.mstid, old(m.maps.lrn)))
    {
      if m.maps.lrn != {} {
        log := log + [Learning(m.mstid, m.maps.lrn)];
        m.maps := m.maps.(lrn := {});
      }
    }

    method InformUp(m: Node)
      modifies m`maps, this`log
      ensures m.maps == old(m.maps).(up := {}) && log == old(log) + Opt(old(m.maps.up), Up(old(m.maps.up)))
    {
      if m.maps.up != {} {
        log := log + [Up(m.maps.up)];
        m.maps := m.maps.(up := {});
      }
    }

    /** Blocked and forwarding ports are told at once, but their maps are cleared later. */
    method InformBlock(m: Node) returns (isblkMsg: bool)
      modifies this`log
      ensures isblkMsg == (m.maps.blk != {}) && log == old(log) + Opt(m.maps.blk, Blocking(m.mstid, m.maps.blk))
    {
      isblkMsg := false;
      if m.maps.blk != {} {
        isblkMsg := true;
        log := log + [Blocking(m.mstid, m.maps.blk)];
      }
    }

    method InformForward(m: Node) returns (isfwdMsg: bool)
      modifies this`log
      ensures isfwdMsg == (m.maps.fwd != {}) && log == old(log) + Opt(m.maps.fwd, Forwarding(m.mstid, m.maps.fwd))
    {
      isfwdMsg := false;
      if m.maps.fwd != {} {
        isfwdMsg := true;
        log := log + [Forwarding(m.mstid, m.maps.fwd)];
      }
    }

    /** The body of the loop of mstp_informDBOnPortStateChange, up to the removal. */
    method InformMessage(m: Node, timer: bool)
      modifies m`maps, this`log
      ensures m.maps == Informed(old(m.maps)) && log == Logged(old(log), m.mstid, old(m.maps), timer)
    {
      hide Opt;
      InformDown(m);
      var isblkMsg := InformBlock(m);
      InformLearn(m);
      var isfwdMsg := InformForward(m);
      InformUp(m);
      if isblkMsg {
        m.maps := m.maps.(blk := {});
      }
      if isfwdMsg {
        m.maps := m.maps.(fwd := {});
      }
      if timer {
        FlushMessage(m);
      }
    }

    /** On the timer the addresses of the ports in the flush map are flushed. */
    method FlushMessage(m: Node)
      modifies this`log
      ensures log == old(log) +
        (if m.mstid <= MSTP_INSTANCES_MAX then Opt(m.maps.flush, Flush(m.mstid, m.maps.flush)) else [])
    {
      if m.maps.flush != {} && m.mstid <= MSTP_INSTANCES_MAX {
        log := log + [Flush(m.mstid, m.maps.flush)];
      }
    }

    /** The body of the loop. */
    method InformAndRemove(m: Node, timer: bool)
      requires Valid() && m in repr && (timer ==> Items() != [] && Items()[0] == m)
      modifies m`maps, this`log, this`ring, repr`flink, repr`blink
      ensures Valid() && Items() == if timer then old(Items())[1..] else old(Items())
      ensures m.maps == Informed(old(m.maps)) && log == Logged(old(log), m.mstid, old(m.maps), timer)
    {
      hide Valid, Informed, Logged;
      InformMessage(m, timer);
      if timer {
        ItemsDistinct();
        var removed := RemqHere(m, 0);
      }
    }

    /** Half-way through the traversal that started with the messages `o` and their contents
        `s`: the first k have been propagated, and on the timer they are gone. */
    ghost predicate Traversed(timer: bool, o: seq<Node>, s: seq<(nat, Maps)>, k: nat)
      reads this`ring, this`repr, repr`flink, repr`blink, o`maps
    {
      && Valid() && k <= |o| == |s|
      && Items() == (if timer then o[k..] else o)
      && (forall i, j | 0 <= i < j < |o| :: o[i] != o[j])
      && (forall i | 0 <= i < |o| :: o[i] in repr && s[i].0 == o[i].mstid)
      && (forall i | 0 <= i < |o| :: o[i].maps == if i < k then Informed(s[i].1) else s[i].1)
    }

    lemma TraversalStart(timer: bool)
      requires Valid()
      ensures Traversed(timer, Items(), Snapshot(Items()), 0)
      ensures forall i | 0 <= i < |Items()| :: Snapshot(Items())[i].1 == Items()[i].maps && Items()[i] in repr
    {
      ItemsDistinct();
    }

    lemma TraversalDone(timer: bool, o: seq<Node>, s: seq<(nat, Maps)>, k: nat)
      requires Traversed(timer, o, s, k) && k >= |o|
      ensures k == |o| == |s| && Valid() && Items() == (if timer then [] else o)
      ensures forall i | 0 <= i < |o| :: o[i].maps == Informed(s[i].1)
    {
    }

    /** One pass of the loop: the next message is found before this one is dealt with. */
    method Visit(m: Node, timer: bool, ghost o: seq<Node>, ghost s: seq<(nat, Maps)>, ghost k: nat)
      returns (mNext: Node?)
      requires Traversed(timer, o, s, k) && k < |o| == |s| && m == o[k] && o[k] in repr
      modifies m`maps, this`log, this`ring, repr`flink, repr`blink
      ensures Traversed(timer, o, s, k + 1) && log == Logged(old(log), s[k].0, s[k].1, timer)
      ensures mNext == if k + 1 < |o| then o[k + 1] else null
    {
      hide Valid, Items, Informed, Logged;
      mNext := QNext(m, if timer then 0 else k);
      InformAndRemove(m, timer);
      assert forall i | 0 <= i < |o| && i != k :: o[i] != m;
    }

    /** mstp_informDBOnPortStateChange: every queued message is visited once, in order, even
        though on the timer each one is unlinked while the traversal goes on. */
    method InformDB(timer: bool) returns (visited: seq<Node>)
      requires Valid()
      modifies this`ring, this`log, repr`flink, repr`blink, repr`maps
      ensures Valid() && visited == old(Items())
      ensures Items() == if timer then [] else old(Items())
      ensures forall i | 0 <= i < |visited| :: visited[i].maps == Informed(old(visited[i].maps))
      ensures log == LoggedAll(old(log), old(Snapshot(Items())), timer)
    {
      hide Valid, Items, Traversed, Logged, LoggedAll, Informed, Snapshot;
      ghost var o, s := Items(), Snapshot(Items());
      ghost var k := 0;
      visited := [];
      TraversalStart(timer);
      LoggedStart(log, s, timer);
      var mNext := QFirst();
      while mNext != null
        invariant Traversed(timer, o, s, k) && k <= |o| && visited == o[..k] && repr == old(repr)
        invariant mNext == if k < |o| then o[k] else null
        invariant log == LoggedAll(old(log), s[..k], timer)
        decreases |o| - k
      {
        var m := mNext;
        mNext := Visit(m, timer, o, s, k);
        visited := visited + [m];
        LoggedNext(old(log), s, k, timer);
        k := k + 1;
      }
      TraversalDone(timer, o, s, k);
      assert s[..k] == s && o[..k] == o;
    }

    /** The messages are distinct and none of them is the head. */
    lemma ItemsDistinct()
      requires Valid()
      ensures forall i, j | 0 <= i < j < |Items()| :: Items()[i] != Items()[j]
      ensures forall i | 0 <= i < |Items()| :: Items()[i] != head && Items()[i] in repr && Items()[i].flink != null
    {
      forall i | 0 <= i < |Items()|
        ensures Items()[i] != head && Items()[i] in repr && Items()[i].flink != null
      {
        assert Items()[i] == ring[i + 1] && ring[0] != ring[i + 1] && ring[i + 1].flink == ring[i + 2];
      }
      assert forall i | 0 <= i < |Items()| :: Items()[i] == ring[i + 1];
    }

    /** mstp_updateMstpCBPortMaps, as far as the queue goes: the port is taken out of every
        map of every message, and the queue keeps its order. */
    method UpdatePortMaps(lport: nat)
      requires Valid()
      modifies repr`maps
      ensures Valid() && forall i | 0 <= i < |Items()| :: Items()[i].maps == WithoutPort(old(Items()[i].maps), lport)
    {
      hide Valid, Items, WithoutPort;
      ghost var k := 0;
      ItemsDistinct();
      var m := QFirst();
      while m != null
        invariant k <= |Items()| && m == if k < |Items()| then Items()[k] else null
        invariant forall i | 0 <= i < k :: Items()[i].maps == WithoutPort(old(Items()[i].maps), lport)
        invariant forall i | k <= i < |Items()| :: Items()[i].maps == old(Items()[i].maps)
        decreases |Items()| - k
      {
        m.maps := WithoutPort(m.maps, lport);
        m := QNext(m, k);
        k := k + 1;
      }
    }

    /** mstp_findMstiPortStateChgMsg: the first message of an instance, or none. */
    method FindMessage(mstid: nat) returns (m: Node?)
      requires Valid()
      ensures m == null ==> forall i | 0 <= i < |Items()| :: Items()[i].mstid != mstid
      ensures m != null ==> m.mstid == mstid && m in Items()
      ensures m != null ==> forall i, j | 0 <= j < i < |Items()| && Items()[i] == m :: Items()[j].mstid != mstid
    {
      hide Valid, Items;
      ghost var k := 0;
      ItemsDistinct();
      m := QFirst();
      while m != null
        invariant k <= |Items()| && m == if k < |Items()| then Items()[k] else null
        invariant forall i | 0 <= i < k :: Items()[i].mstid != mstid
        decreases |Items()| - k
      {
        if m.mstid == mstid {
          break;
        }
        m := QNext(m, k);
        k := k + 1;
      }
    }
  }
}
