/** Runs of a bridge from boot on: what every run keeps, and two runs that end badly. */
module PortRuns {
  import opened PortState
  import opened PortInformation

  /** From boot on, over every run of events. If no port hears a BPDU of its own, no message stays
      up and no port rests in AGED. A port that hears no message is quiet unless loop guard took
      hold of it. */
  method BootAndRun(maxPort: nat, maxMsti: nat, bridgeId: int, instances: set<MstId>, present: set<LPort>,
                    events: seq<Event>, ghost foreign: bool) returns (b: Bridge)
    requires forall m | m in instances :: 0 < m <= maxMsti
    requires forall p | p in present :: 0 < p <= maxPort
    requires foreign ==> forall i | 0 <= i < |events| :: Bridge.ForeignEvent(events[i])
    ensures b.AtEvent() && b.trees.Keys == {CIST} + instances && |b.comm| == maxPort + 1
    ensures foreign ==> forall p :: !b.Deaf(p)
    ensures foreign ==> forall t, p: LPort | t in b.trees && p < |b.comm| && b.comm[p].present ::
      !b.trees[t].ports[p].pim.Aged?
    ensures forall t, p: LPort | t in b.trees && p < |b.comm| && b.comm[p].present && b.comm[p].enabled
      && (t, p) !in b.waiting && (forall i | 0 <= i < |events| :: !Guards(events[i], t, p)) :: b.QuietPort(t, p)
  {
    hide Bridge.Calm, Bridge.Unset, Bridge.ForeignEvent, HeardAll, Suspect, Quiet;
    b := new Bridge(maxPort, maxMsti, bridgeId, instances, present, foreign);
    b.InitStateMachines();
    b.Run(events);
    b.ShapeAtEvent();
    if foreign {
      forall t, p: LPort | t in b.trees && p < |b.comm| && b.comm[p].present
        ensures !b.trees[t].ports[p].pim.Aged?
      {
        b.NeverAged(t, p);
      }
    }
    forall t, p: LPort | t in b.trees && p < |b.comm| && b.comm[p].present && b.comm[p].enabled
      && (t, p) !in b.waiting && (forall i | 0 <= i < |events| :: !Guards(events[i], t, p))
      ensures b.QuietPort(t, p)
    {
      b.Unsuspected(t, p);
    }
  }

  /** Received information with some seconds left. */
  predicate TimeLeft(tp: TreePort, v: Vectors, left: nat) {
    tp.infoIs.InfoReceived? && tp.vectors == v && tp.rcvdInfoWhile == left && !tp.updtInfo
  }

  lemma TimeLasts(comm: seq<CommPort>, o: AllPorts, n: AllPorts, b: Spots, t: MstId, p: LPort, v: Vectors, left: nat)
    requires LastAll(comm, o, n, b) && t in o && p < |comm| && comm[p].present && comm[p].enabled && (t, p) !in b
    requires p < |o[t]| && TimeLeft(o[t][p], v, left) && Firm(v) && left != 0
    ensures t in n && p < |n[t]| && TimeLeft(n[t][p], v, left) && n[t][p].rcvdMsg == o[t][p].rcvdMsg
  {
    assert Lasting(o[t][p], n[t][p]);
  }

  /** A bridge with two ports, both up, on the CIST alone. */
  method TwoPorts() returns (b: Bridge)
    ensures fresh(b) && fresh(b.trees.Values) && b.AtEvent() && b.trees.Keys == {CIST} && !b.foreign && b.waiting == {}
    ensures b.comm == [CommPort(false, false, false, false), CommPort(true, true, false, false),
                       CommPort(true, true, false, false)]
  {
    hide Bridge.Calm, Bridge.Unset, HeardAll, Suspect;
    b := new Bridge(2, 1, 0, {}, {1, 2}, false);
    b.InitStateMachines();
    b.SetPortEnabled(1, true, false);
    b.SetPortEnabled(2, true, false);
  }

  /** One second of the CIST for both ports: port 1 is the root port. */
  method BothTick(b: Bridge, guarded: bool, ghost v: Vectors, ghost left: nat)
    requires b.AtEvent() && |b.comm| == 3 && b.comm[1].present && b.comm[2].present && b.comm[2].enabled
    requires 2 < |b.trees[CIST].ports| && TimeLeft(b.trees[CIST].ports[2], v, left) && Firm(v)
    requires if guarded then left == 1 else left > 1
    modifies b`received, b`marks, b.trees.Values
    ensures b.AtEvent() && 2 < |b.trees[CIST].ports| && TimeLeft(b.trees[CIST].ports[2], v, left - 1)
    ensures b.trees == old(b.trees) && b.waiting == old(b.waiting) && b.comm == old(b.comm)
  {
    hide Bridge.Calm, Quiet, HeardAll, LastAll, NoneGuarded, Deserted, Bridge.WaitingOk;
    b.ShapeAtEvent();
    ghost var o := b.Ports();
    b.Tick(CIST, 1, false, true);
    b.ShapeAtEvent();
    TimeLasts(b.comm, o, b.Ports(), {(CIST, 1)}, CIST, 2, v, left);
    b.Tick(CIST, 2, guarded, false);
    b.ShapeAtEvent();
  }

  /** Port 1 hears a better root, and port 2, second to it, has information for three seconds. */
  method HearRoot(b: Bridge)
    requires b.AtEvent() && !b.foreign && b.waiting == {}
    requires |b.comm| == 3 && b.comm[1].present && b.comm[1].enabled && b.comm[2].present && b.comm[2].enabled
    modifies b, b.trees.Values
    ensures b.AtEvent() && b.trees == old(b.trees) && b.waiting == {}
    ensures |b.comm| == 3 && b.comm[1].present && b.comm[1].enabled && b.comm[2].present && b.comm[2].enabled
    ensures 2 < |b.trees[CIST].ports| && TimeLeft(b.trees[CIST].ports[2], Foreign(true, true), 3)
  {
    hide Bridge.WaitingOk, Bridge.Calm, Quiet, HeardAll, Suspect, LastAll, NoneGuarded, Overlooked, Lasting, Named;
    b.ShapeAtEvent();
    b.ReceiveBpdu(1, true, Message(CIST, RcvdSuperior, 6, false, Foreign(true, false)), []);
    b.ShapeAtEvent();
    assert b.LeftUp(1) == {};
    b.ReceiveBpdu(2, true, Message(CIST, RcvdSuperior, 3, false, Foreign(true, true)), []);
    b.ShapeAtEvent();
    assert b.LeftUp(2) == {};
  }

  /** The ageing test that is missed, from boot on. Port 1 hears a better root; port 2 is second to
      it and has information for three seconds. Loop guard takes hold of port 2 when they are
      over; the inferior BPDU that comes next releases it, and leaves the port in CURRENT with
      the information it should have aged out. */
  method AgeingMissed() returns (b: Bridge, role: Role)
    ensures b.AtEvent() && |b.comm| == 3 && b.comm[2].present && b.comm[2].enabled
    ensures role.RoleAlternate? || role.RoleBackup?
    ensures !b.QuietPort(CIST, 2) && RunOut(b.trees[CIST].ports[2])
  {
    hide Bridge.WaitingOk, Bridge.Calm, Quiet, HeardAll, Suspect, LastAll, NoneGuarded, Bridge.Suspected, Recorded,
      Named, Ids;
    b := TwoPorts();
    HearRoot(b);
    BothTick(b, false, Foreign(true, true), 3);
    BothTick(b, false, Foreign(true, true), 2);
    BothTick(b, true, Foreign(true, true), 1);
    b.ShapeAtEvent();
    b.PlacedAt(2);
    role := b.trees[CIST].ports[2].selectedRole;
    b.ReceiveBpdu(2, true, Message(CIST, RcvdInferior, 0, true, Any), []);
    b.ShapeAtEvent();
    b.NotQuiet(CIST, 2);
  }

  /** A bridge with one port, up, and one MSTI. */
  method OnePort() returns (b: Bridge)
    ensures fresh(b) && fresh(b.trees.Values) && b.AtEvent() && b.trees.Keys == {CIST, 1} && !b.foreign
    ensures b.comm == [CommPort(false, false, false, false), CommPort(true, true, false, false)] && b.waiting == {}
    ensures !b.Suspected(1, 1) && |b.trees[1].ports| == 2 && b.trees[1].ports[1].pim.Current?
  {
    hide Bridge.Calm, Bridge.Unset, HeardAll, Suspect;
    b := new Bridge(1, 1, 0, {1}, {1}, false);
    b.InitStateMachines();
    assert b.comm[1] == CommPort(true, false, false, false);
    b.SetPortEnabled(1, true, false);
    b.ShapeAtEvent();
    assert 1 in b.trees;
  }

  /** One port of the CIST and one of MSTI 1 have time left, and MSTI 1 has its own information. */
  ghost predicate BothLeft(b: Bridge, v: Vectors, cist: nat, msti: nat)
    reads b, b.trees.Values
  {
    && b.AtEvent() && b.trees.Keys == {CIST, 1} && !b.foreign && b.waiting == {}
    && |b.comm| == 2 && b.comm[1].present && b.comm[1].enabled
    && |b.trees[CIST].ports| == |b.trees[1].ports| == 2
    && TimeLeft(b.trees[CIST].ports[1], v, cist) && TimeLeft(b.trees[1].ports[1], Own, msti)
    && !b.trees[1].ports[1].rcvdMsg && !b.trees[1].ports[1].loopInconsistent
  }

  /** One second for both trees. */
  method BothTreesTick(b: Bridge, ghost v: Vectors, ghost cist: nat, ghost msti: nat)
    requires BothLeft(b, v, cist, msti) && Firm(v) && cist > 1 && msti > 0
    modifies b`received, b`marks, b.trees.Values
    ensures b.comm == old(b.comm) && b.trees == old(b.trees)
    ensures msti > 1 ==> BothLeft(b, v, cist - 1, msti - 1)
    ensures msti == 1 && !b.comm[1].rcvdInternal ==> b.AtEvent() && b.Shape() && b.trees[1].ports[1].pim.Aged?
    ensures b.AtEvent() && b.Shape() && TimeLeft(b.trees[CIST].ports[1], v, cist - 1)
  {
    hide Bridge.Calm, Quiet, HeardAll, LastAll, NoneGuarded;
    b.ShapeAtEvent();
    ghost var o := b.Ports();
    b.Tick(CIST, 1, false, false);
    b.ShapeAtEvent();
    TimeLasts(b.comm, o, b.Ports(), {(CIST, 1)}, 1, 1, Own, msti);
    GuardAt(b.comm, o, b.Ports(), {}, 1, 1);
    ghost var n := b.Ports();
    b.Tick(1, 1, false, false);
    b.ShapeAtEvent();
    TimeLasts(b.comm, n, b.Ports(), {(1, 1)}, CIST, 1, v, cist - 1);
  }

  /** A BPDU of the port's own comes back to it. */
  method HearSelf(b: Bridge)
    requires b.AtEvent() && b.trees.Keys == {CIST, 1} && !b.foreign && b.waiting == {} && !b.Suspected(1, 1)
    requires |b.comm| == 2 && b.comm[1].present && b.comm[1].enabled
    requires |b.trees[1].ports| == 2 && b.trees[1].ports[1].pim.Current?
    modifies b, b.trees.Values
    ensures b.trees == old(b.trees) && BothLeft(b, Own, 10, 10)
  {
    hide Bridge.Calm, Quiet, HeardAll, LastAll, NoneGuarded, Bridge.WaitingOk;
    b.ShapeAtEvent();
    ghost var o := b.Ports();
    var own := [Message(1, RcvdSuperior, 10, false, Own)];
    b.ReceiveBpdu(1, true, Message(CIST, RcvdSuperior, 10, false, Own), own);
    b.ShapeAtEvent();
    GuardAt(b.comm, o, b.Ports(), {}, 1, 1);
    assert Sole(own, 0) && own[0].mstid == 1;
    assert b.LeftUp(1) == {};
  }

  method SomeSeconds(b: Bridge, n: nat)
    requires BothLeft(b, Own, n + 1, n + 1)
    modifies b`received, b`marks, b.trees.Values
    ensures BothLeft(b, Own, 1, 1) && b.comm == old(b.comm) && b.trees == old(b.trees)
  {
    hide BothLeft;
    for i := 0 to n
      invariant BothLeft(b, Own, n + 1 - i, n + 1 - i) && b.comm == old(b.comm) && b.trees == old(b.trees)
    {
      BothTreesTick(b, Own, n + 1 - i, n + 1 - i);
    }
  }

  /** A better BPDU from outside the region, with one second left of the port's own information. */
  method HearOutside(b: Bridge)
    requires BothLeft(b, Own, 1, 1)
    modifies b, b.trees.Values
    ensures b.trees == old(b.trees) && BothLeft(b, Foreign(true, false), 6, 1) && !b.comm[1].rcvdInternal
  {
    hide Bridge.Calm, Quiet, HeardAll, LastAll, NoneGuarded, Bridge.WaitingOk;
    b.ShapeAtEvent();
    ghost var o := b.Ports();
    b.ReceiveBpdu(1, false, Message(CIST, RcvdSuperior, 6, false, Foreign(true, false)), []);
    b.ShapeAtEvent();
    assert {(CIST, 1)} + Named(false, [], 1) == {(CIST, 1)};
    TimeLasts(b.comm, o, b.Ports(), {(CIST, 1)}, 1, 1, Own, 1);
    assert b.LeftUp(1) == {};
    GuardAt(b.comm, o, b.Ports(), {}, 1, 1);
  }

  /** A port that goes deaf, from boot on. A BPDU of its own comes back to it and is recorded for
      ten seconds on the CIST and on MSTI 1. One second before they are over, a BPDU from outside
      the region replaces the information of the CIST. When the time of MSTI 1 runs out, its port
      goes to AGED and, on the boundary with its own information, stays there. The message for
      MSTI 1 in the next BPDU of the region stays up. */
  method DeafPort() returns (b: Bridge)
    ensures b.AtEvent() && |b.comm| == 2 && b.comm[1].present && b.comm[1].enabled && b.Deaf(1)
  {
    hide Bridge.Calm, Quiet, HeardAll, LastAll, NoneGuarded, Suspect, Bridge.WaitingOk;
    b := OnePort();
    HearSelf(b);
    SomeSeconds(b, 9);
    HearOutside(b);
    BothTreesTick(b, Foreign(true, false), 6, 1);
    var msgs := [Message(1, RcvdInferior, 0, false, Any)];
    b.ReceiveBpdu(1, true, Message(CIST, RcvdInferior, 0, false, Any), msgs);
    b.ShapeAtEvent();
    assert msgs[0].mstid in Ids(msgs);
    assert (1, 1) in b.LeftUp(1);
  }
}
