/** The Port Information (PIM) and Port Role Selection (PRS) state machines.

    PIM sets 'reselect' and kicks PRS; PRS recomputes the port roles of the tree and
    re-enters PIM on every port, also on the port whose outer PIM call is still inside
    an action. The methods below keep that call structure, so the `decreases` clauses
    prove that the recursion ends and the postconditions say where it comes to rest. */
module PortInformation {
  import opened PortState

  // ---------------------------------------------------------------------------
  // Role computation (mstpd_util.c)
  // ---------------------------------------------------------------------------

  /** The role of one CIST port (mstp_updtRolesCist, clauses f to m of 13.26.23). */
  method CistRole(tp: TreePort, isRoot: bool, ghost cist: TreePort, ghost comm: CommPort) returns (n: TreePort)
    requires isRoot ==> !Outdone(tp.vectors)
    ensures RoleUpdate(true, cist, comm, tp, n)
  {
    n := tp;
    match tp.infoIs {
      case InfoDisabled =>
        n := n.(selectedRole := RoleDisabled);
      case InfoAged =>
        n := n.(updtInfo := true,
          selectedRole := if tp.loopInconsistent then RoleAlternate else RoleDesignated);
      case InfoMine =>
        if !tp.loopInconsistent {
          var differs: bool := *;
          n := n.(selectedRole := RoleDesignated, updtInfo := tp.updtInfo || differs);
        }
      case InfoReceived =>
        n := ReceivedRole(tp, isRoot);
      case InfoUnknown =>
    }
  }

  /** The role of a port that holds received information: the same cases on the CIST and
      on an MSTI. */
  method ReceivedRole(tp: TreePort, isRoot: bool) returns (n: TreePort)
    requires isRoot ==> !Outdone(tp.vectors)
    ensures n == tp.(updtInfo := n.updtInfo, selectedRole := n.selectedRole)
    ensures n.updtInfo == n.selectedRole.RoleDesignated? && (Firm(tp.vectors) ==> !n.updtInfo)
    ensures !n.updtInfo ==> Placed(n)
  {
    var selfSent: bool, designatedBetter: bool, sameBridge: bool := *, *, *;
    if selfSent {
      n := tp.(updtInfo := false, selectedRole := RoleBackup);
    } else if isRoot {
      n := tp.(updtInfo := false, selectedRole := RoleRoot);
    } else if designatedBetter && !Firm(tp.vectors) {
      n := tp.(updtInfo := true, selectedRole := RoleDesignated);
    } else {
      n := tp.(updtInfo := false, selectedRole := if sameBridge then RoleBackup else RoleAlternate);
    }
  }

  /** The role of one MSTI port (mstp_updtRolesMsti). */
  method MstiRole(tp: TreePort, cist: TreePort, comm: CommPort, isRoot: bool) returns (n: TreePort)
    requires isRoot ==> !Outdone(tp.vectors)
    ensures RoleUpdate(false, cist, comm, tp, n)
  {
    n := tp;
    var differs: bool := *;
    if tp.infoIs.InfoDisabled? {
      n := n.(selectedRole := RoleDisabled);
    } else if cist.infoIs.InfoReceived? && !comm.rcvdInternal {
      // boundary of the region: the MSTI follows the CIST
      var asks := tp.vectors.Foreign? || (tp.vectors.Any? && differs);
      if cist.selectedRole.RoleRoot? {
        n := n.(selectedRole := RoleMaster, updtInfo := tp.updtInfo || asks);
      } else if cist.selectedRole.RoleAlternate? || cist.selectedRole.RoleBackup? {
        n := n.(selectedRole := cist.selectedRole, updtInfo := tp.updtInfo || asks);
      }
    } else {
      match tp.infoIs {
        case InfoAged =>
          n := n.(updtInfo := true,
            selectedRole := if tp.loopInconsistent then RoleAlternate else RoleDesignated);
        case InfoMine =>
          if !tp.loopInconsistent {
            n := n.(selectedRole := RoleDesignated, updtInfo := tp.updtInfo || differs);
          }
        case InfoReceived =>
          n := ReceivedRole(tp, isRoot);
        case _ =>
      }
    }
  }

  /** One tree (MSTP_CIST_INFO_t, MSTP_MSTI_INFO_t); root is 0 when this bridge is the
      root of the tree. */
  class Tree {
    const id: MstId
    var prs: PrsState
    var root: LPort
    var rgnRoot: int
    var ports: seq<TreePort>

    constructor (id: MstId, rgnRoot: int, ports: seq<TreePort>)
      ensures this.id == id && this.prs == PrsUnknown && this.root == 0
      ensures this.rgnRoot == rgnRoot && this.ports == ports
    {
      this.id := id;
      prs := PrsUnknown;
      root := 0;
      this.rgnRoot := rgnRoot;
      this.ports := ports;
    }

    /** The 'reselect' scan of mstp_prsSmRoleSelectionCond and mstp_setSelectedTree. */
    method AnyReselect(comm: seq<CommPort>) returns (reselect: bool)
      requires |comm| == |ports| && NoPortZero(comm)
      ensures reselect == SomeReselect(comm, ports)
    {
      reselect := false;
      for p := 1 to |ports|
        invariant !reselect
        invariant forall q | 0 <= q < p && comm[q].present :: !ports[q].reselect
      {
        if comm[p].present && ports[p].reselect {
          reselect := true;
          break;
        }
      }
    }

    /** mstp_updtRolesDisabledTree. */
    method UpdtRolesDisabledTree(comm: seq<CommPort>)
      requires |comm| == |ports| && NoPortZero(comm)
      modifies this`ports
      ensures |ports| == old(|ports|)
      ensures forall p | 0 <= p < |ports| ::
                ports[p] == if comm[p].present then old(ports[p]).(selectedRole := RoleDisabled) else old(ports[p])
    {
      for p := 1 to |ports|
        invariant |ports| == |comm|
        invariant forall q | 0 <= q < |ports| ::
                    ports[q] == if q < p && comm[q].present then old(ports[q]).(selectedRole := RoleDisabled)
                                else old(ports[q])
      {
        if comm[p].present {
          ports := ports[p := ports[p].(selectedRole := RoleDisabled)];
        }
      }
    }

    /** mstp_clearReselectTree. */
    method ClearReselectTree(comm: seq<CommPort>)
      requires |comm| == |ports| && NoPortZero(comm)
      modifies this`ports
      ensures |ports| == old(|ports|)
      ensures forall p | 0 <= p < |ports| ::
                ports[p] == if comm[p].present then old(ports[p]).(reselect := false) else old(ports[p])
    {
      for p := 1 to |ports|
        invariant |ports| == |comm|
        invariant forall q | 0 <= q < |ports| ::
                    ports[q] == if q < p && comm[q].present then old(ports[q]).(reselect := false) else old(ports[q])
      {
        if comm[p].present {
          ports := ports[p := ports[p].(reselect := false)];
        }
      }
    }

    /** mstp_setSelectedTree: all ports or none. */
    method SetSelectedTree(comm: seq<CommPort>)
      requires |comm| == |ports| && NoPortZero(comm)
      modifies this`ports
      ensures |ports| == old(|ports|)
      ensures old(SomeReselect(comm, ports)) ==> ports == old(ports)
      ensures !old(SomeReselect(comm, ports)) ==>
        forall p | 0 <= p < |ports| ::
          ports[p] == if comm[p].present then old(ports[p]).(selected := true) else old(ports[p])
    {
      var reselect := AnyReselect(comm);
      if !reselect {
        for p := 1 to |ports|
          invariant |ports| == |comm|
          invariant forall q | 0 <= q < |ports| ::
                      ports[q] == if q < p && comm[q].present then old(ports[q]).(selected := true) else old(ports[q])
        {
          if comm[p].present {
            ports := ports[p := ports[p].(selected := true)];
          }
        }
      }
    }

    /** mstp_updtRolesTree. The priority vectors are not part of the model: every
        comparison of two vectors may come out either way. */
    method UpdtRolesTree(comm: seq<CommPort>, cist: seq<TreePort>)
      requires |comm| == |ports| == |cist| && NoPortZero(comm)
      modifies this`ports, this`root, this`rgnRoot
      ensures |ports| == old(|ports|)
      ensures forall p | 0 <= p < |ports| && comm[p].present ::
                RoleUpdate(id == CIST, cist[p], comm[p], old(ports[p]), ports[p])
      ensures root != 0 ==> root < |ports| && comm[root].present
    {
      ghost var o := ports;
      rgnRoot := *;
      root := 0;
      for p := 1 to |ports|
        invariant ports == old(ports)
        invariant root != 0 ==> root < |ports| && comm[root].present && !Outdone(ports[root].vectors)
      {
        var better: bool := *;
        if comm[p].present && comm[p].enabled && better && !Outdone(ports[p].vectors)
           && ports[p].infoIs.InfoReceived? && ports[p].rcvdInfoWhile != 0 {
          root := p;
        }
      }
      for p := 1 to |ports|
        invariant |ports| == |comm|
        invariant root != 0 ==> root < |ports| && comm[root].present && !Outdone(o[root].vectors)
        invariant forall q | p <= q < |ports| :: ports[q] == old(ports[q])
        invariant forall q | 0 <= q < p && comm[q].present ::
                    RoleUpdate(id == CIST, cist[q], comm[q], old(ports[q]), ports[q])
      {
        if comm[p].present {
          var tp: TreePort;
          if id == CIST {
            tp := CistRole(ports[p], p == root, cist[p], comm[p]);
          } else {
            tp := MstiRole(ports[p], cist[p], comm[p], p == root);
          }
          ports := ports[p := tp];
        }
      }
    }
  }

  /** mstp_Bridge: the fields PIM and PRS work on. */
  class Bridge {
    const maxMsti: nat   // MSTP_MSTID_MAX
    const bridgeId: int
    ghost const foreign: bool    // no port hears a BPDU of its own
    var begin: bool
    var comm: seq<CommPort>      // indexed by logical port, 1..MAX_LPORTS
    var trees: map<MstId, Tree>  // the valid trees
    ghost var received: nat      // entries into the RECEIVE state so far
    ghost var changing: set<LPort>  // ports whose 'portEnabled' not every tree has seen yet
    ghost var waiting: Spots     // messages that are up between events
    ghost var marks: Marks       // what the current call has to keep
    ghost var taken: seq<LPort>  // ports of the BPDUs that Port Receive has accepted

    /** A bridge with some instances and ports whose state machines are all unset. */
    constructor (maxPort: nat, maxMsti: nat, bridgeId: int, instances: set<MstId>, present: set<LPort>,
                 ghost foreign: bool)
      requires forall m | m in instances :: 0 < m <= maxMsti
      requires forall p | p in present :: 0 < p <= maxPort
      ensures this.maxMsti == maxMsti && this.bridgeId == bridgeId && this.foreign == foreign
      ensures Unset() && trees.Keys == {CIST} + instances && fresh(trees.Values)
      ensures comm == seq(maxPort + 1, p => CommPort(p in present, false, false, false))
      ensures received == 0 && taken == []
    {
      this.maxMsti := maxMsti;
      this.bridgeId := bridgeId;
      this.foreign := foreign;
      begin := false;
      comm := seq(maxPort + 1, p => CommPort(p in present, false, false, false));
      received, changing, waiting, marks, taken := 0, {}, {}, NO_MARKS, [];
      var valid := NewTrees(maxMsti, bridgeId, instances, seq(maxPort + 1, _ => NO_PORT_INFO));
      trees := valid;
    }

    /** The CIST and the given instances. */
    static method NewTrees(maxMsti: nat, bridgeId: int, instances: set<MstId>, none: seq<TreePort>)
      returns (valid: map<MstId, Tree>)
      requires forall m | m in instances :: 0 < m <= maxMsti
      ensures valid.Keys == {CIST} + instances && fresh(valid.Values)
      ensures forall t | t in valid :: valid[t].id == t && valid[t].prs.PrsUnknown? && valid[t].ports == none
    {
      var cist := new Tree(CIST, bridgeId, none);
      valid := map[CIST := cist];
      for m := 1 to maxMsti + 1
        invariant valid.Keys == {CIST} + set i | i in instances && i < m
        invariant forall t | t in valid :: fresh(valid[t]) && valid[t].id == t
        invariant forall t | t in valid :: valid[t].prs.PrsUnknown? && valid[t].ports == none
      {
        if m in instances {
          var tree := new Tree(m, bridgeId, none);
          valid := valid[m := tree];
        }
      }
    }

    /** Before mstp_initStateMachines: all ports are down and no state machine is set. */
    ghost predicate Unset()
      reads this, trees.Values
    {
      && Shape() && !begin && changing == {} && waiting == {} && marks == NO_MARKS
      && (forall t | t in trees :: trees[t].prs == PrsUnknown)
      && (forall p | 0 <= p < |comm| && comm[p].present :: !comm[p].enabled)
      && (forall t, p | t in trees && 0 <= p < |comm| && comm[p].present ::
            trees[t].ports[p].pim.PimUnknown? && !trees[t].ports[p].loopInconsistent)
    }

    /** Every valid tree is an object of its own with a slot for every port. */
    ghost predicate Shape()
      reads this`comm, this`trees, trees.Values
    {
      && NoPortZero(comm)
      && CIST in trees
      && (forall t | t in trees :: t <= maxMsti && trees[t].id == t && |trees[t].ports| == |comm|)
    }

    ghost function K(t: MstId): Kind {
      Kind(t == CIST, foreign)
    }

    ghost predicate SettledMstis()
      requires Shape()
      reads this`comm, this`trees, this`changing, this`marks, trees.Values
    {
      forall m | m in trees && m != CIST :: SettledTree(m)
    }

    ghost predicate SettledTree(t: MstId)
      requires Shape() && t in trees
      reads this`comm, this`trees, this`changing, this`marks, trees.Values
    {
      trees[t].prs == RoleSelection && AllSettled(K(t), t, comm, trees[t].ports, changing, marks)
    }

    /** Common to every call outside BEGIN for tree t. */
    ghost predicate Running(t: MstId)
      reads this`begin, this`comm, this`trees, this`changing, this`marks, trees.Values
    {
      && Shape() && !begin && t in trees && trees[t].prs == RoleSelection
      && Marked(t, comm, trees[t].ports, changing, marks)
      && (if t == CIST then SettledMstis() && marks.stuck == {}
          else Bordered(t, trees[CIST].ports, comm, trees[t].ports, changing, marks))
    }

    /** What a packet needs: the other ports are at rest, and its own port is free of marks. */
    ghost predicate Accepts(pkt: Packet, t: MstId, p: LPort)
      reads this`comm, this`marks, this`changing
    {
      pkt.Packet? ==>
        && (t, p) in marks.taking && (t, p) !in marks.stuck && changing == {}
        && K(t).Admits(pkt.vectors) && p < |comm| && (t != CIST ==> comm[p].rcvdInternal)
    }

    /** Precondition of PIM on tree t. */
    ghost predicate Ready(t: MstId)
      reads this`begin, this`comm, this`trees, this`changing, this`marks, trees.Values
    {
      Running(t) && LinkedBut(K(t), comm, trees[t].ports, |comm|)
    }

    ghost predicate QuietPort(t: MstId, p: LPort)
      requires Shape() && t in trees && p < |comm|
      reads this`comm, this`trees, trees.Values
    {
      Quiet(t == CIST, trees[CIST].ports[p], comm[p], trees[t].ports[p])
    }

    /** The state every role selection ends in. */
    ghost predicate AtRest(t: MstId)
      reads this`begin, this`comm, this`trees, this`changing, this`marks, trees.Values
    {
      && Ready(t)
      && SelectedAll(comm, trees[t].ports)
      && QuietAll(t == CIST, trees[CIST].ports, comm, trees[t].ports)
    }

    /** Every MSTI has been through role selection. */
    ghost predicate MstisAtRest()
      reads this`begin, this`comm, this`trees, this`changing, this`marks, trees.Values
    {
      forall m | m in trees && m != CIST :: AtRest(m)
    }

    ghost function PendingSet(t: MstId): set<LPort>
      requires Shape() && t in trees
      reads this`comm, this`trees, trees.Values
    {
      PendingPorts(comm, trees[t].ports)
    }

    /** The trees a call for tree t may write: outside BEGIN a call for the CIST can
        synchronise the MSTIs; a call for an MSTI stays within it. */
    ghost function Footprint(t: MstId): set<Tree>
      requires t in trees
      reads this`begin, this`trees
    {
      if t == CIST && !begin then trees.Values else {trees[t]}
    }

    ghost function Slot(t: MstId): (r: Tree)
      requires t in trees
      reads this`trees
      ensures r == trees[t]
    {
      trees[t]
    }

    /** No tree has had a port written. */
    twostate predicate SamePorts()
      reads this`trees, trees.Values
    {
      trees == old(trees) && forall m | m in trees :: trees[m].ports == old(trees[m].ports)
    }

    /** No MSTI has had a port written. */
    twostate predicate SameMstis()
      reads this`trees, trees.Values
    {
      trees == old(trees) && forall m | m in trees && m != CIST :: trees[m].ports == old(trees[m].ports)
    }

    /** A CIST packet from inside the region will be taken and dismissed. */
    ghost predicate Mildly(pkt: Packet, t: MstId, p: LPort)
      requires Shape() && t in trees && p < |comm|
      reads this`comm, this`trees, trees.Values
    {
      && pkt.Packet? && t == CIST && comm[p].rcvdInternal && Dismisses(RcvInfo(pkt, trees[t].ports[p]))
      && Receives(true, trees[t].ports[p], comm[p], trees[t].ports[p])
    }

    /** What BEGIN asks for: every port is down. */
    ghost predicate AtBegin(t: MstId)
      reads this`begin, this`comm, this`trees, trees.Values
    {
      Shape() && begin && t in trees && forall p | 0 <= p < |comm| && comm[p].present :: !comm[p].enabled
    }

    // -------------------------------------------------------------------------
    // Port Role Selection (mstpd_prs_sm.c)
    // -------------------------------------------------------------------------

    /** mstp_prsSm: returns in ROLE_SELECTION; outside BEGIN, if any port asked for
        reselection, the whole tree is then selected and quiet. */
    method PrsSm(t: MstId)
      requires if begin then AtBegin(t) else Running(t) && StartableAll(K(t), trees[CIST].ports, comm, trees[t].ports)
      requires begin ==> !trees[t].prs.InitTree?
      modifies Footprint(t), this`received
      ensures Shape() && t in trees && trees[t].prs == RoleSelection && received == old(received)
      ensures begin ==> BeginSelected(comm, old(trees[t].ports), trees[t].ports)
      ensures !begin ==> Running(t)
      ensures !begin && !old(SomeReselect(comm, trees[t].ports)) ==>
        forall m | m in trees :: trees[m].ports == old(trees[m].ports)
      ensures !begin && old(SomeReselect(comm, trees[t].ports)) ==> AtRest(t)
      ensures !begin ==> Framed(comm, old(trees[t].ports), trees[t].ports)
      ensures !begin ==> Lower(comm, old(trees[t].ports), trees[t].ports)
      decreases 0, if t == CIST then 1 else 0, PendingSet(t), 6, 0
    {
      // general condition
      if begin && !trees[t].prs.InitTree? {
        trees[t].prs := InitTree;
        trees[t].UpdtRolesDisabledTree(comm);
      }
      match trees[t].prs {
        case InitTree =>
          trees[t].prs := RoleSelection;
          RoleSelectionAct(t);
        case RoleSelection =>
          var reselect := trees[t].AnyReselect(comm);
          if reselect {
            RoleSelectionAct(t);
          }
        case PrsUnknown =>
          assert false;
      }
    }

    /** mstp_prsSmRoleSelectionAct. */
    method RoleSelectionAct(t: MstId)
      requires if begin then AtBegin(t) && trees[t].prs == RoleSelection
               else Running(t) && StartableAll(K(t), trees[CIST].ports, comm, trees[t].ports)
      modifies Footprint(t), this`received
      ensures Shape() && t in trees && trees[t].prs == RoleSelection && received == old(received)
      ensures begin ==> BeginSelected(comm, old(trees[t].ports), trees[t].ports)
      ensures !begin ==> AtRest(t)
      ensures !begin ==> Framed(comm, old(trees[t].ports), trees[t].ports)
      ensures !begin ==> Lower(comm, old(trees[t].ports), trees[t].ports)
      decreases 0, if t == CIST then 1 else 0, PendingSet(t), 5, 2
    {
      hide Framed, Lower, LinkedBut, SelectedAll, Marked, Bordered, StartableAll, ReselectedAll, SettledBut, AgreesBut,
        PendingPorts, BeginSelected;
      ghost var o, cist := trees[t].ports, trees[CIST].ports;
      ComputeRoles(t);
      RolesBegun(t == CIST, cist, comm, o, trees[t].ports);
      if !begin {
        RolesReady(K(t), t, cist, comm, o, trees[t].ports, changing, marks);
      }
      KickPorts(t, trees[t].root, o);
      assert !begin ==> QuietAll(t == CIST, trees[CIST].ports, comm, trees[t].ports);
    }

    /** The kicks of mstp_prsSmRoleSelectionAct: the root port first, then the others. */
    method KickPorts(t: MstId, root: LPort, ghost o: seq<TreePort>)
      requires Kicked(t, o, {}) && (root != 0 ==> root < |comm| && comm[root].present)
      modifies Footprint(t), this`received
      ensures Kicked(t, o, set q | 0 < q < |comm| && comm[q].present) && received == old(received)
      decreases 0, if t == CIST then 1 else 0, PendingSet(t), 5, 1
    {
      hide Framed, Lower, LinkedBut, SelectedAll, Quiet;
      ghost var done: set<int> := {};
      if root != 0 {
        KickPim(t, root, o, done);
        done := {root};
      }
      for p := 1 to |comm|
        invariant Kicked(t, o, done) && received == old(received)
        invariant PendingSet(t) <= old(PendingSet(t))
        invariant forall q | 0 < q < p && comm[q].present :: q in done
        invariant root != 0 ==> root in done
      {
        if p == root {
          continue;
        }
        if comm[p].present {
          KickPim(t, p, o, done);
          done := done + {p};
        }
      }
    }

    /** Half-way through the loops of role selection that was entered with the ports `o`:
        the ports in `done` have been kicked. */
    ghost predicate Kicked(t: MstId, o: seq<TreePort>, done: set<int>)
      reads this`begin, this`comm, this`trees, this`changing, this`marks, trees.Values
    {
      && Shape() && t in trees && |o| == |comm| && trees[t].prs == RoleSelection
      && (begin ==> AtBegin(t) && BeginSelected(comm, o, trees[t].ports))
      && (!begin ==>
            && Ready(t) && SelectedAll(comm, trees[t].ports)
            && Framed(comm, o, trees[t].ports) && Lower(comm, o, trees[t].ports)
            && forall q | q in done && 0 <= q < |comm| && comm[q].present :: QuietPort(t, q))
    }

    /** One call of mstp_pimSm from the loops of role selection. */
    method KickPim(t: MstId, p: LPort, ghost o: seq<TreePort>, ghost done: set<int>)
      requires Kicked(t, o, done) && p < |comm| && comm[p].present
      modifies Footprint(t), this`received
      ensures Kicked(t, o, done + {p}) && received == old(received)
      ensures PendingSet(t) <= old(PendingSet(t))
      decreases 0, if t == CIST then 1 else 0, PendingSet(t), 5, 0
    {
      hide StartableAll, Framed, Lower, LinkedBut, SelectedAll, SettledBut, AgreesBut, Took;
      ghost var m := trees[t].ports;
      PimSm(NoPacket, t, p);
      if !begin {
        SelectedKept(K(t), comm, m, trees[t].ports);
        KeptTrans(comm, o, m, trees[t].ports);
      }
    }

    /** The three procedures at the head of mstp_prsSmRoleSelectionAct. */
    method ComputeRoles(t: MstId)
      requires Shape() && t in trees && trees[t].prs == RoleSelection
      modifies trees[t]
      ensures Shape() && trees[t].prs == RoleSelection
      ensures trees[t].root != 0 ==> trees[t].root < |comm| && comm[trees[t].root].present
      ensures ReselectedAll(t == CIST, old(trees[CIST].ports), comm, old(trees[t].ports), trees[t].ports)
    {
      trees[t].ClearReselectTree(comm);
      trees[t].UpdtRolesTree(comm, trees[CIST].ports);
      trees[t].SetSelectedTree(comm);
    }

    // -------------------------------------------------------------------------
    // Port Information (mstpd_pim_sm.c)
    // -------------------------------------------------------------------------

    /** What the loop of a call on port p keeps of the ports `o` its tree had. */
    ghost predicate Mid(pkt: Packet, calm: bool, t: MstId, p: LPort, o: seq<TreePort>)
      reads this`begin, this`comm, this`trees, this`changing, this`marks, trees.Values
    {
      && Running(t) && p < |comm| && comm[p].present && |o| == |comm|
      && OnTheWay(K(t), trees[CIST].ports, comm, o, trees[t].ports, p)
      && (Linked(K(t), trees[t].ports[p]) || Passing(K(t), trees[t].ports[p]))
      && (comm[p].enabled || trees[t].ports[p].pim.Disabled?)
      && (pkt.Packet? ==> calm) && Accepts(pkt, t, p)
      && (calm ==> SettledBut(K(t), comm, trees[t].ports, p) && AgreesBut(comm, trees[t].ports, changing))
      && (pkt.NoPacket? ==> Lower(comm, o, trees[t].ports))
    }

    /** mstp_pimSm. Without a packet it may be called on a tree whose other ports are
        still on their way; with a packet it is called between events. A packet is taken into
        RECEIVE at most once. On return the port is quiet, but for one case: a message was
        taken that does not restart the ageing time, and that time had run out before. */
    method PimSm(pkt: Packet, t: MstId, p: LPort)
      requires Shape() && t in trees && p < |comm| && comm[p].present
      requires if begin then pkt.NoPacket? && !comm[p].enabled else Ready(t)
      requires (pkt.Packet? ==> SettledTree(t)) && Accepts(pkt, t, p)
      modifies Footprint(t), this`received
      ensures Shape() && t in trees && trees[t].prs == old(trees[t].prs)
      ensures begin ==> received == old(received)
      ensures begin ==> trees[t].ports == old(trees[t].ports)[p := BeginPort(old(trees[t].ports[p]))]
      ensures !begin ==> Ready(t)
      ensures !begin ==> OnTheWay(K(t), trees[CIST].ports, comm, old(trees[t].ports), trees[t].ports, p)
      ensures !begin ==>
        (QuietPort(t, p) <==> !old(Receives(t == CIST, trees[CIST].ports[p], comm[p], trees[t].ports[p])
                                   && Overlooked(pkt, trees[t].ports[p])))
      ensures !begin && pkt.NoPacket? ==> Lower(comm, old(trees[t].ports), trees[t].ports) && received == old(received)
      ensures !begin && old(QuietPort(t, p)) && received == old(received) ==> SamePorts()
      ensures !begin && old(SettledTree(t)) ==> SettledTree(t)
      ensures pkt.Packet? ==>
        var receives := old(Receives(t == CIST, trees[CIST].ports[p], comm[p], trees[t].ports[p]));
        && received == old(received) + (if receives then 1 else 0)
        && (receives ==> !trees[t].ports[p].rcvdMsg && Took(pkt, old(trees[t].ports[p]), trees[t].ports[p]))
      ensures old(Mildly(pkt, t, p)) ==> SameMstis()
      decreases
        if pkt.Packet? then 1 else 0, if t == CIST then 1 else 0, if pkt.Packet? then NO_PORTS else PendingSet(t), 4, 0
    {
      hide Lower, Framed, Took, Overlooked, QuietKept, AgreesBut, Marked, Bordered, Startable, Dismisses, RcvInfo,
        RunOut;
      ghost var o := trees[t].ports;
      ghost var calm := SettledTree(t);
      PimGeneralCond(pkt, t, p);
      PimRun(pkt, calm, t, p, o);
    }

    /** The loop of mstp_pimSm. */
    method PimRun(pkt: Packet, ghost calm: bool, t: MstId, p: LPort, ghost o: seq<TreePort>)
      requires Shape() && t in trees && p < |comm| && comm[p].present && |o| == |comm|
      requires if begin then pkt.NoPacket? && !comm[p].enabled && trees[t].ports[p].pim.Disabled?
               else Mid(pkt, calm, t, p, o) && Linked(K(t), trees[t].ports[p])
      requires pkt.Packet? ==> !trees[t].ports[p].pim.SuperiorDesignated?
      modifies Footprint(t), this`received
      ensures Shape() && t in trees && trees[t].prs == old(trees[t].prs)
      ensures begin ==> trees[t].ports == old(trees[t].ports)
      ensures !begin ==> Mid(pkt, calm, t, p, o) && Linked(K(t), trees[t].ports[p])
      ensures !begin ==>
        (QuietPort(t, p) <==> !old(Receives(t == CIST, trees[CIST].ports[p], comm[p], trees[t].ports[p])
                                   && Overlooked(pkt, trees[t].ports[p])))
      ensures !begin ==> QuietPort(t, p) || (trees[t].ports[p].pim.Current? && !trees[t].ports[p].updtInfo)
      ensures !begin && old(QuietPort(t, p)) && received == old(received) ==> SamePorts()
      ensures var receives := pkt.Packet? && old(Receives(t == CIST, trees[CIST].ports[p], comm[p], trees[t].ports[p]));
        && received == old(received) + (if receives then 1 else 0)
        && (receives ==> !trees[t].ports[p].rcvdMsg && Took(pkt, old(trees[t].ports[p]), trees[t].ports[p]))
      ensures old(Mildly(pkt, t, p)) ==> SameMstis()
      decreases
        if pkt.Packet? then 1 else 0, if t == CIST then 1 else 0,
        if pkt.Packet? then NO_PORTS else PendingPorts(comm, o), 3, 3
    {
      hide OnTheWay, Lower, SettledBut, AgreesBut, Marked, Bordered, Tracked, Stepped, Took, RcvInfo, Dismisses,
        Dismissing, RunOut, Mild;
      ghost var receives := Receives(t == CIST, trees[CIST].ports[p], comm[p], trees[t].ports[p]);
      ghost var was := trees[t].ports[p];
      ghost var first, took := true, false;
      var next := true;
      TrackedBegin(pkt, receives, was);
      while next
        invariant Shape() && t in trees && trees[t].prs == old(trees[t].prs)
        invariant begin ==> trees[t].ports == old(trees[t].ports)
        invariant !begin ==> Mid(pkt, calm, t, p, o)
        invariant !begin && !next ==> Linked(K(t), trees[t].ports[p])
        invariant !begin && !next ==> (QuietPort(t, p) <==> !(took && Overlooked(pkt, was)))
        invariant !begin && !next ==> QuietPort(t, p) || (trees[t].ports[p].pim.Current? && !trees[t].ports[p].updtInfo)
        invariant received == old(received) + (if took then 1 else 0)
        invariant Tracked(pkt, first, took, receives, was, trees[t].ports[p], next)
        invariant first || (!begin && old(QuietPort(t, p)) && !took) ==> SamePorts()
        invariant pkt.Packet? && t == CIST && comm[p].rcvdInternal && receives && Dismisses(RcvInfo(pkt, was)) ==>
                    SameMstis()
        decreases if next then 1 else 0, if trees[t].ports[p].rcvdMsg then 1 else 0, Rank(trees[t].ports[p].pim)
      {
        ghost var tp := trees[t].ports[p];
        ghost var receives' := pkt.Packet? && Receives(t == CIST, trees[CIST].ports[p], comm[p], tp);
        TrackedAt(pkt, first, took, receives, was, tp, true);
        next := PimStep(pkt, calm, t, p, o);
        TrackedOn(pkt, first, took, receives, was, tp, receives', trees[t].ports[p], next);
        took := took || trees[t].ports[p].pim.Receive?;
        first := false;
      }
      TrackedAt(pkt, first, took, receives, was, trees[t].ports[p], next);
    }

    /** One pass of the switch of mstp_pimSm. */
    method PimStep(pkt: Packet, ghost calm: bool, t: MstId, p: LPort, ghost o: seq<TreePort>) returns (next: bool)
      requires Shape() && t in trees && p < |comm| && comm[p].present && |o| == |comm|
      requires if begin then pkt.NoPacket? && !comm[p].enabled && trees[t].ports[p].pim.Disabled?
               else Mid(pkt, calm, t, p, o)
      requires (trees[t].ports[p].pim.Receive? ==> pkt.Packet?) && (pkt.Packet? ==> calm && !begin)
      requires OnPacket(trees[t].ports[p])
      modifies Footprint(t), this`received
      ensures Shape() && t in trees && trees[t].prs == old(trees[t].prs)
      ensures begin ==> !next && trees[t].ports == old(trees[t].ports)
      ensures !begin ==> Mid(pkt, calm, t, p, o)
      ensures !begin && !next ==> Linked(K(t), trees[t].ports[p])
      ensures !begin && !next ==>
        (QuietPort(t, p) <==> !old(Dismissing(trees[t].ports[p]) && RunOut(trees[t].ports[p])))
      ensures !begin && !next ==> QuietPort(t, p) || (trees[t].ports[p].pim.Current? && !trees[t].ports[p].updtInfo)
      ensures var receives := pkt.Packet? && old(Receives(t == CIST, trees[CIST].ports[p], comm[p], trees[t].ports[p]));
        && Stepped(pkt, receives, old(trees[t].ports[p]), trees[t].ports[p], next)
        && received == old(received) + (if receives then 1 else 0)
      ensures !begin && old(QuietPort(t, p)) && received == old(received) ==> SamePorts()
      ensures t == CIST && comm[p].rcvdInternal && Mild(received != old(received), old(trees[t].ports[p])) ==>
        SameMstis()
      decreases
        if pkt.Packet? then 1 else 0, if t == CIST then 1 else 0,
        if pkt.Packet? then NO_PORTS else PendingPorts(comm, o), 3, 2
    {
      hide OnTheWay, SettledBut, AgreesBut, Lower, NoPortZero, RoleOk, RcvdInfoOk, HeldOn, Recorded, RunOut, RcvInfo,
        Dismisses, Stepped, SettledMstis, Mid;
      match trees[t].ports[p].pim {
        case Disabled | Aged | Current => next := PimRestCond(pkt, calm, t, p, o);
        case _ => next := PimPassCond(pkt, calm, t, p, o);
      }
    }

    /** The states a port only passes through. */
    method PimPassCond(pkt: Packet, ghost calm: bool, t: MstId, p: LPort, ghost o: seq<TreePort>) returns (next: bool)
      requires Shape() && t in trees && p < |comm| && comm[p].present && |o| == |comm|
      requires !begin && Mid(pkt, calm, t, p, o)
      requires (trees[t].ports[p].pim.Receive? ==> pkt.Packet?) && (pkt.Packet? ==> calm)
      requires !trees[t].ports[p].pim.Disabled? && !trees[t].ports[p].pim.Aged? && !trees[t].ports[p].pim.Current?
      requires OnPacket(trees[t].ports[p])
      modifies Footprint(t), this`received
      ensures Shape() && t in trees && trees[t].prs == old(trees[t].prs)
      ensures Mid(pkt, calm, t, p, o) && received == old(received)
      ensures !next ==> Linked(K(t), trees[t].ports[p])
      ensures !next ==> (QuietPort(t, p) <==> !old(Dismissing(trees[t].ports[p]) && RunOut(trees[t].ports[p])))
      ensures !next ==> trees[t].ports[p].pim.Current? && !trees[t].ports[p].updtInfo
      ensures Stepped(pkt, false, old(trees[t].ports[p]), trees[t].ports[p], next)
      ensures t == CIST && comm[p].rcvdInternal && Mild(false, old(trees[t].ports[p])) ==> SameMstis()
      decreases
        if pkt.Packet? then 1 else 0, if t == CIST then 1 else 0,
        if pkt.Packet? then NO_PORTS else PendingPorts(comm, o), 3, 1
    {
      hide OnTheWay, SettledBut, AgreesBut, Lower, NoPortZero, RoleOk, RcvdInfoOk, HeldOn, Recorded, RunOut, RcvInfo,
        Dismisses, Stepped, SettledMstis, Mid;
      if trees[t].ports[p].pim.Receive? {
        next := PimReceiveCond(pkt, t, p, o);
      } else {
        next := PimResumeCond(pkt, calm, t, p, o);
      }
    }

    /** The three states a port can rest in. */
    method PimRestCond(pkt: Packet, ghost calm: bool, t: MstId, p: LPort, ghost o: seq<TreePort>) returns (next: bool)
      requires Shape() && t in trees && p < |comm| && comm[p].present && |o| == |comm|
      requires if begin then pkt.NoPacket? && !comm[p].enabled && trees[t].ports[p].pim.Disabled?
               else Mid(pkt, calm, t, p, o)
      requires trees[t].ports[p].pim.Disabled? || trees[t].ports[p].pim.Aged? || trees[t].ports[p].pim.Current?
      modifies Footprint(t), this`received
      ensures Shape() && t in trees && trees[t].prs == old(trees[t].prs)
      ensures begin ==> !next && trees[t].ports == old(trees[t].ports)
      ensures !begin ==> Mid(pkt, calm, t, p, o)
      ensures !begin && !next ==> Linked(K(t), trees[t].ports[p]) && QuietPort(t, p)
      ensures var receives := pkt.Packet? && old(Receives(t == CIST, trees[CIST].ports[p], comm[p], trees[t].ports[p]));
        && Stepped(pkt, receives, old(trees[t].ports[p]), trees[t].ports[p], next)
        && received == old(received) + (if receives then 1 else 0)
      ensures !begin && old(QuietPort(t, p)) && received == old(received) ==> SamePorts()
      ensures t == CIST && received != old(received) ==> SameMstis()
      decreases
        if pkt.Packet? then 1 else 0, if t == CIST then 1 else 0,
        if pkt.Packet? then NO_PORTS else PendingPorts(comm, o), 3, 1
    {
      match trees[t].ports[p].pim {
        case Disabled => next := PimDisabledCond(pkt, calm, t, p, o);
        case Aged => next := PimAgedCond(pkt, calm, t, p, o);
        case Current => next := PimCurrentCond(pkt, calm, t, p, o);
        case _ => assert false;
      }
    }

    /** mstp_pimSmGeneralCond. */
    method PimGeneralCond(pkt: Packet, t: MstId, p: LPort)
      requires Shape() && t in trees && p < |comm| && comm[p].present
      requires if begin then pkt.NoPacket? && !comm[p].enabled else Ready(t)
      requires (pkt.Packet? ==> SettledTree(t)) && Accepts(pkt, t, p)
      modifies Footprint(t), this`received
      ensures Shape() && t in trees && trees[t].prs == old(trees[t].prs) && received == old(received)
      ensures begin ==> trees[t].ports == old(trees[t].ports)[p := BeginPort(old(trees[t].ports[p]))]
      ensures !begin ==> Mid(pkt, old(SettledTree(t)), t, p, old(trees[t].ports))
      ensures !begin ==> Linked(K(t), trees[t].ports[p])
      ensures old(SettledTree(t)) ==> !trees[t].ports[p].pim.SuperiorDesignated?
      ensures !begin && (comm[p].enabled || old(QuietPort(t, p))) ==> SamePorts()
      decreases 0, if t == CIST then 1 else 0, PendingSet(t), 3, 0
    {
      var tp := trees[t].ports[p];
      ghost var o := trees[t].ports;
      if (!comm[p].enabled && !tp.infoIs.InfoDisabled?) || begin {
        if !tp.pim.Disabled? {
          PimDisabledAct(t, p);
          if !begin {
            RestStep(K(t), trees[CIST].ports, comm, o, o, trees[t].ports, p, changing);
          }
        }
      }
    }

    /** The transition to DISABLED: mstp_pimSmDisabledAct with the state change that
        precedes it. */
    method PimDisabledAct(t: MstId, p: LPort)
      requires Shape() && t in trees && p < |comm| && comm[p].present && !comm[p].enabled
      requires !trees[t].ports[p].pim.Disabled? && (!begin ==> Ready(t))
      modifies Footprint(t), this`received
      ensures Shape() && t in trees && trees[t].prs == old(trees[t].prs) && received == old(received)
      ensures begin ==> trees[t].ports == old(trees[t].ports)[p := BeginPort(old(trees[t].ports[p]))]
      ensures !begin ==> AtRest(t)
      ensures !begin ==> Framed(comm, old(trees[t].ports), trees[t].ports)
      ensures !begin ==> Lower(comm, old(trees[t].ports), trees[t].ports)
      decreases 0, if t == CIST then 1 else 0, PendingSet(t), 2, 0
    {
      hide Framed, AgreementKept, SelectedAll, StartableAll, SomeReselect, PendingPorts, Quiet, Lower;
      var tp := trees[t].ports[p].(pim := Disabled, rcvdMsg := false, rcvdInfoWhile := 0, infoIs := InfoDisabled,
                                   reselect := true, selected := false);
      if begin {
        trees[t].ports := trees[t].ports[p := tp];
      } else {
        ghost var o := trees[t].ports;
        PendingShrinks(comm, o, p, tp);
        StartPort(t, p, tp);
        ghost var m := trees[t].ports;
        PrsSm(t);
        LowerAfter(comm, o, p, tp, trees[t].ports);
        RestFramed(comm, o, m, trees[t].ports);
      }
    }

    /** mstp_pimSmDisabledCond. The re-entry on 'rcvdMsg' cannot be taken: the state test that
        guards it fails whenever it is reached. */
    method PimDisabledCond(pkt: Packet, ghost calm: bool, t: MstId, p: LPort, ghost o: seq<TreePort>)
      returns (next: bool)
      requires Shape() && t in trees && p < |comm| && comm[p].present && trees[t].ports[p].pim.Disabled?
      requires if begin then pkt.NoPacket? && !comm[p].enabled else Mid(pkt, calm, t, p, o)
      modifies Footprint(t), this`received
      ensures !next && Shape() && t in trees && trees[t].prs == old(trees[t].prs) && received == old(received)
      ensures begin ==> trees[t].ports == old(trees[t].ports)
      ensures !begin ==> Mid(pkt, calm, t, p, o) && Linked(K(t), trees[t].ports[p]) && QuietPort(t, p)
      ensures !begin && old(QuietPort(t, p)) ==> SamePorts()
      ensures Stepped(pkt, false, old(trees[t].ports[p]), trees[t].ports[p], next)
      decreases 0, if t == CIST then 1 else 0, if begin then NO_PORTS else PendingSet(t), 3, 0
    {
      next := false;
      if comm[p].enabled {
        PimAgedStep(pkt, calm, t, p, o);
      } else if trees[t].ports[p].rcvdMsg {
        if !trees[t].ports[p].pim.Disabled? {
          assert false;
        }
      }
    }

    /** The transition to AGED: mstp_pimSmAgedAct with the state change that precedes it. */
    method PimAgedAct(t: MstId, p: LPort)
      requires Ready(t) && p < |comm| && comm[p].present && comm[p].enabled
      requires Pending(comm[p], trees[t].ports[p])
      modifies Footprint(t), this`received
      ensures AtRest(t) && received == old(received) && !trees[t].ports[p].infoIs.InfoReceived?
      ensures Framed(comm, old(trees[t].ports), trees[t].ports) && Lower(comm, old(trees[t].ports), trees[t].ports)
      decreases 0, if t == CIST then 1 else 0, PendingSet(t), 2, 0
    {
      hide Framed, AgreementKept, SelectedAll, StartableAll, SomeReselect, PendingPorts, Quiet, Lower;
      var tp := trees[t].ports[p].(pim := Aged, infoIs := InfoAged, reselect := true, selected := false);
      ghost var o := trees[t].ports;
      PendingShrinks(comm, o, p, tp);
      StartPort(t, p, tp);
      ghost var m := trees[t].ports;
      SelectAndSync(t, p, true);
      LowerAfter(comm, o, p, tp, trees[t].ports);
      RestFramed(comm, o, m, trees[t].ports);
    }

    /** The transition to AGED within a call. */
    method PimAgedStep(ghost pkt: Packet, ghost calm: bool, t: MstId, p: LPort, ghost o: seq<TreePort>)
      requires Mid(pkt, calm, t, p, o) && Linked(K(t), trees[t].ports[p])
      requires comm[p].enabled && Pending(comm[p], trees[t].ports[p])
      modifies Footprint(t), this`received
      ensures Mid(pkt, calm, t, p, o) && received == old(received)
      ensures Linked(K(t), trees[t].ports[p]) && QuietPort(t, p)
      ensures trees[t].ports[p].rcvdMsg ==> old(trees[t].ports[p].rcvdMsg)
      decreases 0, if t == CIST then 1 else 0, PendingSet(t), 2, 1
    {
      ghost var m := trees[t].ports;
      PimAgedAct(t, p);
      RestStep(K(t), trees[CIST].ports, comm, o, m, trees[t].ports, p, changing);
    }

    /** The CIST synchronises the MSTIs on the boundary of the region or when the regional
        root has changed; an aged port also when this bridge is the regional root. */
    predicate SyncNeeded(aged: bool, rgnRoot: int, rgnRoot': int, comm: CommPort) {
      (aged && rgnRoot' == bridgeId) || rgnRoot != rgnRoot' || !comm.rcvdInternal
    }

    /** Port p of tree t can be written without a loss to the marks. */
    ghost predicate MayWrite(t: MstId, p: LPort, o: TreePort, n: TreePort)
      requires p < |comm|
      reads this`comm, this`changing, this`marks
    {
      && n.loopInconsistent == o.loopInconsistent
      && (|| !comm[p].enabled
          || ((t, p) in marks.taking && (t, p) !in marks.stuck && p !in changing)
          || (Lasting(o, n) && (Stuck(o) ==> Stuck(n)) && (Rising(o) ==> Rising(n))))
    }

    /** One port is made ready for role selection. */
    method StartPort(t: MstId, p: LPort, tp: TreePort)
      requires Running(t) && LinkedBut(K(t), comm, trees[t].ports, p) && p < |comm| && comm[p].present
      requires Startable(K(t), tp) && tp.reselect && (tp.rcvdMsg ==> trees[t].ports[p].rcvdMsg)
      requires Grounded(K(t), trees[CIST].ports[p], comm[p], tp) && MayWrite(t, p, trees[t].ports[p], tp)
      requires Agrees(comm[p], trees[t].ports[p]) ==> Agrees(comm[p], tp)
      modifies Slot(t)`ports
      ensures Running(t) && trees[t].ports == old(trees[t].ports)[p := tp]
      ensures StartableAll(K(t), trees[CIST].ports, comm, trees[t].ports) && SomeReselect(comm, trees[t].ports)
      ensures AgreementKept(comm, old(trees[t].ports), trees[t].ports)
      ensures forall q | 0 <= q < |comm| && comm[q].present ::
                trees[t].ports[q].rcvdMsg ==> old(trees[t].ports[q].rcvdMsg)
    {
      hide Marked, Bordered, Startable, Grounded, Agrees, LinkedBut, StartableAll, SomeReselect, AgreementKept,
        Lasting, Stuck, Rising;
      ghost var o, cist := trees[t].ports, trees[CIST].ports;
      MarkedOne(t, comm, o, changing, marks, p, tp);
      trees[t].ports := trees[t].ports[p := tp];
      StartOne(K(t), cist, trees[CIST].ports, comm, o, p, tp);
      if t != CIST {
        BorderedKept(t, cist, comm, o, trees[t].ports, changing, marks);
      }
    }

    /** How the AGED and SUPERIOR_DESIGNATED actions end: PRS is kicked, and the CIST may
        synchronise the MSTIs. */
    method SelectAndSync(t: MstId, p: LPort, aged: bool)
      requires Running(t) && StartableAll(K(t), trees[CIST].ports, comm, trees[t].ports)
      requires p < |comm| && comm[p].present && trees[t].ports[p].reselect
      modifies Footprint(t), this`received
      ensures AtRest(t) && received == old(received)
      ensures Framed(comm, old(trees[t].ports), trees[t].ports) && Lower(comm, old(trees[t].ports), trees[t].ports)
      ensures t == CIST && SyncNeeded(aged, old(trees[t].rgnRoot), trees[t].rgnRoot, comm[p]) ==> MstisAtRest()
      decreases 0, if t == CIST then 1 else 0, PendingSet(t), 7, 0
    {
      hide Framed, Lower, Quiet, SettledBut, AgreesBut, Marked, Bordered, Startable, Grounded, SelectedAll, LinkedBut,
        QuietAll, PlacedAll;
      var rgnRoot := trees[t].rgnRoot;
      PrsSm(t);
      if t == CIST {
        if SyncNeeded(aged, rgnRoot, trees[CIST].rgnRoot, comm[p]) {
          RestPlaced(K(CIST), comm, trees[CIST].ports);
          SyncMstiPortsWithCist(p);
        }
      }
    }

    /** mstp_syncMstiPortsWithCist. */
    method SyncMstiPortsWithCist(p: LPort)
      requires Shape() && !begin && p < |comm| && comm[p].present && SettledMstis()
      requires PlacedAll(comm, trees[CIST].ports) && Marked(CIST, comm, trees[CIST].ports, changing, marks)
      requires marks.stuck == {}
      modifies trees.Values - {trees[CIST]}, this`received
      ensures Shape() && SettledMstis() && MstisAtRest() && received == old(received)
      decreases 0, 1, NO_PORTS, 1, 0
    {
      hide AllSettled, LinkedBut, SelectedAll, QuietAll, Marked, PlacedAll, Bordered;
      for m := 1 to maxMsti + 1
        invariant Shape() && SettledMstis() && received == old(received)
        invariant forall u | u in trees && CIST < u < m :: AtRest(u)
      {
        if m in trees {
          SyncMsti(m, p);
        }
      }
    }

    /** The loop body of mstp_syncMstiPortsWithCist. */
    method SyncMsti(m: MstId, p: LPort)
      requires Shape() && !begin && p < |comm| && comm[p].present && m in trees && m != CIST && SettledTree(m)
      requires PlacedAll(comm, trees[CIST].ports) && Marked(CIST, comm, trees[CIST].ports, changing, marks)
      requires marks.stuck == {}
      modifies trees[m], this`received
      ensures Shape() && SettledTree(m) && AtRest(m) && received == old(received)
      decreases 0, 1, NO_PORTS, 0, 0
    {
      hide Marked, PlacedAll, Bordered, Startable, Grounded, SettledBut, AgreesBut, LinkedBut, SelectedAll, QuietAll,
        Lasting, Stuck, Rising, Agrees, StartableAll, Framed, Lower, SomeReselect, AgreementKept;
      SettledStart(K(m), trees[CIST].ports[p], comm, trees[m].ports, p);
      BorderedAll(m, trees[CIST].ports, comm, trees[m].ports, changing, marks);
      StartPort(m, p, trees[m].ports[p].(reselect := true, selected := false));
      PrsSm(m);
      RestSettled(K(m), trees[CIST].ports, comm, trees[m].ports, changing);
    }

    /** The port of the call takes a step of its own. */
    method PutPort(ghost pkt: Packet, ghost calm: bool, t: MstId, p: LPort, ghost o: seq<TreePort>, tp: TreePort)
      requires !begin && Mid(pkt, calm, t, p, o) && comm[p].enabled
      requires Linked(K(t), tp) || Passing(K(t), tp)
      requires Agrees(comm[p], trees[t].ports[p]) ==> Agrees(comm[p], tp)
      requires (tp.rcvdMsg ==> trees[t].ports[p].rcvdMsg) && (trees[t].ports[p].selected ==> tp.selected)
      requires pkt.NoPacket? ==> !tp.pim.SuperiorDesignated?
      requires pkt.NoPacket? && Pending(comm[p], tp) ==> Pending(comm[p], trees[t].ports[p])
      requires pkt.NoPacket? ==> Lasting(trees[t].ports[p], tp) && (Stuck(trees[t].ports[p]) ==> Stuck(tp))
      requires pkt.NoPacket? && Rising(trees[t].ports[p]) ==> Rising(tp)
      requires tp.loopInconsistent == trees[t].ports[p].loopInconsistent
      modifies Slot(t)`ports
      ensures Mid(pkt, calm, t, p, o) && trees[t].ports == old(trees[t].ports)[p := tp]
    {
      hide Marked, Bordered, Lasting, Stuck, Rising;
      ghost var m, c := trees[t].ports, trees[CIST].ports;
      trees[t].ports := trees[t].ports[p := tp];
      MarkedOne(t, comm, m, changing, marks, p, tp);
      if t != CIST {
        BorderedKept(t, c, comm, m, trees[t].ports, changing, marks);
      }
      OneStep(K(t), c, trees[CIST].ports, comm, o, m, p, tp, changing);
      if pkt.NoPacket? {
        OneLower(comm, o, m, p, tp);
      }
    }

    /** mstp_pimSmAgedCond. */
    method PimAgedCond(pkt: Packet, ghost calm: bool, t: MstId, p: LPort, ghost o: seq<TreePort>) returns (next: bool)
      requires !begin && Mid(pkt, calm, t, p, o) && trees[t].ports[p].pim.Aged?
      modifies Slot(t)`ports
      ensures Mid(pkt, calm, t, p, o) && Stepped(pkt, false, old(trees[t].ports[p]), trees[t].ports[p], next)
      ensures !next ==> Linked(K(t), trees[t].ports[p]) && QuietPort(t, p)
      ensures old(QuietPort(t, p)) ==> SamePorts()
    {
      next := false;
      if trees[t].ports[p].selected && trees[t].ports[p].updtInfo {
        PimUpdateAct(pkt, calm, t, p, o);
        next := true;
      }
    }

    /** The transition to UPDATE: mstp_pimSmUpdateAct with the state change that precedes
        it. The assertion is the one its CIST branch makes. */
    method PimUpdateAct(pkt: Packet, ghost calm: bool, t: MstId, p: LPort, ghost o: seq<TreePort>)
      requires !begin && Mid(pkt, calm, t, p, o) && Linked(K(t), trees[t].ports[p])
      requires trees[t].ports[p].updtInfo && comm[p].enabled && !trees[t].ports[p].pim.Disabled?
      modifies Slot(t)`ports
      ensures Mid(pkt, calm, t, p, o) && trees[t].ports[p] == Updated(old(trees[t].ports[p]))
    {
      assert t == CIST ==> RoleOk(trees[t].ports[p]);
      PutPort(pkt, calm, t, p, o, Updated(trees[t].ports[p]));
    }

    /** mstp_pimSmCurrentCond. */
    method PimCurrentCond(pkt: Packet, ghost calm: bool, t: MstId, p: LPort, ghost o: seq<TreePort>)
      returns (next: bool)
      requires !begin && Mid(pkt, calm, t, p, o) && trees[t].ports[p].pim.Current?
      modifies Footprint(t), this`received
      ensures Mid(pkt, calm, t, p, o)
      ensures var receives := pkt.Packet? && old(Receives(t == CIST, trees[CIST].ports[p], comm[p], trees[t].ports[p]));
        && Stepped(pkt, receives, old(trees[t].ports[p]), trees[t].ports[p], next)
        && received == old(received) + (if receives then 1 else 0)
      ensures !next ==> Linked(K(t), trees[t].ports[p]) && QuietPort(t, p)
      ensures old(QuietPort(t, p)) && received == old(received) ==> SamePorts()
      ensures t == CIST && received != old(received) ==> SameMstis()
      decreases
        if pkt.Packet? then 1 else 0, if t == CIST then 1 else 0,
        if pkt.Packet? then NO_PORTS else PendingPorts(comm, o), 3, 0
    {
      hide OnTheWay, SettledBut, AgreesBut, Stepped, Lower, RcvInfo, Recorded, Marked, Bordered, Startable, Dismisses,
        OnPacket, Lasting;
      var tp := trees[t].ports[p];
      var cist := trees[CIST].ports[p];
      next := false;
      if tp.selected && tp.updtInfo {
        UpdatedSteps(pkt, tp);
        PimUpdateAct(pkt, calm, t, p, o);
        next := true;
      } else if TimedOut(t == CIST, cist, tp) {
        if pkt.NoPacket? {
          Lowered(comm, o, trees[t].ports);
        }
        PimAgedStep(pkt, calm, t, p, o);
        RestedSteps(pkt, tp, trees[t].ports[p]);
      } else if RcvdXstMsg(t == CIST, cist, tp) && !UpdtXstInfo(t == CIST, cist, tp) && pkt.Packet? {
        ReceivedSteps(pkt, tp);
        PimReceiveAct(pkt, t, p, o);
        next := true;
      } else {
        RestedSteps(pkt, tp, tp);
      }
    }

    /** The transition to RECEIVE with its action: the message is classified. */
    method PimReceiveAct(pkt: Packet, t: MstId, p: LPort, ghost o: seq<TreePort>)
      requires pkt.Packet? && !begin && Mid(pkt, true, t, p, o)
      requires trees[t].ports[p].pim.Current? && !trees[t].ports[p].updtInfo
      modifies Slot(t)`ports, this`received
      ensures Mid(pkt, true, t, p, o) && received == old(received) + 1
      ensures var was := old(trees[t].ports[p]);
        trees[t].ports[p] == was.(pim := Receive, rcvdInfo := RcvInfo(pkt, was))
      ensures RcvdInfoOk(trees[t].ports[p])
    {
      var tp := trees[t].ports[p];
      received := received + 1;
      PutPort(pkt, true, t, p, o, tp.(pim := Receive, rcvdInfo := RcvInfo(pkt, tp)));
    }

    /** mstp_pimSmReceiveCond: whatever the outcome, 'rcvdMsg' is down afterwards. */
    method PimReceiveCond(pkt: Packet, t: MstId, p: LPort, ghost o: seq<TreePort>) returns (next: bool)
      requires pkt.Packet? && !begin && Mid(pkt, true, t, p, o) && trees[t].ports[p].pim.Receive?
      requires RcvdInfoOk(trees[t].ports[p]) && trees[t].ports[p].rcvdMsg
      modifies Footprint(t), this`received
      ensures Shape() && t in trees && trees[t].prs == old(trees[t].prs)
      ensures next && Mid(pkt, true, t, p, o) && received == old(received)
      ensures Stepped(pkt, false, old(trees[t].ports[p]), trees[t].ports[p], next)
      ensures Outcome(old(trees[t].ports[p]).rcvdInfo, trees[t].ports[p].pim)
      ensures t == CIST && comm[p].rcvdInternal && Dismisses(old(trees[t].ports[p]).rcvdInfo) ==> SameMstis()
      decreases 1, if t == CIST then 1 else 0, NO_PORTS, 2, 0
    {
      hide OnTheWay, SettledBut, AgreesBut, Lower, Stepped, Outcome, Recorded;
      ghost var was := trees[t].ports[p];
      match trees[t].ports[p].rcvdInfo {
        case RcvdSuperior => PimSuperiorDesignatedAct(pkt, t, p, o);
        case RcvdRepeated => PimRepeatedDesignatedAct(pkt, t, p, o);
        case RcvdInferior => PimDismissAct(pkt, t, p, InferiorDesignated, o);
        case RcvdInferiorRootAlternate => PimDismissAct(pkt, t, p, NotDesignated, o);
        case RcvdOther => PimDismissAct(pkt, t, p, Other, o);
        case RcvdUnknown => assert false;
      }
      LandedSteps(pkt, was, trees[t].ports[p]);
      next := true;
    }

    /** The transition to SUPERIOR_DESIGNATED with its action. PRS re-enters PIM on this
        very port while it is in SUPERIOR_DESIGNATED, and takes it on to CURRENT. */
    method PimSuperiorDesignatedAct(pkt: Packet, t: MstId, p: LPort, ghost o: seq<TreePort>)
      requires pkt.Packet? && !begin && Mid(pkt, true, t, p, o) && trees[t].ports[p].pim.Receive?
      modifies Footprint(t), this`received
      ensures Mid(pkt, true, t, p, o) && received == old(received)
      ensures !trees[t].ports[p].rcvdMsg && (trees[t].ports[p].pim.Current? || trees[t].ports[p].pim.Aged?)
      ensures Recorded(pkt, RcvdSuperior, trees[t].ports[p])
      decreases 1, if t == CIST then 1 else 0, NO_PORTS, 1, 0
    {
      var tp := trees[t].ports[p].(pim := SuperiorDesignated, rcvdInfoWhile := pkt.ageing, infoIs := InfoReceived,
                                   vectors := pkt.vectors, reselect := true, selected := false);
      SelectSuperior(pkt, t, p, if t == CIST then tp else tp.(rcvdMsg := false), o);
      if t == CIST {
        ClearRcvdMsg(pkt, p, o);
      }
    }

    /** The port goes to SUPERIOR_DESIGNATED as `tp`, and PRS is kicked. */
    method SelectSuperior(ghost pkt: Packet, t: MstId, p: LPort, tp: TreePort, ghost o: seq<TreePort>)
      requires pkt.Packet? && !begin && Mid(pkt, true, t, p, o)
      requires comm[p].enabled
      requires trees[t].ports[p].pim.Receive? && Startable(K(t), tp) && tp.reselect && tp.pim.SuperiorDesignated?
      requires tp.rcvdMsg ==> t == CIST && trees[t].ports[p].rcvdMsg
      requires tp.loopInconsistent == trees[t].ports[p].loopInconsistent
      modifies Footprint(t), this`received
      ensures Mid(pkt, true, t, p, o) && received == old(received)
      ensures trees[t].ports[p].rcvdMsg ==> t == CIST
      ensures trees[t].ports[p].pim.Current? || trees[t].ports[p].pim.Aged?
      ensures HeldOn(tp, trees[t].ports[p])
      decreases 1, if t == CIST then 1 else 0, NO_PORTS, 0, 0
    {
      hide AgreementKept, StartableAll, SomeReselect, Framed, SettledBut, AgreesBut, SelectedAll, Marked, Bordered,
        LinkedBut, QuietAll, QuietKept;
      ghost var m := trees[t].ports;
      StartPort(t, p, tp);
      ghost var m1 := trees[t].ports;
      SelectAndSync(t, p, false);
      FramedMsg(comm, m1, trees[t].ports, p);
      RestAfter(K(t), trees[CIST].ports, comm, o, m, m1, trees[t].ports, p, changing);
    }

    /** The CIST drops its message only after the MSTIs have been synchronised. */
    method ClearRcvdMsg(ghost pkt: Packet, p: LPort, ghost o: seq<TreePort>)
      requires pkt.Packet? && !begin && Mid(pkt, true, CIST, p, o) && comm[p].enabled
      modifies Slot(CIST)`ports
      ensures Mid(pkt, true, CIST, p, o) && trees[CIST].ports[p] == old(trees[CIST].ports[p]).(rcvdMsg := false)
    {
      PutPort(pkt, true, CIST, p, o, trees[CIST].ports[p].(rcvdMsg := false));
    }

    /** The transition to REPEATED_DESIGNATED with its action. */
    method PimRepeatedDesignatedAct(pkt: Packet, t: MstId, p: LPort, ghost o: seq<TreePort>)
      requires pkt.Packet? && !begin && Mid(pkt, true, t, p, o) && trees[t].ports[p].pim.Receive?
      modifies Slot(t)`ports
      ensures Mid(pkt, true, t, p, o)
      ensures trees[t].ports[p] == old(trees[t].ports[p]).(
        pim := RepeatedDesignated, rcvdInfoWhile := pkt.ageing, rcvdMsg := false)
    {
      var tp := trees[t].ports[p];
      PutPort(pkt, true, t, p, o, tp.(pim := RepeatedDesignated, rcvdInfoWhile := pkt.ageing, rcvdMsg := false));
    }

    /** The transitions to INFERIOR_DESIGNATED, NOT_DESIGNATED and OTHER. In the first two
        the CIST synchronises the MSTIs on the boundary of the region. */
    method PimDismissAct(ghost pkt: Packet, t: MstId, p: LPort, s: PimState, ghost o: seq<TreePort>)
      requires pkt.Packet? && !begin && Mid(pkt, true, t, p, o) && trees[t].ports[p].pim.Receive?
      requires s.InferiorDesignated? || s.NotDesignated? || s.Other?
      modifies Footprint(t), this`received
      ensures Mid(pkt, true, t, p, o) && received == old(received)
      ensures trees[t].ports[p] == old(trees[t].ports[p]).(pim := s, rcvdMsg := false)
      ensures t == CIST && !comm[p].rcvdInternal && !s.Other? ==> MstisAtRest()
      ensures t == CIST && comm[p].rcvdInternal ==> SameMstis()
      decreases 0, 1, NO_PORTS, 2, 0
    {
      PutPort(pkt, true, t, p, o, trees[t].ports[p].(pim := s, rcvdMsg := false));
      if t == CIST && !comm[p].rcvdInternal && !s.Other? {
        SettledPlaced(K(CIST), comm, trees[CIST].ports, p);
        SyncMstiPortsWithCist(p);
      }
    }

    /** UPDATE and the five outcomes of a packet all lead on to CURRENT. The loop goes on
        after SUPERIOR_DESIGNATED and REPEATED_DESIGNATED only. */
    method PimResumeCond(pkt: Packet, ghost calm: bool, t: MstId, p: LPort, ghost o: seq<TreePort>) returns (next: bool)
      requires !begin && Mid(pkt, calm, t, p, o) && !trees[t].ports[p].pim.Receive? && OnPacket(trees[t].ports[p])
      requires !trees[t].ports[p].pim.Disabled? && !trees[t].ports[p].pim.Aged? && !trees[t].ports[p].pim.Current?
      modifies Slot(t)`ports
      ensures Shape() && t in trees && trees[t].prs == old(trees[t].prs)
      ensures Mid(pkt, calm, t, p, o) && Linked(K(t), trees[t].ports[p])
      ensures trees[t].ports[p] == old(trees[t].ports[p]).(pim := Current)
      ensures Stepped(pkt, false, old(trees[t].ports[p]), trees[t].ports[p], next)
      ensures !next ==> (QuietPort(t, p) <==> !old(Dismissing(trees[t].ports[p]) && RunOut(trees[t].ports[p])))
      ensures !next ==> trees[t].ports[p].pim.Current? && !trees[t].ports[p].updtInfo
    {
      hide SettledMstis, OnTheWay, Lower, SettledBut, AgreesBut;
      next := trees[t].ports[p].pim.SuperiorDesignated? || trees[t].ports[p].pim.RepeatedDesignated?;
      PutPort(pkt, calm, t, p, o, trees[t].ports[p].(pim := Current));
    }

    // -------------------------------------------------------------------------
    // Events: what the rest of the program does to PIM and PRS
    // -------------------------------------------------------------------------

    /** Every tree is in ROLE_SELECTION and every port rests in CURRENT or DISABLED (an MSTI
        port also in AGED) with no update pending. */
    ghost predicate Calm()
      reads this`begin, this`comm, this`trees, this`changing, this`marks, trees.Values
    {
      Shape() && !begin && forall t | t in trees :: SettledTree(t)
    }

    /** What holds between events: besides, a port takes part exactly when it is enabled, and
        messages are up only on enabled ports whose Port Receive machine is in RECEIVE. */
    ghost predicate AtEvent()
      reads this, trees.Values
    {
      Calm() && changing == {} && marks == NO_MARKS && WaitingOk() && Heard({})
    }

    /** Messages wait only where Port Receive is in RECEIVE, and nowhere if no port hears itself. */
    ghost predicate WaitingOk()
      reads this`waiting, this`trees, this`comm
    {
      && (foreign ==> waiting == {})
      && forall w | w in waiting ::
        w.0 in trees && w.1 < |comm| && comm[w.1].present && comm[w.1].enabled && comm[w.1].receiving
    }

    ghost predicate Heard(but: set<LPort>)
      reads this`comm, this`waiting, this`trees, trees.Values
    {
      HeardAll(comm, Ports(), waiting, but)
    }

    /** The port is up and hears no message: it will accept a BPDU. */
    ghost predicate Listens(p: LPort)
      reads this`comm, this`waiting
    {
      p < |comm| && comm[p].present && comm[p].enabled && !Deaf(p)
    }

    /** A message is up on the port. */
    ghost predicate Deaf(p: LPort)
      reads this`waiting
    {
      exists w | w in waiting :: w.1 == p
    }

    ghost function Ports(): AllPorts
      reads this`trees, trees.Values
    {
      map u | u in trees :: trees[u].ports
    }

    /** The marks of a call of mstp_pimSm between events. */
    ghost method SetMarks(pkt: Packet, t: MstId, p: LPort)
      requires Calm() && marks == NO_MARKS && t in trees && p < |comm| && comm[p].present
      modifies this`marks
      ensures Calm() && (t == CIST ==> marks.stuck == {})
      ensures t != CIST ==> Bordered(t, trees[CIST].ports, comm, trees[t].ports, changing, marks)
      ensures marks.taking == (if pkt.Packet? then {(t, p)} else {}) && marks.was == Ports()
      ensures (t, p) in marks.stuck <==> IsStuck(pkt, t, p)
      ensures (t, p) in marks.stuck ==> pkt.NoPacket? && comm[p].enabled
    {
      hide AllSettled, Lasting, Stuck, Rising;
      var stuck := IsStuck(pkt, t, p);
      marks := Marks(Ports(), if pkt.Packet? then {(t, p)} else {}, if stuck then {(t, p)} else {});
      forall u | u in trees
        ensures SettledTree(u)
      {
        assert old(SettledTree(u));
        MarkedSelf(K(u), u, comm, trees[u].ports, changing, marks);
      }
      if t != CIST {
        assert SettledTree(CIST) && SettledTree(t);
        BorderedSettled(K(CIST), K(t), t, trees[CIST].ports, comm, trees[t].ports, changing, marks);
      }
    }

    /** The information of an MSTI port on the boundary is its own and has run out. */
    ghost predicate IsStuck(pkt: Packet, t: MstId, p: LPort)
      requires Shape() && t in trees && p < |comm|
      reads this`comm, this`trees, trees.Values
    {
      && pkt.NoPacket? && t != CIST && comm[p].enabled && Edge(trees[CIST].ports[p], comm[p])
      && Stuck(trees[t].ports[p])
    }

    /** What the marks of a call tell when it is over. */
    ghost method DropMarks(o: AllPorts)
      requires Calm() && marks.was == o && o.Keys == trees.Keys && forall u | u in o :: |o[u]| == |comm|
      modifies this`marks
      ensures Calm() && marks == NO_MARKS
      ensures LastAll(comm, o, Ports(), old(marks.taking)) && NoneGuarded(comm, o, Ports(), {})
      ensures forall u, q: LPort | u in trees && q < |comm| && comm[q].present && comm[q].enabled
                && (u, q) in old(marks.stuck) :: Stuck(trees[u].ports[q])
    {
      hide AllSettled, Lasting, Stuck, Rising;
      forall u | u in trees
        ensures AllSettled(K(u), u, comm, trees[u].ports, changing, NO_MARKS) && trees[u].prs == RoleSelection
        ensures forall q: LPort | q < |comm| && comm[q].present && comm[q].enabled && (u, q) in marks.stuck ::
          Stuck(trees[u].ports[q])
        ensures forall q: LPort | q < |comm| && comm[q].present ::
          && (comm[q].enabled && (u, q) !in marks.taking ==> Lasting(o[u][q], trees[u].ports[q]))
          && trees[u].ports[q].loopInconsistent == o[u][q].loopInconsistent
      {
        assert SettledTree(u);
        MarkedOff(K(u), u, comm, trees[u].ports, changing, marks);
      }
      marks := NO_MARKS;
    }

    /** A call of mstp_pimSm that the marks are set for. */
    method PimMarked(pkt: Packet, t: MstId, p: LPort)
      requires Calm() && t in trees && p < |comm| && comm[p].present && Accepts(pkt, t, p)
      requires if t == CIST then marks.stuck == {}
               else Bordered(t, trees[CIST].ports, comm, trees[t].ports, changing, marks)
      modifies this`received, trees.Values
      ensures Calm() && (pkt.NoPacket? ==> Agrees(comm[p], trees[t].ports[p]) && received == old(received))
      ensures t != CIST ==> forall u | u in trees && u != t :: trees[u].ports == old(trees[u].ports)
      ensures var receives := old(Receives(t == CIST, trees[CIST].ports[p], comm[p], trees[t].ports[p]));
        && (QuietPort(t, p) <==> !(receives && Overlooked(pkt, old(trees[t].ports[p]))))
        && (pkt.Packet? ==> received == old(received) + (if receives then 1 else 0))
        && (pkt.Packet? && receives ==>
              !trees[t].ports[p].rcvdMsg && Took(pkt, old(trees[t].ports[p]), trees[t].ports[p]))
      ensures old(Mildly(pkt, t, p)) ==> SameMstis()
      ensures old(QuietPort(t, p)) && received == old(received) ==> SamePorts()
      ensures trees[t].ports[p].rcvdMsg ==> old(trees[t].ports[p].rcvdMsg)
    {
      hide Receives, Took, Lasting, Stuck, Rising, Marked, Bordered, Lower, QuietKept, AgreementKept, Accepts, RcvInfo;
      assert SettledTree(t);
      PimSm(pkt, t, p);
      assert Linked(K(t), trees[t].ports[p]);
      forall u | u in trees
        ensures SettledTree(u)
      {
      }
    }

    lemma PortsShape()
      requires Shape()
      ensures Ports().Keys == trees.Keys && forall u | u in trees :: |Ports()[u]| == |comm|
    {
    }

    /** A call of mstp_pimSm between events. */
    method PimAtEvent(pkt: Packet, t: MstId, p: LPort)
      requires Calm() && marks == NO_MARKS && t in trees && p < |comm| && comm[p].present
      requires pkt.Packet? ==> changing == {} && K(t).Admits(pkt.vectors) && (t != CIST ==> comm[p].rcvdInternal)
      modifies this`received, this`marks, trees.Values
      ensures Calm() && marks == NO_MARKS
      ensures LastAll(comm, old(Ports()), Ports(), if pkt.Packet? then {(t, p)} else {})
      ensures NoneGuarded(comm, old(Ports()), Ports(), {})
      ensures (old(Heard({p})) ==> Heard({p})) && (pkt.NoPacket? && old(Heard({})) ==> Heard({}))
      ensures old(IsStuck(pkt, t, p)) ==> Stuck(trees[t].ports[p])
      ensures pkt.NoPacket? ==> Agrees(comm[p], trees[t].ports[p]) && received == old(received)
      ensures t != CIST ==> forall u | u in trees && u != t :: trees[u].ports == old(trees[u].ports)
      ensures var receives := old(Receives(t == CIST, trees[CIST].ports[p], comm[p], trees[t].ports[p]));
        && (QuietPort(t, p) <==> !(receives && Overlooked(pkt, old(trees[t].ports[p]))))
        && (pkt.Packet? ==> received == old(received) + (if receives then 1 else 0))
        && (pkt.Packet? && receives ==>
              !trees[t].ports[p].rcvdMsg && Took(pkt, old(trees[t].ports[p]), trees[t].ports[p]))
      ensures old(Mildly(pkt, t, p)) ==> SameMstis()
      ensures old(QuietPort(t, p)) && received == old(received) ==> SamePorts()
      ensures trees[t].ports[p].rcvdMsg ==> old(trees[t].ports[p].rcvdMsg)
    {
      hide Receives, Took, Lasting, Stuck, Rising, Marked, Bordered, Overlooked, SettledBut, AgreesBut, LastAll,
        NoneGuarded, HeardAll, Quiet, SettledTree, Agrees, Startable, Linked, Framed, Edge, Mildly, IsStuck, Ports;
      ghost var o := Ports();
      PortsShape();
      SetMarks(pkt, t, p);
      PimMarked(pkt, t, p);
      DropMarks(o);
      HeardLast(comm, o, Ports(), waiting, if pkt.Packet? then {(t, p)} else {}, p);
    }

    ghost predicate Suspected(t: MstId, q: LPort)
      reads this`comm, this`waiting, this`trees, trees.Values
    {
      Suspect(comm, Ports(), waiting, t, q)
    }

    /** One port of one tree is written. */
    method SetPort(t: MstId, p: LPort, tp: TreePort)
      requires Calm() && marks == NO_MARKS && t in trees && p < |comm| && comm[p].present
      requires Unseen(trees[t].ports[p], tp)
      modifies Slot(t)`ports
      ensures Calm() && trees[t].ports == old(trees[t].ports)[p := tp]
      ensures forall u | u in trees && u != t :: trees[u].ports == old(trees[u].ports)
      ensures Ports() == old(Ports())[t := old(Ports())[t][p := tp]]
      ensures old(Heard({p})) ==> Heard({p})
      ensures old(Heard({})) && tp.rcvdMsg == old(trees[t].ports[p].rcvdMsg) ==> Heard({})
    {
      hide Unseen, AllSettled, HeardAll;
      ghost var o := Ports();
      assert SettledTree(t);
      UnseenSettled(K(t), t, comm, trees[t].ports, changing, p, tp);
      trees[t].ports := trees[t].ports[p := tp];
      forall u | u in trees
        ensures SettledTree(u)
      {
        assert u != t ==> old(SettledTree(u));
      }
      assert Ports() == o[t := o[t][p := tp]];
      HeardOne(comm, o, waiting, t, p, tp);
    }

    ghost predicate BeginDoneAll(t: MstId)
      requires Shape() && t in trees
      reads this`comm, this`trees, trees.Values
    {
      BegunAll(comm, trees[t].ports)
    }

    /** PIM under BEGIN on one port, for the CIST and for every valid MSTI. */
    method BeginPims(p: LPort)
      requires Shape() && begin && p < |comm| && comm[p].present && !comm[p].enabled
      modifies this`received, trees.Values
      ensures Shape() && received == old(received)
      ensures forall t | t in trees :: trees[t].prs == old(trees[t].prs)
      ensures forall t | t in trees :: trees[t].ports == old(trees[t].ports)[p := BeginPort(old(trees[t].ports[p]))]
    {
      hide BeginSelected, StartableAll, LinkedBut, AllSettled, Overlooked, Receives, OnTheWay, Lower, Took, Mildly,
        Quiet, Ready, SamePorts, SameMstis;
      for t := 0 to maxMsti + 1
        invariant Shape() && received == old(received)
        invariant forall u | u in trees :: trees[u].prs == old(trees[u].prs)
        invariant forall u | u in trees :: trees[u].ports ==
                    if u < t then old(trees[u].ports)[p := BeginPort(old(trees[u].ports[p]))] else old(trees[u].ports)
      {
        if t in trees {
          PimSm(NoPacket, t, p);
        }
      }
    }

    /** The port loop of mstp_initStateMachines. */
    method BeginPorts()
      requires Shape() && begin
      requires forall t | t in trees :: trees[t].prs == PrsUnknown
      requires forall p | 0 <= p < |comm| && comm[p].present :: !comm[p].enabled
      requires forall t, p | t in trees && 0 <= p < |comm| && comm[p].present ::
                 trees[t].ports[p].pim.PimUnknown? && !trees[t].ports[p].loopInconsistent
      modifies this`received, trees.Values
      ensures Shape() && received == old(received)
      ensures forall t | t in trees :: trees[t].prs == PrsUnknown && BeginDoneAll(t)
    {
      for p := 1 to |comm|
        invariant Shape() && received == old(received)
        invariant forall t | t in trees :: trees[t].prs == PrsUnknown
        invariant forall t, q | t in trees && 0 <= q < |comm| && comm[q].present ::
                    if q < p then BeginDone(trees[t].ports[q])
                    else trees[t].ports[q].pim.PimUnknown? && !trees[t].ports[q].loopInconsistent
      {
        if comm[p].present {
          BeginPims(p);
        }
      }
    }

    /** PRS under BEGIN on one tree. */
    method BeginPrs(t: MstId)
      requires AtBegin(t) && BeginDoneAll(t) && trees[t].prs == PrsUnknown && changing == {} && marks == NO_MARKS
      modifies Footprint(t), this`received
      ensures AtBegin(t) && SettledTree(t) && SelectedAll(comm, trees[t].ports) && received == old(received)
      ensures BeginDoneAll(t)
      ensures forall u | u in trees && u != t ::
                trees[u].prs == old(trees[u].prs) && trees[u].ports == old(trees[u].ports)
    {
      ghost var o := trees[t].ports;
      PrsSm(t);
      forall q | 0 <= q < |comm| && comm[q].present
        ensures var n := trees[t].ports[q]; Settled(K(t), n) && n.selected && !n.reselect && BeginDone(n)
      {
        assert BeginDone(o[q]);
      }
    }

    /** mstp_initStateMachines, as far as PIM and PRS go: it brings a bridge whose state
        machines are all unset, and whose ports are all down, to its first event. */
    method InitStateMachines()
      requires Unset()
      modifies this`begin, this`received, trees.Values
      ensures AtEvent() && received == old(received) && waiting == {}
      ensures forall t | t in trees :: SelectedAll(comm, trees[t].ports)
      ensures forall t, q: LPort :: !Suspected(t, q)
    {
      hide SettledTree, SelectedAll, HeardAll, Suspect, BeginDoneAll, Ports;
      begin := true;
      BeginPorts();
      BeginTrees();
      begin := false;
      AllDown();
    }

    lemma AllDown()
      requires Shape() && (forall t | t in trees :: BeginDoneAll(t)) && waiting == {}
      requires forall q | 0 <= q < |comm| && comm[q].present :: !comm[q].enabled
      ensures Heard({}) && forall t, q: LPort :: !Suspected(t, q)
    {
      NothingHeard(comm, Ports());
    }

    /** The tree loop of mstp_initStateMachines. */
    method BeginTrees()
      requires Shape() && begin && changing == {} && marks == NO_MARKS
      requires forall p | 0 <= p < |comm| && comm[p].present :: !comm[p].enabled
      requires forall u | u in trees :: trees[u].prs == PrsUnknown && BeginDoneAll(u)
      modifies this`received, trees.Values
      ensures Shape() && received == old(received)
      ensures forall u | u in trees :: SettledTree(u) && SelectedAll(comm, trees[u].ports) && BeginDoneAll(u)
    {
      hide AllSettled, SelectedAll, BegunAll, Bordered, Quiet, LinkedBut, Startable;
      for t := 0 to maxMsti + 1
        invariant Shape() && begin && received == old(received)
        invariant forall u | u in trees && u >= t :: trees[u].prs == PrsUnknown
        invariant forall u | u in trees :: BeginDoneAll(u)
        invariant forall u | u in trees && u < t :: SettledTree(u) && SelectedAll(comm, trees[u].ports)
      {
        if t in trees {
          BeginPrs(t);
        }
      }
    }

    /** mstp_addLport: a new port, down, goes through BEGIN alone. */
    method AddLport(p: LPort, tp: TreePort)
      requires AtEvent() && 0 < p < |comm| && !comm[p].present
      requires tp.pim.PimUnknown? && !tp.updtInfo
      modifies this`begin, this`comm, this`received, trees.Values
      ensures AtEvent() && received == old(received)
      ensures comm == old(comm)[p := CommPort(true, false, false, false)]
      ensures forall t | t in trees :: trees[t].ports == old(trees[t].ports)[p := BeginPort(tp)]
      ensures forall t, q: LPort | Suspected(t, q) :: old(Suspected(t, q)) || (q == p && tp.loopInconsistent)
    {
      hide AllSettled;
      BeginLport(p, tp);
      forall t | t in trees
        ensures SettledTree(t)
      {
        assert old(SettledTree(t));
        BegunPort(K(t), t, old(comm), old(trees[t].ports), p, tp);
      }
    }

    /** The new port gets its data and goes through BEGIN. */
    method BeginLport(p: LPort, tp: TreePort)
      requires Shape() && !begin && 0 < p < |comm|
      modifies this`begin, this`comm, this`received, trees.Values
      ensures Shape() && !begin && received == old(received)
      ensures comm == old(comm)[p := CommPort(true, false, false, false)]
      ensures forall t | t in trees :: trees[t].prs == old(trees[t].prs)
      ensures forall t | t in trees :: trees[t].ports == old(trees[t].ports)[p := BeginPort(tp)]
    {
      comm := comm[p := CommPort(true, false, false, false)];
      AddPorts(p, tp);
      begin := true;
      BeginPims(p);
      begin := false;
      forall t | t in trees
        ensures trees[t].ports == old(trees[t].ports)[p := BeginPort(tp)]
      {
      }
    }

    /** Every tree gets its data of the new port. */
    method AddPorts(p: LPort, tp: TreePort)
      requires Shape() && p < |comm|
      modifies trees.Values
      ensures Shape()
      ensures forall t | t in trees :: trees[t].prs == old(trees[t].prs)
      ensures forall t | t in trees :: trees[t].ports == old(trees[t].ports)[p := tp]
    {
      for t := 0 to maxMsti + 1
        invariant Shape()
        invariant forall u | u in trees :: trees[u].prs == old(trees[u].prs)
        invariant forall u | u in trees :: trees[u].ports ==
                    if u < t then old(trees[u].ports)[p := tp] else old(trees[u].ports)
      {
        if t in trees {
          trees[t].ports := trees[t].ports[p := tp];
        }
      }
    }

    /** The PIM calls of mstp_portEnable and mstp_portDisable. */
    method KickTrees(p: LPort)
      requires Calm() && marks == NO_MARKS && p < |comm| && comm[p].present && changing == {p}
      modifies this`received, this`changing, this`marks, trees.Values
      ensures Calm() && marks == NO_MARKS && changing == {} && received == old(received)
      ensures LastAll(comm, old(Ports()), Ports(), {}) && NoneGuarded(comm, old(Ports()), Ports(), {})
      ensures old(Heard({})) ==> Heard({})
      ensures comm[p].enabled ==> forall t | t in trees :: trees[t].ports[p].pim.Current?
    {
      hide AllSettled, QuietPort, Receives, Overlooked, Lower, Agrees, Took, Lasting, Stuck, Rising, IsStuck, LastAll,
        NoneGuarded, HeardAll, Mildly, Bordered, PlacedAll, Ports, Heard;
      ghost var o := Ports();
      PimAtEvent(NoPacket, CIST, p);
      for m := 1 to maxMsti + 1
        invariant Calm() && changing == {p} && marks == NO_MARKS && received == old(received)
        invariant forall t | t in trees && t < m :: Agrees(comm[p], trees[t].ports[p])
        invariant LastAll(comm, o, Ports(), {}) && NoneGuarded(comm, o, Ports(), {}) && (old(Heard({})) ==> Heard({}))
      {
        if m in trees {
          ghost var n := Ports();
          PimAtEvent(NoPacket, m, p);
          LastTrans(comm, o, n, Ports(), {}, {}, {});
          GuardTrans(comm, o, n, Ports(), {}, {}, {});
        }
      }
      changing := {};
      forall t | t in trees
        ensures SettledTree(t) && (comm[p].enabled ==> trees[t].ports[p].pim.Current?)
      {
        AgreedAll(K(t), t, comm, trees[t].ports, p);
      }
    }

    /** mstp_portEnable and mstp_portDisable: afterwards the port takes part in every tree
        exactly when it is enabled. Disabling drops the messages of the port. */
    method SetPortEnabled(p: LPort, enabled: bool, discard: bool)
      requires AtEvent() && p < |comm| && comm[p].present
      modifies this`comm, this`received, this`changing, this`waiting, this`marks, trees.Values
      ensures AtEvent() && received == old(received)
      ensures var was := old(comm[p]);
        var receiving := was.receiving && (enabled == was.enabled || !discard);
        comm == old(comm)[p := was.(enabled := enabled, receiving := receiving)]
      ensures waiting == set w | w in old(waiting) && (enabled || w.1 != p)
      ensures enabled && !old(comm[p].enabled) ==> forall t | t in trees :: trees[t].ports[p].pim.Current?
      ensures forall t, q: LPort | Suspected(t, q) :: old(Suspected(t, q))
    {
      hide SettledBut, AgreesBut, Marked, LastAll, NoneGuarded, Lasting, HeardAll, Suspect, SettledTree, RunOut;
      if comm[p].enabled != enabled {
        ghost var c, o, w := comm, Ports(), waiting;
        SwitchPort(p, enabled, discard);
        KickTrees(p);
        assert comm == c[p := comm[p]];
        SuspectsSwitched(c, o, w, Ports(), waiting, p, comm[p]);
      }
    }

    /** 'portEnabled' changes, and no tree has seen it. */
    method SwitchPort(p: LPort, enabled: bool, discard: bool)
      requires AtEvent() && p < |comm| && comm[p].present && comm[p].enabled != enabled
      modifies this`comm, this`changing, this`waiting
      ensures Calm() && marks == NO_MARKS && changing == {p} && WaitingOk() && Heard({})
      ensures var was := old(comm[p]);
        comm == old(comm)[p := was.(enabled := enabled, receiving := was.receiving && !discard)]
      ensures waiting == set w | w in old(waiting) && (enabled || w.1 != p)
      ensures forall t | t in trees :: enabled ==> !RunOut(trees[t].ports[p])
    {
      hide AllSettled, HeardAll, RunOut;
      ghost var c, w := comm, waiting;
      comm := comm[p := comm[p].(enabled := enabled, receiving := comm[p].receiving && !discard)];
      changing := {p};
      waiting := set w | w in waiting && (enabled || w.1 != p);
      forall t | t in trees
        ensures SettledTree(t) && (enabled ==> !trees[t].ports[p].rcvdMsg && !RunOut(trees[t].ports[p]))
      {
        assert old(SettledTree(t));
        ChangedPort(K(t), t, c, trees[t].ports, p, comm[p]);
      }
      HeardChanged(c, Ports(), w, p, comm[p]);
    }

    /** mstp_removeLport. */
    method RemoveLport(p: LPort)
      requires AtEvent() && 0 < p < |comm| && comm[p].present
      modifies this`comm, this`received, this`changing, this`waiting, this`marks, trees.Values
      ensures AtEvent() && received == old(received)
      ensures |comm| == old(|comm|) && !comm[p].present
      ensures forall q | 0 <= q < |comm| && q != p :: comm[q] == old(comm[q])
      ensures waiting == set w | w in old(waiting) && w.1 != p
      ensures forall t, q: LPort | Suspected(t, q) :: old(Suspected(t, q))
    {
      hide AllSettled, RunOut, Suspect, HeardAll;
      SetPortEnabled(p, false, true);
      ghost var c := comm;
      assert forall t | t in trees :: SettledTree(t);
      HeardRemoved(comm, Ports(), waiting, p, comm[p].(present := false));
      comm := comm[p := comm[p].(present := false)];
      forall t | t in trees
        ensures SettledTree(t)
      {
        RemovedPort(K(t), t, c, trees[t].ports, p, comm[p]);
      }
    }

    /** The ageing part of one second for one port of one tree (mstp_ptiSmTickAct): PIM is
        kicked when the timer runs out, unless loop guard holds the port inconsistent and it is
        no root port. An MSTI port that is deserted then rests in AGED. */
    method Tick(t: MstId, p: LPort, guarded: bool, isRoot: bool)
      requires AtEvent() && t in trees && p < |comm| && comm[p].present
      modifies this`received, this`marks, trees.Values
      ensures AtEvent() && received == old(received)
      ensures LastAll(comm, old(Ports()), Ports(), {(t, p)})
      ensures NoneGuarded(comm, old(Ports()), Ports(), if guarded then {(t, p)} else {})
      ensures !old(Kicks(trees[t].ports[p], guarded, isRoot)) ==>
        trees[t].ports == old(trees[t].ports)[p := SecondOn(old(trees[t].ports[p]), guarded)]
      ensures old(Kicks(trees[t].ports[p], guarded, isRoot)) ==>
        && QuietPort(t, p)
        && (t != CIST && old(Deserted(trees[CIST].ports[p], comm[p], trees[t].ports[p])) ==>
              trees[t].ports[p].pim.Aged?)
    {
      hide Calm, Quiet, Lasting, LastAll, NoneGuarded, HeardAll, Edge, WaitingOk;
      ShapeAtEvent();
      ghost var o := Ports();
      LastSelf(comm, o, {(t, p)}, if guarded then {(t, p)} else {});
      SamePut(o, t, p);
      if trees[t].ports[p].rcvdInfoWhile != 0 {
        TickDown(t, p);
        GuardTrans(comm, o, o, Ports(), {}, {}, if guarded then {(t, p)} else {});
        if trees[t].ports[p].rcvdInfoWhile == 0 {
          Expire(t, p, guarded, isRoot, o);
        }
      }
    }

    /** The timer goes down. */
    method TickDown(t: MstId, p: LPort)
      requires AtEvent() && t in trees && p < |comm| && comm[p].present && trees[t].ports[p].rcvdInfoWhile != 0
      modifies trees.Values
      ensures AtEvent()
      ensures trees[t].ports ==
        old(trees[t].ports)[p := old(trees[t].ports[p]).(rcvdInfoWhile := old(trees[t].ports[p]).rcvdInfoWhile - 1)]
      ensures forall u | u in trees && u != t :: trees[u].ports == old(trees[u].ports)
      ensures LastAll(comm, old(Ports()), Ports(), {(t, p)}) && NoneGuarded(comm, old(Ports()), Ports(), {})
    {
      hide Calm, Lasting, LastAll, NoneGuarded, HeardAll, WaitingOk;
      ShapeAtEvent();
      LastOne(comm, Ports(), t, p, trees[t].ports[p].(rcvdInfoWhile := trees[t].ports[p].rcvdInfoWhile - 1));
      SetPort(t, p, trees[t].ports[p].(rcvdInfoWhile := trees[t].ports[p].rcvdInfoWhile - 1));
    }

    lemma ShapeAtEvent()
      requires AtEvent()
      ensures Shape() && !begin
    {
    }

    /** One second for one port of one tree: only loop guard brings a port under suspicion. */
    method OneSecond(t: MstId, p: LPort, guarded: bool, isRoot: bool)
      requires AtEvent() && t in trees && p < |comm| && comm[p].present
      modifies this`received, this`marks, trees.Values
      ensures AtEvent() && received == old(received)
      ensures forall u, q: LPort | Suspected(u, q) :: old(Suspected(u, q)) || (guarded && u == t && q == p)
    {
      hide Calm, Quiet, Lasting, LastAll, NoneGuarded, HeardAll, Suspect, Deserted;
      ShapeAtEvent();
      ghost var o := Ports();
      Tick(t, p, guarded, isRoot);
      ShapeAtEvent();
      assert o.Keys == trees.Keys;
      if QuietPort(t, p) && comm[p].enabled {
        QuietOut(t, p);
      }
      forall u, q: LPort | Suspected(u, q)
        ensures Suspect(comm, o, waiting, u, q) || (guarded && u == t && q == p)
      {
        SuspectFacts(comm, Ports(), waiting, u, q);
        if u != t || q != p {
          SuspectKept(comm, o, waiting, comm, Ports(), waiting, {(t, p)}, if guarded then {(t, p)} else {}, u, q);
        } else if !guarded {
          SuspectOne(comm, o, Ports(), waiting, t, p);
        }
      }
    }

    /** A quiet port has no time that has run out, unless a message is up. */
    lemma QuietOut(t: MstId, p: LPort)
      requires AtEvent() && t in trees && p < |comm| && comm[p].present && comm[p].enabled && QuietPort(t, p)
      ensures RunOut(trees[t].ports[p]) ==> (t, p) in waiting
    {
      assert SettledTree(t) && Settled(K(t), trees[t].ports[p]) && Agrees(comm[p], trees[t].ports[p]);
      assert trees[t].ports[p].rcvdMsg <==> (t, p) in waiting by {
        assert Ports()[t] == trees[t].ports;
      }
    }

    /** An enabled port without suspicion and message is quiet. */
    lemma Unsuspected(t: MstId, p: LPort)
      requires AtEvent() && t in trees && p < |comm| && comm[p].present && comm[p].enabled
      requires !Suspected(t, p) && (t, p) !in waiting
      ensures QuietPort(t, p)
    {
      assert SettledTree(t) && Settled(K(t), trees[t].ports[p]) && Agrees(comm[p], trees[t].ports[p]);
    }

    /** The time of the port has run out. */
    method Expire(t: MstId, p: LPort, guarded: bool, isRoot: bool, ghost o: AllPorts)
      requires AtEvent() && t in trees && p < |comm| && comm[p].present && trees[t].ports[p].rcvdInfoWhile == 0
      requires t in o && p < |o[t]| && trees[t].ports == o[t][p := trees[t].ports[p]]
      requires LastAll(comm, o, Ports(), {(t, p)}) && NoneGuarded(comm, o, Ports(), {})
      modifies this`received, this`marks, trees.Values
      ensures AtEvent() && received == old(received)
      ensures LastAll(comm, o, Ports(), {(t, p)})
      ensures NoneGuarded(comm, o, Ports(), if guarded then {(t, p)} else {})
      ensures var was := old(trees[t].ports[p]);
        if (guarded || was.loopInconsistent) && !isRoot then
          trees[t].ports == o[t][p := was.(loopInconsistent := true)]
        else
          && QuietPort(t, p)
          && (t != CIST && Deserted(old(trees[CIST].ports[p]), comm[p], was) ==> trees[t].ports[p].pim.Aged?)
    {
      hide Calm, Quiet, LastAll, NoneGuarded, HeardAll, Edge, Lasting;
      ShapeAtEvent();
      ghost var g: Spots := if guarded then {(t, p)} else {};
      GuardTrans(comm, o, Ports(), Ports(), {}, {}, g) by {
        LastSelf(comm, Ports(), {}, {});
      }
      if guarded {
        SetGuard(t, p);
        LastTrans(comm, o, old(Ports()), Ports(), {(t, p)}, {(t, p)}, {(t, p)});
        GuardTrans(comm, o, old(Ports()), Ports(), {}, g, g);
      }
      if !trees[t].ports[p].loopInconsistent || isRoot {
        ghost var m := Ports();
        PimTimeout(t, p);
        LastTrans(comm, o, m, Ports(), {(t, p)}, {}, {(t, p)});
        GuardTrans(comm, o, m, Ports(), g, {}, g);
      }
    }

    /** Loop guard takes hold of the port. */
    method SetGuard(t: MstId, p: LPort)
      requires AtEvent() && t in trees && p < |comm| && comm[p].present
      modifies trees.Values
      ensures AtEvent()
      ensures trees[t].ports == old(trees[t].ports)[p := old(trees[t].ports[p]).(loopInconsistent := true)]
      ensures forall u | u in trees && u != t :: trees[u].ports == old(trees[u].ports)
      ensures LastAll(comm, old(Ports()), Ports(), {(t, p)}) && NoneGuarded(comm, old(Ports()), Ports(), {(t, p)})
    {
      hide Calm, Lasting, LastAll, NoneGuarded, HeardAll, WaitingOk;
      ShapeAtEvent();
      LastOne(comm, Ports(), t, p, trees[t].ports[p].(loopInconsistent := true));
      SetPort(t, p, trees[t].ports[p].(loopInconsistent := true));
    }

    /** PIM is kicked after the time of the port has run out. */
    method PimTimeout(t: MstId, p: LPort)
      requires AtEvent() && t in trees && p < |comm| && comm[p].present && trees[t].ports[p].rcvdInfoWhile == 0
      modifies this`received, this`marks, trees.Values
      ensures AtEvent() && received == old(received) && QuietPort(t, p)
      ensures LastAll(comm, old(Ports()), Ports(), {}) && NoneGuarded(comm, old(Ports()), Ports(), {})
      ensures t != CIST && old(Deserted(trees[CIST].ports[p], comm[p], trees[t].ports[p])) ==>
        trees[t].ports[p].pim.Aged?
    {
      hide Calm, Quiet, Receives, Took, Lasting, LastAll, NoneGuarded, HeardAll, RunOut, Stuck, Mildly, Deserted,
        IsStuck, Edge;
      ShapeAtEvent();
      ghost var deserted := t != CIST && Deserted(trees[CIST].ports[p], comm[p], trees[t].ports[p]);
      if deserted {
        DesertedStuck(t, p);
      }
      PimAtEvent(NoPacket, t, p);
      ShapeAtEvent();
      if deserted {
        StuckAged(t, p);
      }
    }

    /** Deserted information that has run out is stuck, and a quiet port with it has aged. */
    lemma DesertedStuck(t: MstId, p: LPort)
      requires AtEvent() && t in trees && t != CIST && p < |comm| && comm[p].present
      requires Deserted(trees[CIST].ports[p], comm[p], trees[t].ports[p]) && trees[t].ports[p].rcvdInfoWhile == 0
      ensures IsStuck(NoPacket, t, p) && comm[p].enabled && !trees[t].ports[p].rcvdMsg
    {
      assert SettledTree(t) && Settled(K(t), trees[t].ports[p]);
    }

    lemma StuckAged(t: MstId, p: LPort)
      requires Calm() && t in trees && t != CIST && p < |comm| && comm[p].present && comm[p].enabled
      requires Stuck(trees[t].ports[p]) && QuietPort(t, p) && !trees[t].ports[p].rcvdMsg
      ensures trees[t].ports[p].pim.Aged?
    {
      assert SettledTree(t) && Settled(K(t), trees[t].ports[p]);
    }

    /** mstp_rcvdAnyMsgCondition. */
    method RcvdAnyMsg(p: LPort) returns (res: bool)
      requires AtEvent() && p < |comm| && comm[p].present && comm[p].enabled
      ensures res == Deaf(p)
    {
      hide Calm, HeardAll;
      ShapeAtEvent();
      forall t | t in trees
        ensures trees[t].ports[p].rcvdMsg <==> (t, p) in waiting
      {
        HeardAt(t, p, {});
      }
      res := trees[CIST].ports[p].rcvdMsg;
      if res {
        return;
      }
      for m := 1 to maxMsti + 1
        invariant forall t | t in trees && t < m :: !trees[t].ports[p].rcvdMsg
      {
        if m in trees && trees[m].ports[p].rcvdMsg {
          return true;
        }
      }
      assert forall t | t in trees :: !trees[t].ports[p].rcvdMsg;
      return false;
    }

    lemma HeardAt(t: MstId, p: LPort, but: set<LPort>)
      requires Shape() && Heard(but) && t in trees && p < |comm| && comm[p].present && comm[p].enabled && p !in but
      ensures trees[t].ports[p].rcvdMsg <==> (t, p) in waiting
    {
      assert Ports()[t] == trees[t].ports;
    }

    /** If no port hears itself, no vector of the BPDU is its own. */
    ghost predicate Promised(cist: Message, msgs: seq<Message>) {
      foreign ==> cist.vectors.Foreign? && forall i | 0 <= i < |msgs| :: msgs[i].vectors.Foreign?
    }

    /** Port Receive with a BPDU on an enabled port: it is accepted exactly if no message is up
        on the port. Otherwise nothing happens to the trees. */
    method PrxBpdu(p: LPort, internal: bool, cist: Message, msgs: seq<Message>)
      requires AtEvent() && p < |comm| && comm[p].present && comm[p].enabled && Promised(cist, msgs)
      modifies this`comm, this`received, this`waiting, this`taken, this`marks, trees.Values
      ensures AtEvent() && |comm| == old(|comm|) && old(waiting) <= waiting
      ensures forall q | 0 <= q < |comm| && q != p :: comm[q] == old(comm[q])
      ensures taken == old(taken) + if old(Deaf(p)) then [] else [p]
      ensures old(Deaf(p)) ==> SamePorts() && comm == old(comm) && received == old(received)
      ensures !old(Deaf(p)) ==> received > old(received) && comm[p].receiving
      ensures forall t, q: LPort | Suspected(t, q) :: old(Suspected(t, q))
    {
      hide Calm, HeardAll, Suspect, WaitingOk;
      if Deaf(p) {
        DeafReceives(p);
      }
      var any := RcvdAnyMsg(p);
      if !comm[p].receiving || !any {
        AcceptBpdu(p, internal, cist, msgs);
      }
    }

    lemma DeafReceives(p: LPort)
      requires AtEvent() && p < |comm| && Deaf(p)
      ensures comm[p].receiving
    {
    }

    /** The BPDU is accepted, and brings no port under suspicion. */
    method AcceptBpdu(p: LPort, internal: bool, cist: Message, msgs: seq<Message>)
      requires AtEvent() && Listens(p) && Promised(cist, msgs)
      modifies this`comm, this`received, this`waiting, this`taken, this`marks, trees.Values
      ensures AtEvent() && old(waiting) <= waiting && taken == old(taken) + [p]
      ensures comm == old(comm)[p := old(comm[p]).(rcvdInternal := internal, receiving := true)]
      ensures received > old(received)
      ensures forall t, q: LPort | Suspected(t, q) :: old(Suspected(t, q))
    {
      hide Calm, Overlooked, HeardAll, LastAll, NoneGuarded, Suspect, Recorded, Named, Ids, Sole, RcvInfo, Quiet,
        RunOut, WaitingOk;
      ShapeAtEvent();
      ghost var o, c, w, b := Ports(), comm, waiting, {(CIST, p)} + Named(internal, msgs, p);
      ReceiveBpdu(p, internal, cist, msgs);
      ShapeAtEvent();
      NamedFacts(internal, msgs, p);
      SuspectsAfter(c, o, w, comm, Ports(), waiting, b, p);
    }

    /** The part of mstp_prxSmReceiveAct that concerns PIM: 'rcvdMsg' goes up for the CIST
        and, within the region, for the MSTIs the BPDU carries; then PIM gets the packet, the
        CIST first, which takes it into RECEIVE exactly once. The CIST port is quiet afterwards
        unless its time had run out and the message did not restart it. The message of an MSTI
        stays up only on an AGED port; inside the region, and if the CIST dismisses its own, it
        does so exactly on the ports that were AGED before. */
    method ReceiveBpdu(p: LPort, internal: bool, cist: Message, msgs: seq<Message>)
      requires AtEvent() && Listens(p) && Promised(cist, msgs)
      modifies this`comm, this`received, this`waiting, this`taken, this`marks, trees.Values
      ensures AtEvent() && comm == old(comm)[p := old(comm[p]).(rcvdInternal := internal, receiving := true)]
      ensures old(received) + 1 <= received <= old(received) + 1 + (if internal then |msgs| else 0)
      ensures taken == old(taken) + [p]
      ensures LastAll(comm, old(Ports()), Ports(), {(CIST, p)} + Named(internal, msgs, p))
      ensures NoneGuarded(comm, old(Ports()), Ports(), {})
      ensures forall u | u in trees && RunOut(trees[u].ports[p]) :: (u, p) in waiting || old(RunOut(trees[u].ports[p]))
      ensures var was, pkt := old(trees[CIST].ports[p]), PacketOf(true, cist);
        && (QuietPort(CIST, p) <==> !Overlooked(pkt, was))
        && Recorded(pkt, RcvInfo(pkt, was), trees[CIST].ports[p])
        && (internal && Dismisses(RcvInfo(pkt, was)) ==>
              forall m | m in Ids(msgs) && m in trees && m != CIST ::
                trees[m].ports[p].rcvdMsg <==> old(trees[m].ports[p].pim.Aged?))
      ensures waiting == old(waiting) + LeftUp(p) && !trees[CIST].ports[p].rcvdMsg
      ensures forall m | m in trees && m != CIST && trees[m].ports[p].rcvdMsg ::
                && internal && m in Ids(msgs) && trees[m].ports[p].pim.Aged?
                && old(trees[m].ports[p].pim.Aged? || RunOut(trees[m].ports[p]))
      ensures internal ==> forall i | 0 <= i < |msgs| && Sole(msgs, i) && msgs[i].mstid in trees
                && msgs[i].mstid != CIST ::
                trees[msgs[i].mstid].ports[p].rcvdMsg
                || Recorded(PacketOf(false, msgs[i]), msgs[i].verdict, trees[msgs[i].mstid].ports[p])
    {
      hide Calm, HeardAll, LastAll, NoneGuarded, Suspect, Recorded, Quiet, RcvInfo, Named, RunOut, WaitingOk,
        Dismisses, Sole, Ids, Overlooked;
      ShapeAtEvent();
      ReceiveMessages(p, internal, cist, msgs);
      EndBpdu(p);
      ShapeAtEvent();
      CistOut(p, PacketOf(true, cist), old(trees[CIST].ports[p]));
    }

    /** The time of a CIST port that has dealt with its packet has run out only if it had before. */
    lemma CistOut(p: LPort, pkt: Packet, was: TreePort)
      requires AtEvent() && p < |comm| && comm[p].present && comm[p].enabled
      requires QuietPort(CIST, p) <==> !Overlooked(pkt, was)
      ensures RunOut(trees[CIST].ports[p]) ==> (CIST, p) in waiting || RunOut(was)
    {
      hide Calm, HeardAll, Quiet;
      ShapeAtEvent();
      if QuietPort(CIST, p) {
        QuietOut(CIST, p);
      }
    }

    /** The messages that an accepted BPDU leaves up on its port. */
    ghost function LeftUp(p: LPort): Spots
      requires Shape() && p < |comm|
      reads this`comm, this`trees, trees.Values
    {
      set t | t in trees && trees[t].ports[p].rcvdMsg :: (t, p)
    }

    /** What a BPDU makes of the ports; the messages that stay up are not in `waiting` yet. */
    method ReceiveMessages(p: LPort, internal: bool, cist: Message, msgs: seq<Message>)
      requires AtEvent() && Listens(p) && Promised(cist, msgs)
      modifies this`comm, this`received, this`marks, trees.Values
      ensures Calm() && changing == {} && marks == NO_MARKS && WaitingOk() && Heard({p})
      ensures comm == old(comm)[p := old(comm[p]).(rcvdInternal := internal, receiving := true)]
      ensures old(received) + 1 <= received <= old(received) + 1 + (if internal then |msgs| else 0)
      ensures LastAll(comm, old(Ports()), Ports(), {(CIST, p)} + Named(internal, msgs, p))
      ensures NoneGuarded(comm, old(Ports()), Ports(), {})
      ensures var was, pkt := old(trees[CIST].ports[p]), PacketOf(true, cist);
        && !trees[CIST].ports[p].rcvdMsg && (QuietPort(CIST, p) <==> !Overlooked(pkt, was))
        && Recorded(pkt, RcvInfo(pkt, was), trees[CIST].ports[p])
        && (internal && Dismisses(RcvInfo(pkt, was)) ==>
              forall m | m in Ids(msgs) && m in trees && m != CIST ::
                trees[m].ports[p].rcvdMsg <==> old(trees[m].ports[p].pim.Aged?))
      ensures forall m | m in trees && m != CIST ::
                Handled(internal && m in Ids(msgs), old(trees[m].ports[p]), trees[m].ports[p])
      ensures internal ==> forall i | 0 <= i < |msgs| && Sole(msgs, i) && msgs[i].mstid in trees
                && msgs[i].mstid != CIST ::
                trees[msgs[i].mstid].ports[p].rcvdMsg
                || Recorded(PacketOf(false, msgs[i]), msgs[i].verdict, trees[msgs[i].mstid].ports[p])
    {
      hide Calm, Overlooked, HeardAll, LastAll, NoneGuarded, Recorded, Quiet, RcvInfo, Named, Answered, Handled,
        Lasting, WaitingOk, Dismisses, RunOut;
      ShapeAtEvent();
      ghost var o: AllPorts, b := Ports(), {(CIST, p)} + Named(internal, msgs, p);
      forall u | u in trees && u != CIST
        ensures !o[u][p].infoIs.InfoDisabled? && (o[u][p].infoIs.InfoAged? ==> o[u][p].pim.Aged?)
      {
        AtRestMsti(u, p);
      }
      ReceiveCist(p, internal, cist, msgs);
      ShapeCalm();
      ghost var m: AllPorts := Ports();
      forall u | u in trees && u != CIST
        ensures m[u][p].pim.Aged? ==> m[u][p].infoIs.InfoAged?
        ensures !o[u][p].rcvdMsg && Lasting(o[u][p].(rcvdMsg := internal && u in Ids(msgs)), m[u][p])
        ensures internal && Dismisses(RcvInfo(PacketOf(true, cist), o[CIST][p])) ==> m[u][p].pim == o[u][p].pim
      {
        AtRestMsti(u, p);
      }
      if internal {
        PimMstis(p, msgs);
        LastTrans(comm, o, m, Ports(), b, Named(internal, msgs, p), b);
        GuardTrans(comm, o, m, Ports(), {}, {}, {});
        ShapeCalm();
      }
      forall u | u in trees && u != CIST
        ensures Handled(internal && u in Ids(msgs), o[u][p], trees[u].ports[p])
        ensures m[u][p].rcvdMsg == (internal && u in Ids(msgs))
        ensures internal && u in Ids(msgs) && m[u][p].pim == o[u][p].pim ==>
          (trees[u].ports[p].rcvdMsg <==> o[u][p].pim.Aged?)
      {
        HandledThrough(internal && u in Ids(msgs), o[u][p], m[u][p], trees[u].ports[p]);
      }
    }

    /** The messages go up, and the CIST deals with its own. */
    method ReceiveCist(p: LPort, internal: bool, cist: Message, msgs: seq<Message>)
      requires AtEvent() && Listens(p) && Promised(cist, msgs)
      modifies this`comm, this`received, this`marks, trees.Values
      ensures Calm() && changing == {} && marks == NO_MARKS && WaitingOk() && Heard({p})
      ensures comm == old(comm)[p := old(comm[p]).(rcvdInternal := internal, receiving := true)]
      ensures received == old(received) + 1
      ensures LastAll(comm, old(Ports()), Ports(), {(CIST, p)} + Named(internal, msgs, p))
      ensures NoneGuarded(comm, old(Ports()), Ports(), {})
      ensures var was, pkt := old(trees[CIST].ports[p]), PacketOf(true, cist);
        && !trees[CIST].ports[p].rcvdMsg && (QuietPort(CIST, p) <==> !Overlooked(pkt, was))
        && Recorded(pkt, RcvInfo(pkt, was), trees[CIST].ports[p])
        && (internal && Dismisses(RcvInfo(pkt, was)) ==> SameStates(old(Ports()), Ports(), p))
      ensures MstisHeard(comm, old(Ports()), Ports(), p, internal, msgs)
    {
      hide Calm, Overlooked, HeardAll, LastAll, NoneGuarded, Recorded, Quiet, RcvInfo, Named, Lasting, WaitingOk,
        Dismisses, Raised, RaisedAll, Ids, MstisHeard, SameStates, Ports;
      ShapeAtEvent();
      NoneHeard(p);
      ghost var o, b := Ports(), {(CIST, p)} + Named(internal, msgs, p);
      PortsAt(CIST);
      RaisedSame(trees[CIST].ports[p], cist, PacketOf(true, cist));
      RaiseRcvdMsgs(p, internal, cist, msgs);
      ShapeCalm();
      PortsAt(CIST);
      ghost var m := Ports();
      RaisedAt(comm, o, m, p, cist, internal, msgs);
      LastRaised(comm, o, m, p, cist, internal, msgs);
      PimCist(p, PacketOf(true, cist));
      LastTrans(comm, o, m, Ports(), b, {(CIST, p)}, b);
      GuardTrans(comm, o, m, Ports(), {}, {}, {});
      MstisRaised(comm, o, m, Ports(), p, cist, internal, msgs);
    }

    lemma PortsAt(t: MstId)
      requires Shape() && t in trees
      ensures t in Ports() && Ports()[t] == trees[t].ports
    {
    }

    /** No message is up on a port that listens. */
    lemma NoneHeard(p: LPort)
      requires AtEvent() && Listens(p)
      ensures forall t | t in Ports() && p < |Ports()[t]| :: !Ports()[t][p].rcvdMsg
    {
      hide Calm, HeardAll;
      ShapeAtEvent();
      forall t | t in trees
        ensures !trees[t].ports[p].rcvdMsg
      {
        HeardAt(t, p, {});
      }
    }

    /** The MSTI loop of mstp_prxSmReceiveAct. */
    method PimMstis(p: LPort, msgs: seq<Message>)
      requires Calm() && changing == {} && marks == NO_MARKS && p < |comm| && comm[p].present && comm[p].enabled
      requires comm[p].rcvdInternal && !trees[CIST].ports[p].rcvdMsg
      requires foreign ==> forall i | 0 <= i < |msgs| :: msgs[i].vectors.Foreign?
      modifies this`received, this`marks, trees.Values
      ensures Calm() && marks == NO_MARKS && trees[CIST].ports == old(trees[CIST].ports)
      ensures (old(Heard({p})) ==> Heard({p})) && old(received) <= received <= old(received) + |msgs|
      ensures LastAll(comm, old(Ports()), Ports(), Named(true, msgs, p)) && NoneGuarded(comm, old(Ports()), Ports(), {})
      ensures forall m | m in trees && m != CIST ::
                if m in Ids(msgs) then Answered(old(trees[m].ports[p]), trees[m].ports[p])
                else trees[m].ports == old(trees[m].ports)
      ensures forall i | 0 <= i < |msgs| && Sole(msgs, i) && msgs[i].mstid in trees && msgs[i].mstid != CIST ::
                old(trees[msgs[i].mstid].ports[p].rcvdMsg) && !trees[msgs[i].mstid].ports[p].rcvdMsg ==>
                  Recorded(PacketOf(false, msgs[i]), msgs[i].verdict, trees[msgs[i].mstid].ports[p])
    {
      hide Calm, HeardAll, LastAll, NoneGuarded, Answered, Quiet, AnsweredSome, RecordedSome, Sole, Named, Ids;
      ShapeCalm();
      ghost var o: AllPorts, b := Ports(), Named(true, msgs, p);
      LastSelf(comm, o, b, {});
      SomeBegin(comm, o, msgs, p);
      for i := 0 to |msgs|
        invariant Calm() && Shape() && marks == NO_MARKS && (old(Heard({p})) ==> Heard({p}))
        invariant old(received) <= received <= old(received) + i
        invariant LastAll(comm, o, Ports(), b) && NoneGuarded(comm, o, Ports(), {})
        invariant AnsweredSome(comm, o, Ports(), msgs, i, p) && RecordedSome(comm, o, Ports(), msgs, i, p)
        invariant trees[CIST].ports == o[CIST]
      {
        ghost var n := Ports();
        var m := msgs[i].mstid;
        if m in trees && m != CIST {
          PimMessage(m, p, msgs[i]);
          ShapeCalm();
          NamedAt(msgs, p, i);
          LastTrans(comm, o, n, Ports(), b, {(m, p)}, b);
          GuardTrans(comm, o, n, Ports(), {}, {}, {});
        }
        SomeNext(comm, o, n, Ports(), msgs, i, p);
      }
      SomeEnd(comm, o, Ports(), msgs, p);
    }

    lemma ShapeCalm()
      requires Calm()
      ensures Shape()
    {
    }

    /** One message of the loop: loop guard is released, and PIM gets the packet. */
    method PimMessage(m: MstId, p: LPort, msg: Message)
      requires Calm() && changing == {} && marks == NO_MARKS && m in trees && m != CIST
      requires p < |comm| && comm[p].present && comm[p].enabled && comm[p].rcvdInternal && !trees[CIST].ports[p].rcvdMsg
      requires foreign ==> msg.vectors.Foreign?
      modifies this`received, this`marks, trees.Values
      ensures Calm() && marks == NO_MARKS && (old(Heard({p})) ==> Heard({p}))
      ensures forall u | u in trees && u != m :: trees[u].ports == old(trees[u].ports)
      ensures LastAll(comm, old(Ports()), Ports(), {(m, p)}) && NoneGuarded(comm, old(Ports()), Ports(), {})
      ensures Answered(old(trees[m].ports[p]), trees[m].ports[p])
      ensures var takes := old(trees[m].ports[p].rcvdMsg && !trees[m].ports[p].pim.Aged?);
        && received == old(received) + (if takes then 1 else 0)
      ensures old(trees[m].ports[p].rcvdMsg) && !trees[m].ports[p].rcvdMsg ==>
        Recorded(PacketOf(false, msg), msg.verdict, trees[m].ports[p])
    {
      hide Calm, HeardAll, LastAll, NoneGuarded, Recorded, Quiet;
      ShapeCalm();
      ghost var o := Ports();
      LastOne(comm, o, m, p, trees[m].ports[p].(
                loopInconsistent := trees[m].ports[p].loopInconsistent && !msg.released));
      SetPort(m, p, trees[m].ports[p].(loopInconsistent := trees[m].ports[p].loopInconsistent && !msg.released));
      ghost var n := Ports();
      PimMsti(m, p, PacketOf(false, msg));
      LastTrans(comm, o, n, Ports(), {(m, p)}, {(m, p)}, {(m, p)});
      GuardTrans(comm, o, n, Ports(), {}, {}, {});
    }

    /** The messages that are left wait from now on. */
    ghost method EndBpdu(p: LPort)
      requires Calm() && changing == {} && marks == NO_MARKS && WaitingOk() && Heard({p}) && !Deaf(p)
      requires p < |comm| && comm[p].present && comm[p].enabled && comm[p].receiving
      requires !trees[CIST].ports[p].rcvdMsg
      requires forall m | m in trees && m != CIST && trees[m].ports[p].rcvdMsg :: trees[m].ports[p].pim.Aged?
      modifies this`waiting, this`taken
      ensures AtEvent() && waiting == old(waiting) + LeftUp(p) && taken == old(taken) + [p]
    {
      hide Calm, HeardAll, SettledTree, Ports, QuietPort;
      ShapeCalm();
      ghost var left := LeftUp(p);
      NothingLeft(p);
      taken := taken + [p];
      waiting := waiting + left;
    }

    /** The messages left up by a BPDU join those that wait. */
    lemma NothingLeft(p: LPort)
      requires Calm() && Heard({p}) && Listens(p)
      requires !trees[CIST].ports[p].rcvdMsg
      requires forall m | m in trees && m != CIST && trees[m].ports[p].rcvdMsg :: trees[m].ports[p].pim.Aged?
      ensures HeardAll(comm, Ports(), waiting + LeftUp(p), {})
      ensures foreign ==> LeftUp(p) == {}
      ensures forall w | w in LeftUp(p) :: w.0 in trees && w.1 == p
    {
      hide Calm, HeardAll, SettledTree;
      ShapeCalm();
      forall t | t in trees && foreign
        ensures !trees[t].ports[p].rcvdMsg
      {
        NeverAged(t, p);
      }
      HeardEnd(comm, Ports(), waiting, waiting + LeftUp(p), p);
    }

    /** The packet of the CIST is always taken into RECEIVE. */
    method PimCist(p: LPort, pkt: Packet)
      requires Calm() && changing == {} && marks == NO_MARKS && pkt.Packet? && K(CIST).Admits(pkt.vectors)
      requires p < |comm| && comm[p].present && comm[p].enabled && trees[CIST].ports[p].rcvdMsg
      modifies this`received, this`marks, trees.Values
      ensures Calm() && marks == NO_MARKS && (old(Heard({p})) ==> Heard({p}))
      ensures received == old(received) + 1 && !trees[CIST].ports[p].rcvdMsg
      ensures LastAll(comm, old(Ports()), Ports(), {(CIST, p)}) && NoneGuarded(comm, old(Ports()), Ports(), {})
      ensures QuietPort(CIST, p) <==> !Overlooked(pkt, old(trees[CIST].ports[p]))
      ensures Took(pkt, old(trees[CIST].ports[p]), trees[CIST].ports[p])
      ensures comm[p].rcvdInternal && Dismisses(RcvInfo(pkt, old(trees[CIST].ports[p]))) ==>
                forall u | u in old(Ports()) && u != CIST :: u in Ports() && Ports()[u] == old(Ports())[u]
    {
      hide Overlooked, Took, SettledBut, AgreesBut, Marked, HeardAll, LastAll, NoneGuarded, RcvInfo, Dismisses;
      ghost var tp := trees[CIST].ports[p];
      assert SettledTree(CIST);
      AtRestCist(p);
      PimAtEvent(pkt, CIST, p);
    }

    lemma AtRestCist(p: LPort)
      requires Calm() && changing == {} && p < |comm| && comm[p].present && comm[p].enabled
      ensures trees[CIST].ports[p].pim.Current? && !trees[CIST].ports[p].updtInfo
    {
      assert SettledTree(CIST) && Settled(K(CIST), trees[CIST].ports[p]) && Agrees(comm[p], trees[CIST].ports[p]);
    }

    /** The packet of an MSTI, once that of the CIST has been dealt with: taken into RECEIVE
        unless the port is AGED. */
    method PimMsti(m: MstId, p: LPort, pkt: Packet)
      requires Calm() && changing == {} && marks == NO_MARKS && m in trees && m != CIST
      requires pkt.Packet? && K(m).Admits(pkt.vectors)
      requires p < |comm| && comm[p].present && comm[p].enabled && comm[p].rcvdInternal && !trees[CIST].ports[p].rcvdMsg
      modifies this`received, this`marks, trees.Values
      ensures Calm() && marks == NO_MARKS && (old(Heard({p})) ==> Heard({p}))
      ensures forall u | u in trees && u != m :: trees[u].ports == old(trees[u].ports)
      ensures LastAll(comm, old(Ports()), Ports(), {(m, p)}) && NoneGuarded(comm, old(Ports()), Ports(), {})
      ensures Answered(old(trees[m].ports[p]), trees[m].ports[p])
      ensures var takes := old(trees[m].ports[p].rcvdMsg && !trees[m].ports[p].pim.Aged?);
        && received == old(received) + (if takes then 1 else 0)
        && (takes ==> Recorded(pkt, pkt.verdict, trees[m].ports[p]))
    {
      hide Calm, HeardAll, LastAll, NoneGuarded, Recorded, RcvInfo, Dismisses, HeldOn;
      ShapeCalm();
      ghost var tp := trees[m].ports[p];
      AtRestCist(p);
      AtRestMsti(m, p);
      PimAtEvent(pkt, m, p);
      ShapeCalm();
      AtRestMsti(m, p);
      if tp.rcvdMsg && tp.pim.Current? {
        RecordedSame(pkt, tp, trees[m].ports[p]);
      }
    }

    lemma AtRestMsti(m: MstId, p: LPort)
      requires Calm() && changing == {} && m in trees && m != CIST && p < |comm| && comm[p].present && comm[p].enabled
      ensures trees[m].ports[p].pim.Current? || (trees[m].ports[p].pim.Aged? && QuietPort(m, p))
      ensures !trees[m].ports[p].updtInfo && !trees[m].ports[p].infoIs.InfoDisabled?
      ensures trees[m].ports[p].pim.Aged? <==> trees[m].ports[p].infoIs.InfoAged?
    {
      assert SettledTree(m) && Settled(K(m), trees[m].ports[p]) && Agrees(comm[p], trees[m].ports[p]);
    }

    /** 'rcvdMsg' goes up on the trees the BPDU is for (mstp_setRcvdMsgs), and loop guard of the
        CIST is released; nothing else changes. */
    method RaiseRcvdMsgs(p: LPort, internal: bool, cist: Message, msgs: seq<Message>)
      requires AtEvent() && Listens(p)
      modifies this`comm, trees.Values
      ensures Calm() && WaitingOk() && Heard({p})
      ensures comm == old(comm)[p := old(comm[p]).(rcvdInternal := internal, receiving := true)]
      ensures RaisedAll(comm, old(Ports()), Ports(), p, cist, internal, msgs)
    {
      hide Calm, HeardAll, Unseen, Ids, RaisedAll, Raised;
      ShapeAtEvent();
      RaisedSame(trees[CIST].ports[p], cist, PacketOf(true, cist));
      ghost var o := Ports();
      BpduComes(p, internal);
      ShapeCalm();
      RaiseRcvdMsg(CIST, p, Raised(trees[CIST].ports[p], cist));
      ShapeCalm();
      ghost var m := Ports();
      if internal {
        RaiseMstis(p, msgs);
        ShapeCalm();
      }
      RaisedThrough(comm, o, m, Ports(), p, cist, internal, msgs);
    }

    /** Port Receive is in RECEIVE, and 'rcvdInternal' says where the BPDU comes from. */
    method BpduComes(p: LPort, internal: bool)
      requires AtEvent() && Listens(p)
      modifies this`comm
      ensures Calm() && WaitingOk() && Heard({p})
      ensures comm == old(comm)[p := old(comm[p]).(rcvdInternal := internal, receiving := true)]
    {
      hide AllSettled, HeardAll;
      ghost var c := comm;
      comm := comm[p := comm[p].(rcvdInternal := internal, receiving := true)];
      forall t | t in trees
        ensures SettledTree(t)
      {
        assert old(SettledTree(t));
        SameService(K(t), t, c, comm, trees[t].ports, changing, marks);
      }
      SameHeard(c, comm, Ports(), waiting, {p});
    }

    /** The loop of mstp_setRcvdMsgs. */
    method RaiseMstis(p: LPort, msgs: seq<Message>)
      requires Calm() && marks == NO_MARKS && changing == {} && p < |comm| && comm[p].present && comm[p].enabled
      modifies trees.Values
      ensures Calm() && (old(Heard({p})) ==> Heard({p}))
      ensures forall t | t in trees :: trees[t].ports ==
                if t != CIST && t in Ids(msgs) then old(trees[t].ports)[p := old(trees[t].ports[p]).(rcvdMsg := true)]
                else old(trees[t].ports)
    {
      hide Calm, HeardAll, RaisedSome, Ids;
      ShapeCalm();
      ghost var o: AllPorts := Ports();
      RaisedBegin(comm, o, msgs, p);
      for i := 0 to |msgs|
        invariant Calm() && Shape() && (old(Heard({p})) ==> Heard({p}))
        invariant RaisedSome(comm, o, Ports(), msgs, i, p)
      {
        ghost var n := Ports();
        var m := msgs[i].mstid;
        if m in trees && m != CIST {
          RaiseRcvdMsg(m, p, trees[m].ports[p].(rcvdMsg := true));
        }
        RaisedNext(comm, o, n, Ports(), msgs, i, p);
      }
      RaisedEnd(comm, o, Ports(), msgs, p);
    }

    method RaiseRcvdMsg(t: MstId, p: LPort, tp: TreePort)
      requires Calm() && marks == NO_MARKS && t in trees && changing == {}
      requires p < |comm| && comm[p].present && comm[p].enabled
      requires tp == trees[t].ports[p].(rcvdMsg := true, loopInconsistent := tp.loopInconsistent)
      modifies trees[t]
      ensures Calm() && (old(Heard({p})) ==> Heard({p}))
      ensures trees[t].ports == old(trees[t].ports)[p := tp]
      ensures forall u | u in trees && u != t :: trees[u].ports == old(trees[u].ports)
    {
      assert SettledTree(t) && Settled(K(t), trees[t].ports[p]) && Agrees(comm[p], trees[t].ports[p]);
      SetPort(t, p, tp);
    }

    /** Between events an enabled port that is not quiet rests in CURRENT with information of which
        the time has run out. */
    lemma NotQuiet(t: MstId, p: LPort)
      requires AtEvent() && t in trees && p < |comm| && comm[p].present && comm[p].enabled && !QuietPort(t, p)
      ensures trees[t].ports[p].pim.Current? && RunOut(trees[t].ports[p])
    {
      assert SettledTree(t) && Settled(K(t), trees[t].ports[p]) && Agrees(comm[p], trees[t].ports[p]);
    }

    /** If no port hears itself, no port rests in AGED. */
    lemma NeverAged(t: MstId, p: LPort)
      requires Calm() && foreign && t in trees && p < |comm| && comm[p].present
      ensures !trees[t].ports[p].pim.Aged?
    {
      assert SettledTree(t) && Settled(K(t), trees[t].ports[p]);
    }

    /** A CIST port with received information has a settled role. */
    lemma PlacedAt(p: LPort)
      requires AtEvent() && p < |comm| && comm[p].present && trees[CIST].ports[p].infoIs.InfoReceived?
      ensures Placed(trees[CIST].ports[p])
    {
      assert SettledTree(CIST) && Settled(K(CIST), trees[CIST].ports[p]);
    }

    /** No message is up on a port that is out of service. */
    lemma Silent(p: LPort)
      requires AtEvent() && !(p < |comm| && comm[p].present && comm[p].enabled)
      ensures !Deaf(p)
    {
    }

    /** No BPDU of the event was sent by the port that hears it. */
    static ghost predicate ForeignEvent(e: Event) {
      e.Bpdu? ==> e.cist.vectors.Foreign? && forall i | 0 <= i < |e.msgs| :: e.msgs[i].vectors.Foreign?
    }

    /** What one event does; events that cannot happen now are passed over. A message that is
        up stays up until its port is disabled or removed, and until then no BPDU is accepted
        on the port. Only loop guard brings a port under suspicion. */
    method Handle(e: Event)
      requires AtEvent() && (foreign ==> ForeignEvent(e))
      modifies this`begin, this`comm, this`received, this`changing, this`waiting, this`taken, this`marks, trees.Values
      ensures AtEvent() && |comm| == old(|comm|)
      ensures forall w | w in old(waiting) :: w in waiting || Ends(e, w.1)
      ensures forall p | Ends(e, p) :: !Deaf(p)
      ensures taken == old(taken) + if e.Bpdu? && old(Listens(e.p)) then [e.p] else []
      ensures forall t, q: LPort | Suspected(t, q) :: old(Suspected(t, q)) || Guards(e, t, q)
    {
      hide Calm, HeardAll, Suspect;
      ShapeAtEvent();
      match e {
        case PortAdded(p, tp) =>
          if 0 < p < |comm| && !comm[p].present && tp.pim.PimUnknown? && !tp.updtInfo {
            AddLport(p, tp);
          }
        case PortRemoved(p) =>
          if 0 < p < |comm| && comm[p].present {
            RemoveLport(p);
          }
        case PortEnabled(p, enabled, discard) =>
          if p < |comm| && comm[p].present {
            SetPortEnabled(p, enabled, discard);
          }
        case Second(t, p, guarded, isRoot) =>
          if t in trees && p < |comm| && comm[p].present {
            OneSecond(t, p, guarded, isRoot);
          }
        case Bpdu(p, internal, cist, msgs) =>
          if p < |comm| && comm[p].present && comm[p].enabled {
            PrxBpdu(p, internal, cist, msgs);
          }
      }
      ShapeAtEvent();
      if !e.Second? && Ends(e, e.p) {
        Silent(e.p);
      }
    }

    /** Whatever happens to the bridge, and however often, every state machine has come to
        rest before the next event. A port with a message up accepts no BPDU over any run in
        which it is not disabled or removed. A port comes under suspicion only if loop guard takes
        hold of it in the run. */
    method Run(events: seq<Event>)
      requires AtEvent() && (foreign ==> forall i | 0 <= i < |events| :: ForeignEvent(events[i]))
      modifies this`begin, this`comm, this`received, this`changing, this`waiting, this`taken, this`marks, trees.Values
      ensures AtEvent() && old(taken) <= taken && |comm| == old(|comm|)
      ensures forall w | w in old(waiting) && (forall i | 0 <= i < |events| :: !Ends(events[i], w.1)) ::
                w in waiting && w.1 !in taken[|old(taken)|..]
      ensures forall t, q: LPort | Suspected(t, q) ::
                old(Suspected(t, q)) || exists i | 0 <= i < |events| :: Guards(events[i], t, q)
    {
      hide AtEvent, Suspect, ForeignEvent;
      for i := 0 to |events|
        invariant AtEvent() && old(taken) <= taken && |comm| == old(|comm|)
        invariant forall w | w in old(waiting) && (forall k | 0 <= k < i :: !Ends(events[k], w.1)) ::
                    w in waiting && w.1 !in taken[|old(taken)|..]
        invariant forall t, q: LPort | Suspected(t, q) ::
                    old(Suspected(t, q)) || exists k | 0 <= k < i :: Guards(events[k], t, q)
      {
        Handle(events[i]);
      }
    }

    /** Disabling and enabling the port again ends it: the next BPDU is accepted. */
    method Revive(p: LPort, discard: bool, internal: bool, cist: Message, msgs: seq<Message>)
      requires AtEvent() && p < |comm| && comm[p].present && Promised(cist, msgs)
      modifies this`comm, this`received, this`changing, this`waiting, this`taken, this`marks, trees.Values
      ensures AtEvent() && taken == old(taken) + [p]
    {
      hide Calm, HeardAll;
      ShapeAtEvent();
      SetPortEnabled(p, false, discard);
      ShapeAtEvent();
      SetPortEnabled(p, true, discard);
      ShapeAtEvent();
      PrxBpdu(p, internal, cist, msgs);
    }
  }
}
