/** What the Port Information (PIM) and Port Role Selection (PRS) state machines work on: the
    variables of a port on a tree and those it shares among the trees, the conditions the two
    machines rest on, and what one step, one role selection and one event keep of them. */
module PortState {

  type LPort = nat
  type MstId = nat

  /** MSTP_CISTID: tree 0 is the CIST, every other tree is an MSTI. */
  const CIST: MstId := 0

  const NO_PORTS: set<LPort> := {}

  datatype PimState =
    | PimUnknown | Disabled | Aged | Update | Current | Receive | SuperiorDesignated
    | RepeatedDesignated | InferiorDesignated | NotDesignated | Other

  datatype PrsState = PrsUnknown | InitTree | RoleSelection

  datatype InfoIs = InfoUnknown | InfoDisabled | InfoReceived | InfoMine | InfoAged

  datatype RcvdInfo =
    | RcvdUnknown | RcvdSuperior | RcvdRepeated | RcvdInferior | RcvdInferiorRootAlternate | RcvdOther

  datatype Role =
    | RoleUnknown | RoleRoot | RoleAlternate | RoleDesignated | RoleBackup | RoleDisabled | RoleMaster

  /** What role computation finds when it compares the priority vector of a port. The vectors
      themselves are not part of the model: `Any` leaves every comparison open. A vector that
      was recorded from the port's own BPDU, come back to it, is `Own` while it equals the
      designated vector of the port. The vector of a BPDU sent by another port is `Foreign`: it
      differs from the designated vector in its bridge or its port. `firm` says that the
      designated vector is not better, `outdone` that another port offers a better root. */
  datatype Vectors = Any | Own | Foreign(firm: bool, outdone: bool)

  /** Variables of one port on one tree (MSTP_CIST_PORT_INFO_t, MSTP_MSTI_PORT_INFO_t). */
  datatype TreePort = TreePort(
    pim: PimState, infoIs: InfoIs, rcvdInfo: RcvdInfo, rcvdInfoWhile: nat, rcvdMsg: bool,
    reselect: bool, selected: bool, updtInfo: bool, selectedRole: Role, loopInconsistent: bool, vectors: Vectors)

  /** Variables of one port shared by all trees (MSTP_COMM_PORT_INFO_t); `present` tells
      whether the port has data at all, `receiving` whether Port Receive is in RECEIVE. */
  datatype CommPort = CommPort(present: bool, enabled: bool, rcvdInternal: bool, receiving: bool)

  /** The answers of mstp_rcvInfo. */
  type Verdict = r: RcvdInfo | !r.RcvdUnknown? witness RcvdOther

  /** What a BPDU says to one port of one tree: how its message compares with the information
      of the port, and how long the information lasts and how it compares if it is recorded. */
  datatype Packet = NoPacket | Packet(verdict: Verdict, ageing: nat, vectors: Vectors)

  /** Which tree a port belongs to; `foreign` promises that no port hears a BPDU of its own. */
  datatype Kind = Kind(isCist: bool, foreign: bool) {
    /** An aged port is always asked to update. */
    predicate Insists() {
      isCist || foreign
    }

    /** The vectors that can be recorded. On the boundary of the region every MSTI vector that
        differs from the designated one is replaced, so none of them is firm. */
    predicate Admits(v: Vectors) {
      (foreign ==> v.Foreign?) && (!isCist && v.Foreign? ==> !v.firm)
    }
  }

  /** mstp_rcvInfo: only received information can be repeated. */
  function RcvInfo(pkt: Packet, tp: TreePort): RcvdInfo
    requires pkt.Packet?
  {
    if pkt.verdict.RcvdRepeated? && !tp.infoIs.InfoReceived? then RcvdOther else pkt.verdict
  }

  // ---------------------------------------------------------------------------
  // Conditions on one port
  // ---------------------------------------------------------------------------

  /** The notes at the head of mstp_pimSmCurrentCond: an MSTI looks at its message only
      once the CIST message of the port has been dealt with. */
  predicate RcvdXstMsg(isCist: bool, cist: TreePort, tp: TreePort) {
    tp.rcvdMsg && (isCist || !cist.rcvdMsg)
  }

  predicate UpdtXstInfo(isCist: bool, cist: TreePort, tp: TreePort) {
    tp.updtInfo || (!isCist && cist.updtInfo)
  }

  predicate TimedOut(isCist: bool, cist: TreePort, tp: TreePort) {
    tp.infoIs.InfoReceived? && tp.rcvdInfoWhile == 0 && !tp.updtInfo && !RcvdXstMsg(isCist, cist, tp)
  }

  /** A call on this port without a packet would do nothing, and the port rests in a
      state that the exit assertion of mstp_pimSm allows. */
  ghost predicate Quiet(isCist: bool, cist: TreePort, comm: CommPort, tp: TreePort) {
    match tp.pim
    case Disabled => !comm.enabled
    case Aged => !isCist && comm.enabled && !(tp.selected && tp.updtInfo)
    case Current => comm.enabled && !(tp.selected && tp.updtInfo) && !TimedOut(isCist, cist, tp)
    case _ => false
  }

  /** A call with a packet takes the transition to RECEIVE. */
  ghost predicate Receives(isCist: bool, cist: TreePort, comm: CommPort, tp: TreePort) {
    && comm.enabled && tp.pim.Current? && !(tp.selected && tp.updtInfo)
    && RcvdXstMsg(isCist, cist, tp) && !UpdtXstInfo(isCist, cist, tp)
  }

  /** The port still has a reason to make PIM kick PRS on a call without a packet. */
  predicate Pending(comm: CommPort, tp: TreePort) {
    || (!comm.enabled && !tp.infoIs.InfoDisabled?)
    || (comm.enabled && tp.infoIs.InfoDisabled?)
    || (comm.enabled && tp.infoIs.InfoReceived? && tp.rcvdInfoWhile == 0)
  }

  /** The CIST information of the port comes from a bridge outside the region. */
  predicate Edge(cist: TreePort, comm: CommPort) {
    cist.infoIs.InfoReceived? && !comm.rcvdInternal
  }

  /** The designated vector is not better than the vector of the port. */
  predicate Firm(v: Vectors) {
    v.Own? || (v.Foreign? && v.firm)
  }

  /** The port is not the root port: its vector is the bridge's own, or another one is better. */
  predicate Outdone(v: Vectors) {
    v.Own? || (v.Foreign? && v.outdone)
  }

  /** The roles of a CIST port whose received information is not to be replaced. */
  predicate Placed(tp: TreePort) {
    tp.selectedRole.RoleAlternate? || tp.selectedRole.RoleBackup? || (tp.selectedRole.RoleRoot? && !Outdone(tp.vectors))
  }

  /** 'infoIs' tells whether the port takes part exactly as 'portEnabled' does. */
  predicate Agrees(comm: CommPort, tp: TreePort) {
    comm.enabled <==> !tp.infoIs.InfoDisabled?
  }

  /** The assertion at the head of the CIST branch of mstp_pimSmUpdateAct. */
  predicate RoleOk(tp: TreePort) {
    tp.selectedRole.RoleDesignated? || (tp.loopInconsistent && tp.selectedRole.RoleAlternate?)
  }

  /** What holds of a port when PRS is entered: 'selected' may be down. */
  ghost predicate Startable(k: Kind, tp: TreePort) {
    && (tp.pim.Disabled? || tp.pim.Aged? || tp.pim.Current? || tp.pim.SuperiorDesignated?)
    && (tp.infoIs.InfoDisabled? <==> tp.pim.Disabled?)
    && (tp.infoIs.InfoAged? <==> tp.pim.Aged?)
    && (tp.pim.SuperiorDesignated? ==> tp.infoIs.InfoReceived?)
    && !tp.infoIs.InfoUnknown?
    && (k.isCist && tp.infoIs.InfoMine? && tp.updtInfo ==> RoleOk(tp))
    && (tp.pim.Disabled? ==> !tp.rcvdMsg)
    && (tp.infoIs.InfoReceived? ==> k.Admits(tp.vectors))
  }

  /** Role computation will ask an aged MSTI port to update if no port hears itself. */
  ghost predicate Grounded(k: Kind, cist: TreePort, comm: CommPort, tp: TreePort) {
    k.foreign && !k.isCist && tp.infoIs.InfoAged? ==>
      tp.updtInfo || !Edge(cist, comm) || (tp.vectors.Foreign? && Placed(cist))
  }

  /** What holds of a port whenever PIM is entered. */
  ghost predicate Linked(k: Kind, tp: TreePort) {
    && Startable(k, tp)
    && tp.selected == !tp.reselect
    && (!tp.pim.Disabled? ==> tp.selected)
    && (k.Insists() && tp.pim.Aged? ==> tp.updtInfo)
    && (k.isCist && tp.updtInfo && !tp.infoIs.InfoDisabled? ==> RoleOk(tp))
    && (k.isCist && tp.infoIs.InfoReceived? && !tp.updtInfo ==> Placed(tp))
  }

  /** What holds of a port between events. */
  ghost predicate Settled(k: Kind, tp: TreePort) {
    && Linked(k, tp)
    && !tp.pim.SuperiorDesignated?
    && !(k.Insists() && tp.pim.Aged?)
    && (!tp.pim.Disabled? ==> !tp.updtInfo)
  }

  /** Role computation may change 'updtInfo' and 'selectedRole' and nothing else. On the
      CIST it raises 'updtInfo' on every aged port, and only together with a role that
      the UPDATE action accepts. An aged MSTI port is asked to update inside the region, and on
      its boundary if its vector is foreign; an own vector it leaves alone on the boundary. */
  ghost predicate RoleUpdate(isCist: bool, cist: TreePort, comm: CommPort, o: TreePort, n: TreePort) {
    && n == o.(updtInfo := n.updtInfo, selectedRole := n.selectedRole)
    && (isCist && o.infoIs.InfoAged? ==> n.updtInfo && RoleOk(n))
    && (isCist && o.infoIs.InfoReceived? ==> if n.updtInfo then RoleOk(n) else Placed(n))
    && (isCist && o.infoIs.InfoMine? && (o.updtInfo ==> RoleOk(o)) && n.updtInfo ==> RoleOk(n))
    && (!isCist && o.infoIs.InfoAged? && (o.updtInfo || !Edge(cist, comm) || (o.vectors.Foreign? && Placed(cist)))
        ==> n.updtInfo)
    && (!isCist && Edge(cist, comm) && Stuck(o) ==> Stuck(n))
    && (isCist || !o.vectors.Foreign? ==> HeldOn(o, n))
  }

  /** The port holds received information that has time left and is not to be replaced. */
  ghost predicate Holds(tp: TreePort) {
    Firm(tp.vectors) && tp.infoIs.InfoReceived? && tp.rcvdInfoWhile != 0 && !tp.updtInfo
  }

  ghost predicate HeldOn(o: TreePort, n: TreePort) {
    Holds(o) ==> Holds(n) && n.rcvdInfoWhile == o.rcvdInfoWhile && n.vectors == o.vectors
  }

  predicate RunOut(tp: TreePort) {
    tp.infoIs.InfoReceived? && tp.rcvdInfoWhile == 0
  }

  /** What a call without a packet keeps of an enabled port: firm information with time left stays,
      no time runs out, nothing comes to be received, a port ages only if its time has run out or
      it is new to the tree, and message and loop guard stay as they are. */
  ghost predicate Lasting(o: TreePort, n: TreePort) {
    && HeldOn(o, n)
    && (RunOut(n) ==> RunOut(o))
    && (n.infoIs.InfoReceived? ==> o.infoIs.InfoReceived?)
    && (n.infoIs.InfoDisabled? ==> o.infoIs.InfoDisabled?)
    && (n.infoIs.InfoAged? ==> o.infoIs.InfoAged? || RunOut(o) || o.infoIs.InfoDisabled?)
    && n.loopInconsistent == o.loopInconsistent && n.rcvdMsg == o.rcvdMsg
  }

  /** An aged port is on its way to be updated. */
  ghost predicate Rising(tp: TreePort) {
    tp.infoIs.InfoAged? ==> tp.updtInfo || tp.reselect
  }

  /** The time of the port's own information has run out, and nothing asks for an update. */
  ghost predicate Stuck(tp: TreePort) {
    (tp.infoIs.InfoReceived? || tp.infoIs.InfoAged?) && tp.vectors.Own? && tp.rcvdInfoWhile == 0 && !tp.updtInfo
  }

  /** How many more steps the PIM loop can take from a state at most. */
  function Rank(s: PimState): nat {
    match s
    case Receive | Update => 1
    case Current | Aged | Disabled => 2
    case _ => 3
  }

  // ---------------------------------------------------------------------------
  // Conditions on all ports of a tree
  // ---------------------------------------------------------------------------

  /** Logical port numbers start at 1. */
  ghost predicate NoPortZero(comm: seq<CommPort>) {
    |comm| > 0 && !comm[0].present
  }

  ghost predicate StartableAll(k: Kind, cist: seq<TreePort>, comm: seq<CommPort>, ports: seq<TreePort>)
    requires |comm| == |ports| == |cist|
  {
    forall p | 0 <= p < |ports| && comm[p].present ::
      Startable(k, ports[p]) && Grounded(k, cist[p], comm[p], ports[p])
  }

  ghost predicate LinkedBut(k: Kind, comm: seq<CommPort>, ports: seq<TreePort>, but: LPort)
    requires |comm| == |ports|
  {
    forall p | 0 <= p < |ports| && p != but && comm[p].present :: Linked(k, ports[p])
  }

  ghost predicate SettledBut(k: Kind, comm: seq<CommPort>, ports: seq<TreePort>, but: LPort)
    requires |comm| == |ports|
  {
    forall p | 0 <= p < |ports| && p != but && comm[p].present :: Settled(k, ports[p])
  }

  ghost predicate QuietAll(isCist: bool, cist: seq<TreePort>, comm: seq<CommPort>, ports: seq<TreePort>)
    requires |comm| == |ports| == |cist|
  {
    forall p | 0 <= p < |ports| && comm[p].present :: Quiet(isCist, cist[p], comm[p], ports[p])
  }

  ghost predicate SelectedAll(comm: seq<CommPort>, ports: seq<TreePort>)
    requires |comm| == |ports|
  {
    forall p | 0 <= p < |ports| && comm[p].present :: ports[p].selected && !ports[p].reselect
  }

  predicate SomeReselect(comm: seq<CommPort>, ports: seq<TreePort>)
    requires |comm| == |ports|
  {
    exists p | 0 <= p < |ports| :: comm[p].present && ports[p].reselect
  }

  ghost function PendingPorts(comm: seq<CommPort>, ports: seq<TreePort>): set<LPort>
    requires |comm| == |ports|
  {
    set p: LPort | p < |ports| && comm[p].present && Pending(comm[p], ports[p])
  }

  ghost predicate AgreesBut(comm: seq<CommPort>, ports: seq<TreePort>, but: set<LPort>)
    requires |comm| == |ports|
  {
    forall p: LPort | p < |ports| && p !in but && comm[p].present :: Agrees(comm[p], ports[p])
  }

  /** What the proofs carry through a call: the ports `was` of every tree at its start; the port
      of the tree whose packet it is `taking`; and the aged MSTI port that is `stuck`. */
  datatype Marks = Marks(was: map<MstId, seq<TreePort>>, taking: set<(MstId, LPort)>, stuck: set<(MstId, LPort)>)

  const NO_MARKS: Marks := Marks(map[], {}, {})

  /** A port that comes up, before every tree has seen it, has no received information and does
      not rest in AGED; and the marks hold of tree t. */
  ghost predicate Marked(t: MstId, comm: seq<CommPort>, ports: seq<TreePort>, changing: set<LPort>, marks: Marks)
    requires |comm| == |ports|
  {
    forall q: LPort | q < |ports| && comm[q].present ::
      && (comm[q].enabled && q in changing ==> !ports[q].infoIs.InfoReceived? && Rising(ports[q]))
      && (comm[q].enabled && (t, q) in marks.stuck ==> Stuck(ports[q]))
      && (t in marks.was && q < |marks.was[t]| ==>
            && (comm[q].enabled && (t, q) !in marks.taking ==> Lasting(marks.was[t][q], ports[q]))
            && ports[q].loopInconsistent == marks.was[t][q].loopInconsistent)
  }

  /** A tree between the calls of mstp_pimSm for it. */
  ghost predicate AllSettled(k: Kind, t: MstId, comm: seq<CommPort>, ports: seq<TreePort>, changing: set<LPort>,
                             marks: Marks)
    requires |comm| == |ports|
  {
    && SettledBut(k, comm, ports, |comm|) && AgreesBut(comm, ports, changing)
    && Marked(t, comm, ports, changing, marks)
  }

  /** One port is written, not to the disadvantage of its marks. */
  lemma MarkedOne(t: MstId, comm: seq<CommPort>, o: seq<TreePort>, changing: set<LPort>, marks: Marks, p: LPort,
                  tp: TreePort)
    requires |comm| == |o| && p < |o| && Marked(t, comm, o, changing, marks)
    requires tp.loopInconsistent == o[p].loopInconsistent
    requires
      || !comm[p].enabled
      || ((t, p) in marks.taking && (t, p) !in marks.stuck && p !in changing)
      || (Lasting(o[p], tp) && (Stuck(o[p]) ==> Stuck(tp)) && (Rising(o[p]) ==> Rising(tp)))
    ensures Marked(t, comm, o[p := tp], changing, marks)
  {
  }

  /** Marks are set between events, and dropped again. */
  lemma MarkedSelf(k: Kind, t: MstId, comm: seq<CommPort>, ports: seq<TreePort>, changing: set<LPort>, marks: Marks)
    requires |comm| == |ports| && AllSettled(k, t, comm, ports, changing, NO_MARKS)
    requires t in marks.was ==> marks.was[t] == ports
    requires forall q: LPort | q < |ports| && (t, q) in marks.stuck :: Stuck(ports[q])
    ensures AllSettled(k, t, comm, ports, changing, marks)
  {
  }

  lemma MarkedOff(k: Kind, t: MstId, comm: seq<CommPort>, ports: seq<TreePort>, changing: set<LPort>, marks: Marks)
    requires |comm| == |ports| && AllSettled(k, t, comm, ports, changing, marks)
    ensures AllSettled(k, t, comm, ports, changing, NO_MARKS)
    ensures forall q: LPort | q < |comm| && comm[q].present && comm[q].enabled && (t, q) in marks.stuck ::
      Stuck(ports[q])
    ensures t in marks.was ==> forall q: LPort | q < |comm| && q < |marks.was[t]| && comm[q].present ::
      && (comm[q].enabled && (t, q) !in marks.taking ==> Lasting(marks.was[t][q], ports[q]))
      && ports[q].loopInconsistent == marks.was[t][q].loopInconsistent
  {
  }

  /** Role selection writes no mark, as long as a stuck port is on the boundary. */
  lemma MarkedSame(k: Kind, t: MstId, cist: seq<TreePort>, comm: seq<CommPort>, o: seq<TreePort>, n: seq<TreePort>,
                   changing: set<LPort>, marks: Marks)
    requires |comm| == |o| == |n| == |cist| && Marked(t, comm, o, changing, marks)
    requires ReselectedAll(k.isCist, cist, comm, o, n) && StartableAll(k, cist, comm, o)
    requires forall q: LPort | q < |n| && comm[q].present && (t, q) in marks.stuck ::
               !k.isCist && Edge(cist[q], comm[q])
    requires forall q: LPort | q < |n| && comm[q].present && comm[q].enabled && q in changing ::
               k.isCist || !cist[q].infoIs.InfoReceived?
    ensures Marked(t, comm, n, changing, marks)
  {
    forall q: LPort | q < |n| && comm[q].present
      ensures Lasting(o[q], n[q]) && ((t, q) in marks.stuck && comm[q].enabled ==> Stuck(n[q]))
      ensures q in changing && comm[q].enabled ==> Rising(n[q])
    {
      assert Reselected(k.isCist, cist[q], comm[q], o[q], n[q]) && Startable(k, o[q]);
    }
  }

  /** What an MSTI finds on the CIST: a port that is up holds received information there only
      with a settled role and once it takes part in the MSTI; and a stuck port is on the
      boundary. */
  ghost predicate Bordered(t: MstId, cist: seq<TreePort>, comm: seq<CommPort>, ports: seq<TreePort>,
                           changing: set<LPort>, marks: Marks)
    requires |comm| == |ports| == |cist|
  {
    forall q: LPort | q < |ports| && comm[q].present ::
      && (comm[q].enabled && cist[q].infoIs.InfoReceived? ==> Placed(cist[q]) && !ports[q].infoIs.InfoDisabled?)
      && (comm[q].enabled && q in changing ==> !cist[q].infoIs.InfoReceived?)
      && ((t, q) in marks.stuck ==> Edge(cist[q], comm[q]))
  }

  lemma BorderedAll(t: MstId, cist: seq<TreePort>, comm: seq<CommPort>, ports: seq<TreePort>, changing: set<LPort>,
                    marks: Marks)
    requires |comm| == |ports| == |cist|
    requires PlacedAll(comm, cist) && Marked(CIST, comm, cist, changing, marks) && AgreesBut(comm, ports, changing)
    requires forall q: LPort | q < |ports| && comm[q].present && (t, q) in marks.stuck :: Edge(cist[q], comm[q])
    ensures Bordered(t, cist, comm, ports, changing, marks)
  {
    forall q: LPort | q < |ports| && comm[q].present && comm[q].enabled && cist[q].infoIs.InfoReceived?
      ensures !ports[q].infoIs.InfoDisabled?
    {
      assert q !in changing && Agrees(comm[q], ports[q]);
    }
  }

  lemma BorderedKept(t: MstId, cist: seq<TreePort>, comm: seq<CommPort>, o: seq<TreePort>, n: seq<TreePort>,
                     changing: set<LPort>, marks: Marks)
    requires |comm| == |o| == |n| == |cist| && Bordered(t, cist, comm, o, changing, marks) && AgreementKept(comm, o, n)
    ensures Bordered(t, cist, comm, n, changing, marks)
  {
    forall q: LPort | q < |n| && comm[q].present && comm[q].enabled && cist[q].infoIs.InfoReceived?
      ensures !n[q].infoIs.InfoDisabled?
    {
      assert Agrees(comm[q], o[q]) ==> Agrees(comm[q], n[q]);
    }
  }

  lemma SettledPlaced(k: Kind, comm: seq<CommPort>, cist: seq<TreePort>, p: LPort)
    requires k.isCist && |comm| == |cist| && SettledBut(k, comm, cist, p)
    requires p < |comm| && comm[p].present ==> Linked(k, cist[p]) || Passing(k, cist[p])
    requires p < |comm| && comm[p].present && !cist[p].pim.Disabled? ==> !cist[p].updtInfo
    ensures PlacedAll(comm, cist)
  {
    forall q | 0 <= q < |cist| && comm[q].present && cist[q].infoIs.InfoReceived?
      ensures Placed(cist[q])
    {
      assert q != p ==> Settled(k, cist[q]);
    }
  }

  /** A tree at rest is settled. */
  lemma RestSettled(k: Kind, cist: seq<TreePort>, comm: seq<CommPort>, n: seq<TreePort>, changing: set<LPort>)
    requires |comm| == |n| == |cist| && LinkedBut(k, comm, n, |n|) && QuietAll(k.isCist, cist, comm, n)
    ensures SettledBut(k, comm, n, |n|) && AgreesBut(comm, n, changing)
  {
  }

  /** Asking for reselection makes a settled tree ready for role selection. */
  lemma SettledStart(k: Kind, cist: TreePort, comm: seq<CommPort>, ports: seq<TreePort>, p: LPort)
    requires |comm| == |ports| && p < |comm| && comm[p].present && SettledBut(k, comm, ports, |comm|)
    ensures var tp := ports[p].(reselect := true, selected := false);
      && Startable(k, tp) && Grounded(k, cist, comm[p], tp) && LinkedBut(k, comm, ports, p)
      && Lasting(ports[p], tp) && (Stuck(ports[p]) ==> Stuck(tp)) && Rising(tp)
      && (Agrees(comm[p], ports[p]) ==> Agrees(comm[p], tp))
  {
    assert Settled(k, ports[p]);
  }

  lemma RestPlaced(k: Kind, comm: seq<CommPort>, cist: seq<TreePort>)
    requires k.isCist && |comm| == |cist| && LinkedBut(k, comm, cist, |cist|) && QuietAll(true, cist, comm, cist)
    ensures PlacedAll(comm, cist)
  {
    forall q | 0 <= q < |cist| && comm[q].present && cist[q].infoIs.InfoReceived?
      ensures Placed(cist[q])
    {
      assert Linked(k, cist[q]) && Quiet(true, cist[q], comm[q], cist[q]);
    }
  }

  lemma BorderedSettled(c: Kind, k: Kind, t: MstId, cist: seq<TreePort>, comm: seq<CommPort>, ports: seq<TreePort>,
                        changing: set<LPort>, marks: Marks)
    requires c.isCist && |comm| == |ports| == |cist|
    requires AllSettled(c, CIST, comm, cist, changing, marks) && AllSettled(k, t, comm, ports, changing, marks)
    requires forall q: LPort | q < |ports| && comm[q].present && (t, q) in marks.stuck :: Edge(cist[q], comm[q])
    ensures Bordered(t, cist, comm, ports, changing, marks)
  {
    SettledPlaced(c, comm, cist, |comm|);
    BorderedAll(t, cist, comm, ports, changing, marks);
  }

  /** Role selection makes a tree ready for PIM. */
  lemma RolesReady(k: Kind, t: MstId, cist: seq<TreePort>, comm: seq<CommPort>, o: seq<TreePort>, n: seq<TreePort>,
                   changing: set<LPort>, marks: Marks)
    requires |comm| == |o| == |n| == |cist| && Marked(t, comm, o, changing, marks)
    requires ReselectedAll(k.isCist, cist, comm, o, n) && StartableAll(k, cist, comm, o)
    requires if k.isCist then marks.stuck == {} else Bordered(t, cist, comm, o, changing, marks)
    ensures LinkedBut(k, comm, n, |n|) && SelectedAll(comm, n) && Framed(comm, o, n) && Lower(comm, o, n)
    ensures Marked(t, comm, n, changing, marks) && (!k.isCist ==> Bordered(t, cist, comm, n, changing, marks))
  {
    hide LinkedBut, SelectedAll, Lower, Marked, ReselectedAll, StartableAll, AgreementKept, PendingPorts;
    ReselectedReady(k, cist, comm, o, n);
    MarkedSame(k, t, cist, comm, o, n, changing, marks);
    if !k.isCist {
      BorderedKept(t, cist, comm, o, n, changing, marks);
    }
  }

  /** Received CIST information is held with a settled role. */
  ghost predicate PlacedAll(comm: seq<CommPort>, cist: seq<TreePort>)
    requires |comm| == |cist|
  {
    forall q | 0 <= q < |cist| && comm[q].present && cist[q].infoIs.InfoReceived? :: Placed(cist[q])
  }

  /** No port stops agreeing with its 'portEnabled'. */
  ghost predicate AgreementKept(comm: seq<CommPort>, o: seq<TreePort>, n: seq<TreePort>)
    requires |comm| == |o| == |n|
  {
    forall p | 0 <= p < |n| && comm[p].present :: Agrees(comm[p], o[p]) ==> Agrees(comm[p], n[p])
  }

  /** What every call keeps: no selected port stops being selected, 'rcvdMsg' is never
      raised, and 'infoIs' goes on agreeing with 'portEnabled'. */
  ghost predicate Framed(comm: seq<CommPort>, o: seq<TreePort>, n: seq<TreePort>)
    requires |comm| == |o| == |n|
  {
    && AgreementKept(comm, o, n)
    && (forall p | 0 <= p < |n| && comm[p].present :: o[p].selected ==> n[p].selected)
    && (forall p | 0 <= p < |n| && comm[p].present :: n[p].rcvdMsg ==> o[p].rcvdMsg)
  }

  /** What a call without a packet keeps besides: no port gets a new reason to kick PRS, none
      comes to hold received information, and firm information with time left stays. */
  ghost predicate Lower(comm: seq<CommPort>, o: seq<TreePort>, n: seq<TreePort>)
    requires |comm| == |o| == |n|
  {
    && PendingPorts(comm, n) <= PendingPorts(comm, o)
    && (forall p | 0 <= p < |n| && comm[p].present :: n[p].pim.SuperiorDesignated? ==> o[p].pim.SuperiorDesignated?)
    && (forall p | 0 <= p < |n| && comm[p].present :: n[p].infoIs.InfoReceived? ==> o[p].infoIs.InfoReceived?)
    && (forall p | 0 <= p < |n| && comm[p].present && comm[p].enabled :: HeldOn(o[p], n[p]))
  }

  /** No quiet port but `but` stops being quiet. */
  ghost predicate QuietKept(isCist: bool, cist: seq<TreePort>, comm: seq<CommPort>,
                            o: seq<TreePort>, n: seq<TreePort>, but: LPort)
    requires |comm| == |o| == |n| == |cist|
  {
    forall p | 0 <= p < |n| && p != but && comm[p].present ::
      Quiet(isCist, cist[p], comm[p], o[p]) ==> Quiet(isCist, cist[p], comm[p], n[p])
  }

  /** One port before and after the three procedures of role selection. */
  ghost predicate Reselected(isCist: bool, cist: TreePort, comm: CommPort, o: TreePort, n: TreePort) {
    n.selected && !n.reselect && RoleUpdate(isCist, cist, comm, o.(reselect := false, selected := true), n)
  }

  ghost predicate ReselectedAll(isCist: bool, cist: seq<TreePort>, comm: seq<CommPort>, o: seq<TreePort>,
                                n: seq<TreePort>)
    requires |comm| == |o| == |n| == |cist|
  {
    forall p | 0 <= p < |n| && comm[p].present :: Reselected(isCist, cist[p], comm[p], o[p], n[p])
  }

  lemma ReselectedReady(k: Kind, cist: seq<TreePort>, comm: seq<CommPort>, o: seq<TreePort>, n: seq<TreePort>)
    requires |comm| == |o| == |n| == |cist|
    requires ReselectedAll(k.isCist, cist, comm, o, n) && StartableAll(k, cist, comm, o)
    ensures LinkedBut(k, comm, n, |n|) && SelectedAll(comm, n)
    ensures Framed(comm, o, n) && Lower(comm, o, n) && PendingPorts(comm, n) == PendingPorts(comm, o)
    ensures forall q | 0 <= q < |n| && comm[q].present :: n[q].rcvdMsg == o[q].rcvdMsg
  {
    forall p | 0 <= p < |n| && comm[p].present
      ensures Linked(k, n[p]) && Pending(comm[p], n[p]) == Pending(comm[p], o[p])
    {
      assert Reselected(k.isCist, cist[p], comm[p], o[p], n[p]);
      assert Startable(k, o[p]) && Grounded(k, cist[p], comm[p], o[p]);
    }
    assert PendingPorts(comm, n) == PendingPorts(comm, o);
  }

  lemma PendingShrinks(comm: seq<CommPort>, o: seq<TreePort>, p: LPort, tp: TreePort)
    requires |comm| == |o| && p < |o| && comm[p].present
    requires Pending(comm[p], o[p]) && !Pending(comm[p], tp)
    ensures PendingPorts(comm, o[p := tp]) < PendingPorts(comm, o)
  {
    assert p in PendingPorts(comm, o) && p !in PendingPorts(comm, o[p := tp]);
  }

  /** One port is made ready for role selection. */
  lemma StartOne(k: Kind, cist: seq<TreePort>, cist': seq<TreePort>, comm: seq<CommPort>, o: seq<TreePort>, p: LPort,
                 tp: TreePort)
    requires |comm| == |o| == |cist| == |cist'| && p < |o| && comm[p].present
    requires LinkedBut(k, comm, o, p) && Startable(k, tp) && tp.reselect
    requires Grounded(k, cist[p], comm[p], tp) && (k.isCist || cist == cist')
    requires (Agrees(comm[p], o[p]) ==> Agrees(comm[p], tp)) && (tp.rcvdMsg ==> o[p].rcvdMsg)
    ensures var n := o[p := tp];
      && StartableAll(k, cist', comm, n) && SomeReselect(comm, n)
      && AgreementKept(comm, o, n)
      && (forall q | 0 <= q < |n| && comm[q].present :: n[q].rcvdMsg ==> o[q].rcvdMsg)
  {
    var n := o[p := tp];
    assert comm[p].present && n[p].reselect;
  }

  /** After role selection every port is selected, whatever happened to one of them
      just before. */
  lemma RestFramed(comm: seq<CommPort>, o: seq<TreePort>, m: seq<TreePort>, n: seq<TreePort>)
    requires |comm| == |o| == |m| == |n|
    requires AgreementKept(comm, o, m) && Framed(comm, m, n) && SelectedAll(comm, n)
    requires forall q | 0 <= q < |n| && comm[q].present :: m[q].rcvdMsg ==> o[q].rcvdMsg
    ensures Framed(comm, o, n)
  {
  }

  lemma KeptTrans(comm: seq<CommPort>, o: seq<TreePort>, m: seq<TreePort>, n: seq<TreePort>)
    requires |comm| == |o| == |m| == |n|
    requires Framed(comm, o, m) && Framed(comm, m, n)
    ensures Framed(comm, o, n)
    ensures Lower(comm, o, m) && Lower(comm, m, n) ==> Lower(comm, o, n)
  {
  }

  lemma Lowered(comm: seq<CommPort>, o: seq<TreePort>, n: seq<TreePort>)
    requires |comm| == |o| == |n| && Lower(comm, o, n)
    ensures PendingPorts(comm, n) <= PendingPorts(comm, o)
  {
  }

  /** A call without a packet on a selected tree. */
  lemma SelectedKept(k: Kind, comm: seq<CommPort>, o: seq<TreePort>, n: seq<TreePort>)
    requires |comm| == |o| == |n| && SelectedAll(comm, o) && LinkedBut(k, comm, n, |n|)
    requires Framed(comm, o, n) && Lower(comm, o, n)
    ensures SelectedAll(comm, n) && PendingPorts(comm, n) <= PendingPorts(comm, o)
  {
  }

  /** What one call keeps of the ports `o` it started from, while port p is on its way. */
  ghost predicate OnTheWay(k: Kind, cist: seq<TreePort>, comm: seq<CommPort>,
                           o: seq<TreePort>, n: seq<TreePort>, p: LPort)
    requires |comm| == |o| == |n| == |cist|
  {
    && LinkedBut(k, comm, n, p)
    && Framed(comm, o, n)
    && QuietKept(k.isCist, cist, comm, o, n, p)
  }

  /** Port p takes a step of its own. */
  lemma OneStep(k: Kind, cist: seq<TreePort>, cist': seq<TreePort>, comm: seq<CommPort>,
                o: seq<TreePort>, m: seq<TreePort>, p: LPort, tp: TreePort, changing: set<LPort>)
    requires |comm| == |o| == |m| == |cist| == |cist'| && p < |comm| && comm[p].present
    requires k.isCist || cist == cist'
    requires OnTheWay(k, cist, comm, o, m, p)
    requires (Agrees(comm[p], m[p]) ==> Agrees(comm[p], tp)) && (tp.rcvdMsg ==> m[p].rcvdMsg)
    requires m[p].selected ==> tp.selected
    ensures OnTheWay(k, cist', comm, o, m[p := tp], p)
    ensures SettledBut(k, comm, m, p) ==> SettledBut(k, comm, m[p := tp], p)
    ensures AgreesBut(comm, m, changing) ==> AgreesBut(comm, m[p := tp], changing)
  {
    assert forall q | 0 <= q < |m| && q != p :: m[p := tp][q] == m[q];
  }

  /** A step of port p does not raise what the call lowers. */
  lemma OneLower(comm: seq<CommPort>, o: seq<TreePort>, m: seq<TreePort>, p: LPort, tp: TreePort)
    requires |comm| == |o| == |m| && p < |comm| && comm[p].present && Lower(comm, o, m)
    requires Pending(comm[p], tp) ==> Pending(comm[p], m[p])
    requires !tp.pim.SuperiorDesignated? && Lasting(m[p], tp)
    ensures Lower(comm, o, m[p := tp])
  {
    var n := m[p := tp];
    assert PendingPorts(comm, n) <= PendingPorts(comm, m);
  }

  /** What role selection keeps, after one port was made ready for it. */
  lemma LowerAfter(comm: seq<CommPort>, o: seq<TreePort>, p: LPort, tp: TreePort, n: seq<TreePort>)
    requires |comm| == |o| == |n| && p < |comm| && comm[p].present && Lower(comm, o[p := tp], n)
    requires Pending(comm[p], tp) ==> Pending(comm[p], o[p])
    requires !tp.pim.SuperiorDesignated? && (tp.infoIs.InfoReceived? ==> o[p].infoIs.InfoReceived?)
    requires comm[p].enabled ==> HeldOn(o[p], tp)
    ensures Lower(comm, o, n) && (!tp.infoIs.InfoReceived? ==> !n[p].infoIs.InfoReceived?)
  {
    assert PendingPorts(comm, o[p := tp]) <= PendingPorts(comm, o);
  }

  lemma FramedMsg(comm: seq<CommPort>, o: seq<TreePort>, n: seq<TreePort>, p: LPort)
    requires |comm| == |o| == |n| && Framed(comm, o, n) && p < |n| && comm[p].present
    ensures n[p].rcvdMsg ==> o[p].rcvdMsg
  {
  }

  /** Role selection in the middle of a call leaves every port settled. */
  lemma RestStep(k: Kind, cist: seq<TreePort>, comm: seq<CommPort>,
                 o: seq<TreePort>, m: seq<TreePort>, n: seq<TreePort>, p: LPort, changing: set<LPort>)
    requires |comm| == |o| == |m| == |n| == |cist|
    requires LinkedBut(k, comm, n, |n|) && QuietAll(k.isCist, cist, comm, n)
    requires Framed(comm, o, m) && Framed(comm, m, n)
    ensures OnTheWay(k, cist, comm, o, n, p)
    ensures SettledBut(k, comm, n, |n|) && AgreesBut(comm, n, changing)
    ensures Lower(comm, o, m) && Lower(comm, m, n) ==> Lower(comm, o, n)
  {
    KeptTrans(comm, o, m, n);
  }

  /** Role selection after one port was made ready for it. */
  lemma RestAfter(k: Kind, cist: seq<TreePort>, comm: seq<CommPort>, o: seq<TreePort>, m: seq<TreePort>,
                  m': seq<TreePort>, n: seq<TreePort>, p: LPort, changing: set<LPort>)
    requires |comm| == |o| == |m| == |m'| == |n| == |cist|
    requires Framed(comm, o, m) && AgreementKept(comm, m, m') && Framed(comm, m', n)
    requires forall q | 0 <= q < |n| && comm[q].present :: m'[q].rcvdMsg ==> m[q].rcvdMsg
    requires LinkedBut(k, comm, n, |n|) && QuietAll(k.isCist, cist, comm, n) && SelectedAll(comm, n)
    ensures OnTheWay(k, cist, comm, o, n, p)
    ensures SettledBut(k, comm, n, |n|) && SettledBut(k, comm, n, p) && AgreesBut(comm, n, changing)
    ensures p < |n| && comm[p].present ==> Linked(k, n[p]) && Quiet(k.isCist, cist[p], comm[p], n[p])
  {
    RestFramed(comm, m, m', n);
    RestStep(k, cist, comm, o, m, n, p, changing);
  }

  /** A port after PIM under BEGIN: disabled, and asking for reselection unless it was
      disabled before. */
  function BeginPort(tp: TreePort): TreePort {
    if tp.pim.Disabled? then tp
    else tp.(pim := Disabled, rcvdMsg := false, rcvdInfoWhile := 0, infoIs := InfoDisabled,
             reselect := true, selected := false)
  }

  /** A port that PIM has taken through BEGIN. */
  ghost predicate BeginDone(tp: TreePort) {
    tp.pim.Disabled? && tp.infoIs.InfoDisabled? && !tp.rcvdMsg && !tp.loopInconsistent
  }

  ghost predicate BegunAll(comm: seq<CommPort>, ports: seq<TreePort>)
    requires |comm| == |ports|
  {
    forall q | 0 <= q < |comm| && comm[q].present :: BeginDone(ports[q])
  }

  /** PRS under BEGIN selects every port that PIM has already disabled. */
  ghost predicate BeginSelected(comm: seq<CommPort>, o: seq<TreePort>, n: seq<TreePort>)
    requires |comm| == |o| == |n|
  {
    forall p | 0 <= p < |n| && comm[p].present && o[p].pim.Disabled? ::
      n[p] == o[p].(reselect := false, selected := true, updtInfo := n[p].updtInfo, selectedRole := n[p].selectedRole)
  }

  lemma RolesBegun(isCist: bool, cist: seq<TreePort>, comm: seq<CommPort>, o: seq<TreePort>, n: seq<TreePort>)
    requires |comm| == |o| == |n| == |cist| && ReselectedAll(isCist, cist, comm, o, n)
    ensures BeginSelected(comm, o, n) && PendingPorts(comm, n) == PendingPorts(comm, o)
  {
    forall p | 0 <= p < |n| && comm[p].present
      ensures Pending(comm[p], n[p]) == Pending(comm[p], o[p])
    {
      assert Reselected(isCist, cist[p], comm[p], o[p], n[p]);
    }
  }

  /** A state entered on a message that does not restart the ageing time. */
  ghost predicate Dismissing(tp: TreePort) {
    tp.pim.InferiorDesignated? || tp.pim.NotDesignated? || tp.pim.Other?
  }

  /** A pass of a packet that does not touch the MSTIs inside the region: the message is taken, is
      dismissed, or has been. */
  ghost predicate Mild(receives: bool, o: TreePort) {
    receives || (o.pim.Receive? && Dismisses(o.rcvdInfo)) || Dismissing(o)
  }

  predicate Dismisses(r: RcvdInfo) {
    r.RcvdInferior? || r.RcvdInferiorRootAlternate? || r.RcvdOther?
  }

  /** Such a message leads to CURRENT without the ageing test: if the time of the port had run
      out before, that is overlooked. */
  predicate Overlooked(pkt: Packet, tp: TreePort) {
    pkt.Packet? && Dismisses(RcvInfo(pkt, tp)) && RunOut(tp)
  }

  /** A superior message whose information is firm and has time has been recorded. */
  ghost predicate Recorded(pkt: Packet, r: RcvdInfo, tp: TreePort) {
    pkt.Packet? && Firm(pkt.vectors) && r.RcvdSuperior? && pkt.ageing != 0 ==>
      Holds(tp) && tp.rcvdInfoWhile == pkt.ageing && tp.vectors == pkt.vectors
  }

  /** What the loop knows of its port: a port in RECEIVE has its message classified. */
  ghost predicate OnPacket(tp: TreePort) {
    && (tp.pim.Receive? ==> tp.rcvdMsg && RcvdInfoOk(tp))
    && (Dismissing(tp) ==> !tp.rcvdMsg)
  }

  ghost predicate Took(pkt: Packet, o: TreePort, n: TreePort) {
    pkt.Packet? ==> Recorded(pkt, RcvInfo(pkt, o), n)
  }

  /** How far the loop has got with a packet that found the port as `o`: `took` tells whether
      it has been taken. */
  ghost predicate Tracked(pkt: Packet, first: bool, took: bool, receives: bool, o: TreePort, tp: TreePort, next: bool) {
    && OnPacket(tp)
    && (first ==> next && !took && tp == o)
    && (pkt.Packet? && first ==> !tp.pim.SuperiorDesignated?)
    && (pkt.Packet? && !first && !took ==> !receives && (next ==> tp.pim.Update?))
    && (took ==> pkt.Packet? && receives && (tp.pim.Receive? || !tp.rcvdMsg))
    && (tp.pim.Receive? || tp.pim.RepeatedDesignated? || Dismissing(tp) ==> took)
    && (took && tp.pim.Receive? ==> tp.rcvdInfo == RcvInfo(pkt, o))
    && (took && (tp.pim.Receive? || Dismissing(tp)) ==> RunOut(tp) == RunOut(o))
    && (took && Dismissing(tp) ==> Dismisses(RcvInfo(pkt, o)))
    && (took && next && !tp.pim.Receive? && !Dismissing(tp) ==> !Dismisses(RcvInfo(pkt, o)))
    && (took && !tp.pim.Receive? ==> Recorded(pkt, RcvInfo(pkt, o), tp))
  }

  /** The port of the call before and after one pass of the switch of mstp_pimSm. */
  ghost predicate Stepped(pkt: Packet, receives: bool, o: TreePort, n: TreePort, next: bool) {
    && OnPacket(n)
    && n.pim.Receive? == receives
    && (n.rcvdMsg ==> o.rcvdMsg)
    && (o.pim.Receive? ==> !n.rcvdMsg)
    && (n.pim.RepeatedDesignated? || Dismissing(n) ==> o.pim.Receive?)
    && (next && !o.pim.Receive? ==> Rank(n.pim) < Rank(o.pim))
    && (n.pim.Receive? ==> pkt.Packet? && n.rcvdInfo == RcvInfo(pkt, o) && RunOut(n) == RunOut(o))
    && (o.pim.Receive? ==> next && Dismissing(n) == Dismisses(o.rcvdInfo))
    && (Dismissing(o) ==> !next)
    && (Dismissing(n) ==> RunOut(n) == RunOut(o))
    && (o.pim.Receive? ==> Recorded(pkt, o.rcvdInfo, n))
    && (!o.pim.Receive? ==> HeldOn(o, n))
  }

  lemma TrackedBegin(pkt: Packet, receives: bool, o: TreePort)
    requires (o.pim.Disabled? || o.pim.Aged? || o.pim.Current? || o.pim.SuperiorDesignated?)
    requires pkt.Packet? ==> !o.pim.SuperiorDesignated?
    ensures Tracked(pkt, true, false, receives, o, o, true)
  {
  }

  lemma TrackedAt(pkt: Packet, first: bool, took: bool, receives: bool, o: TreePort, tp: TreePort, next: bool)
    requires Tracked(pkt, first, took, receives, o, tp, next)
    ensures OnPacket(tp) && (tp.pim.Receive? ==> pkt.Packet?) && (first ==> !took && tp == o)
    ensures !next && !tp.pim.Receive? ==>
      took == (pkt.Packet? && receives) && (took ==> !tp.rcvdMsg && Took(pkt, o, tp))
  {
  }

  /** One pass takes the loop on, with a smaller rank unless it is over. */
  lemma TrackedOn(pkt: Packet, first: bool, took: bool, receives: bool, was: TreePort, o: TreePort, receives': bool,
                  n: TreePort, next: bool)
    requires Tracked(pkt, first, took, receives, was, o, true) && Stepped(pkt, receives', o, n, next)
    requires receives' ==> pkt.Packet? && o.pim.Current? && o.rcvdMsg
    requires first ==> receives' == (pkt.Packet? && receives) && (pkt.Packet? ==> Rank(o.pim) <= 2)
    requires n.pim.Receive? ==> next
    ensures Tracked(pkt, false, took || n.pim.Receive?, receives, was, n, next)
    ensures n.pim.Receive? == receives' && (receives' ==> !took)
    ensures !next ==>
      (Dismissing(o) && RunOut(o) <==> (took || n.pim.Receive?) && Overlooked(pkt, was))
    ensures pkt.Packet? && receives && Dismisses(RcvInfo(pkt, was)) ==> Mild(receives', o)
    ensures (n.rcvdMsg ==> o.rcvdMsg) && (next && n.rcvdMsg == o.rcvdMsg ==> Rank(n.pim) < Rank(o.pim))
  {
  }

  function Updated(tp: TreePort): TreePort {
    tp.(pim := Update, updtInfo := false, infoIs := InfoMine, vectors := Any)
  }

  ghost predicate RcvdInfoOk(tp: TreePort) {
    !tp.rcvdInfo.RcvdUnknown? && (tp.rcvdInfo.RcvdRepeated? ==> tp.infoIs.InfoReceived?)
  }

  /** Where the classification of a message leads. A superior message takes its port through
      role selection, and on to CURRENT or, on an MSTI that ages at once, to AGED. */
  ghost predicate Outcome(r: RcvdInfo, s: PimState) {
    match r
    case RcvdSuperior => s.Current? || s.Aged?
    case RcvdRepeated => s.RepeatedDesignated?
    case RcvdInferior => s.InferiorDesignated?
    case RcvdInferiorRootAlternate => s.NotDesignated?
    case RcvdOther => s.Other?
    case RcvdUnknown => false
  }

  /** The passes from CURRENT and AGED. */
  lemma UpdatedSteps(pkt: Packet, o: TreePort)
    requires (o.pim.Current? || o.pim.Aged?) && o.updtInfo
    ensures Stepped(pkt, false, o, Updated(o), true)
  {
  }

  lemma ReceivedSteps(pkt: Packet, o: TreePort)
    requires pkt.Packet? && o.pim.Current? && o.rcvdMsg
    ensures Stepped(pkt, true, o, o.(pim := Receive, rcvdInfo := RcvInfo(pkt, o)), true)
  {
  }

  lemma RestedSteps(pkt: Packet, o: TreePort, n: TreePort)
    requires (n.pim.Disabled? || n.pim.Aged? || n.pim.Current?) && !o.pim.Receive? && !Dismissing(o)
    requires (n.rcvdMsg ==> o.rcvdMsg) && HeldOn(o, n)
    ensures Stepped(pkt, false, o, n, false)
  {
  }

  /** A port `o` in RECEIVE and what the transition for its message makes of it. */
  ghost predicate Landed(pkt: Packet, o: TreePort, n: TreePort) {
    match o.rcvdInfo
    case RcvdSuperior => !n.rcvdMsg && (n.pim.Current? || n.pim.Aged?) && Recorded(pkt, RcvdSuperior, n)
    case RcvdRepeated => n == o.(pim := RepeatedDesignated, rcvdInfoWhile := n.rcvdInfoWhile, rcvdMsg := false)
    case RcvdInferior => n == o.(pim := InferiorDesignated, rcvdMsg := false)
    case RcvdInferiorRootAlternate => n == o.(pim := NotDesignated, rcvdMsg := false)
    case RcvdOther => n == o.(pim := Other, rcvdMsg := false)
    case RcvdUnknown => false
  }

  lemma LandedSteps(pkt: Packet, o: TreePort, n: TreePort)
    requires pkt.Packet? && o.pim.Receive? && o.rcvdMsg && RcvdInfoOk(o) && Landed(pkt, o, n)
    ensures Stepped(pkt, false, o, n, true) && Outcome(o.rcvdInfo, n.pim)
  {
  }

  /** A port inside a PIM call, in a state that PIM only passes through. */
  ghost predicate Passing(k: Kind, tp: TreePort) {
    && (tp.pim.Update? || tp.pim.Receive? || tp.pim.RepeatedDesignated? || tp.pim.InferiorDesignated?
        || tp.pim.NotDesignated? || tp.pim.Other?)
    && (tp.infoIs.InfoReceived? || tp.infoIs.InfoMine?)
    && (tp.pim.Update? ==> tp.infoIs.InfoMine?)
    && tp.selected && !tp.reselect && !tp.updtInfo
    && (tp.infoIs.InfoReceived? ==> k.Admits(tp.vectors) && (k.isCist ==> Placed(tp)))
  }

  // ---------------------------------------------------------------------------
  // The ports of all trees, from one event to the next
  // ---------------------------------------------------------------------------

  type AllPorts = map<MstId, seq<TreePort>>

  type Spots = set<(MstId, LPort)>

  ghost predicate SameSize(comm: seq<CommPort>, o: AllPorts, n: AllPorts) {
    o.Keys == n.Keys && forall u | u in o :: |o[u]| == |n[u]| == |comm|
  }

  /** Nothing happens to the enabled ports outside `but`: see Lasting. */
  ghost predicate LastAll(comm: seq<CommPort>, o: AllPorts, n: AllPorts, but: Spots) {
    && SameSize(comm, o, n)
    && forall u, q: LPort | u in o && q < |comm| && comm[q].present && comm[q].enabled && (u, q) !in but ::
         Lasting(o[u][q], n[u][q])
  }

  /** Loop guard takes hold of no port outside `but`. */
  ghost predicate NoneGuarded(comm: seq<CommPort>, o: AllPorts, n: AllPorts, but: Spots) {
    && SameSize(comm, o, n)
    && forall u, q: LPort | u in o && q < |comm| && comm[q].present && (u, q) !in but && n[u][q].loopInconsistent ::
         o[u][q].loopInconsistent
  }

  /** The messages that are up on the enabled ports, but for those in `but`, are the ones in
      `waiting`. */
  ghost predicate HeardAll(comm: seq<CommPort>, ports: AllPorts, waiting: Spots, but: set<LPort>) {
    forall u, q: LPort | u in ports && q < |comm| && q < |ports[u]| && comm[q].present && comm[q].enabled
      && q !in but :: ports[u][q].rcvdMsg <==> (u, q) in waiting
  }

  /** Loop guard holds the port, or it is up, hears no message, and has information of which the
      time has run out. */
  ghost predicate Suspect(comm: seq<CommPort>, ports: AllPorts, waiting: Spots, t: MstId, q: LPort) {
    && t in ports && q < |comm| && q < |ports[t]| && comm[q].present
    && (ports[t][q].loopInconsistent || (comm[q].enabled && RunOut(ports[t][q]) && (t, q) !in waiting))
  }

  lemma LastTrans(comm: seq<CommPort>, o: AllPorts, m: AllPorts, n: AllPorts, b1: Spots, b2: Spots, b: Spots)
    requires LastAll(comm, o, m, b1) && LastAll(comm, m, n, b2) && b1 <= b && b2 <= b
    ensures LastAll(comm, o, n, b)
  {
    forall u, q: LPort | u in o && q < |comm| && comm[q].present && comm[q].enabled && (u, q) !in b
      ensures Lasting(o[u][q], n[u][q])
    {
      assert Lasting(o[u][q], m[u][q]) && Lasting(m[u][q], n[u][q]);
    }
  }

  lemma GuardTrans(comm: seq<CommPort>, o: AllPorts, m: AllPorts, n: AllPorts, b1: Spots, b2: Spots, b: Spots)
    requires NoneGuarded(comm, o, m, b1) && NoneGuarded(comm, m, n, b2) && b1 <= b && b2 <= b
    ensures NoneGuarded(comm, o, n, b)
  {
  }

  /** One port of one tree is written. */
  lemma LastOne(comm: seq<CommPort>, o: AllPorts, t: MstId, p: LPort, tp: TreePort)
    requires t in o && p < |comm| && forall u | u in o :: |o[u]| == |comm|
    ensures var n := o[t := o[t][p := tp]];
      && LastAll(comm, o, n, {(t, p)}) && NoneGuarded(comm, o, n, {(t, p)})
      && ((tp.loopInconsistent ==> o[t][p].loopInconsistent) ==> NoneGuarded(comm, o, n, {}))
  {
  }

  lemma LastSelf(comm: seq<CommPort>, o: AllPorts, b1: Spots, b2: Spots)
    requires forall u | u in o :: |o[u]| == |comm|
    ensures LastAll(comm, o, o, b1) && NoneGuarded(comm, o, o, b2) && NoneGuarded(comm, o, o, {})
  {
  }

  lemma SamePut(o: AllPorts, t: MstId, p: LPort)
    requires t in o && p < |o[t]|
    ensures o[t := o[t][p := o[t][p]]] == o
  {
    assert o[t][p := o[t][p]] == o[t];
  }

  lemma HeardLast(comm: seq<CommPort>, o: AllPorts, n: AllPorts, waiting: Spots, b: Spots, p: LPort)
    requires LastAll(comm, o, n, b) && forall w | w in b :: w.1 == p
    ensures HeardAll(comm, o, waiting, {p}) ==> HeardAll(comm, n, waiting, {p})
    ensures b == {} && HeardAll(comm, o, waiting, {}) ==> HeardAll(comm, n, waiting, {})
  {
    forall u, q: LPort | u in n && q < |comm| && comm[q].present && comm[q].enabled && (u, q) !in b
      ensures n[u][q].rcvdMsg == o[u][q].rcvdMsg
    {
      assert Lasting(o[u][q], n[u][q]);
    }
  }

  /** The messages of a port that goes down wait no longer; one that goes up has none. */
  lemma HeardChanged(comm: seq<CommPort>, ports: AllPorts, waiting: Spots, p: LPort, cp: CommPort)
    requires p < |comm| && HeardAll(comm, ports, waiting, {}) && comm[p].enabled != cp.enabled && comm[p].present
    requires cp.enabled ==> forall t | t in ports && p < |ports[t]| :: !ports[t][p].rcvdMsg && (t, p) !in waiting
    ensures HeardAll(comm[p := cp], ports, set w | w in waiting && (cp.enabled || w.1 != p), {})
  {
  }

  /** All ports are down, and loop guard holds none. */
  lemma NothingHeard(comm: seq<CommPort>, ports: AllPorts)
    requires forall q | 0 <= q < |comm| && comm[q].present :: !comm[q].enabled
    requires forall t, q: LPort | t in ports && q < |comm| && q < |ports[t]| && comm[q].present ::
      !ports[t][q].loopInconsistent
    ensures HeardAll(comm, ports, {}, {}) && forall t: MstId, q: LPort :: !Suspect(comm, ports, {}, t, q)
  {
  }

  /** Where the last BPDU came from, and whether Port Receive is in RECEIVE, does not matter to a
      tree at rest. */
  lemma SameService(k: Kind, t: MstId, comm: seq<CommPort>, comm': seq<CommPort>, ports: seq<TreePort>,
                    changing: set<LPort>, marks: Marks)
    requires |comm| == |comm'| == |ports|
    requires forall q | 0 <= q < |comm| :: comm'[q].present == comm[q].present && comm'[q].enabled == comm[q].enabled
    requires AllSettled(k, t, comm, ports, changing, marks)
    ensures AllSettled(k, t, comm', ports, changing, marks)
  {
    forall q: LPort | q < |comm| && q !in changing && comm'[q].present
      ensures Agrees(comm'[q], ports[q])
    {
      assert Agrees(comm[q], ports[q]);
    }
  }

  lemma SameHeard(comm: seq<CommPort>, comm': seq<CommPort>, ports: AllPorts, waiting: Spots, but: set<LPort>)
    requires |comm| == |comm'| && HeardAll(comm, ports, waiting, {})
    requires forall q | 0 <= q < |comm| :: comm'[q].present == comm[q].present && comm'[q].enabled == comm[q].enabled
    ensures HeardAll(comm', ports, waiting, but)
  {
  }

  /** A port that goes away takes its suspicion with it. */
  lemma HeardRemoved(comm: seq<CommPort>, ports: AllPorts, waiting: Spots, p: LPort, cp: CommPort)
    requires p < |comm| && !cp.present && HeardAll(comm, ports, waiting, {})
    ensures HeardAll(comm[p := cp], ports, waiting, {})
    ensures forall t: MstId, q: LPort | Suspect(comm[p := cp], ports, waiting, t, q) ::
              Suspect(comm, ports, waiting, t, q)
  {
  }

  lemma SuspectFacts(comm: seq<CommPort>, ports: AllPorts, waiting: Spots, t: MstId, q: LPort)
    requires Suspect(comm, ports, waiting, t, q)
    ensures t in ports && q < |comm| && q < |ports[t]| && comm[q].present
  {
  }

  /** A tick without loop guard. */
  lemma SuspectOne(comm: seq<CommPort>, o: AllPorts, n: AllPorts, waiting: Spots, t: MstId, p: LPort)
    requires Suspect(comm, n, waiting, t, p) && NoneGuarded(comm, o, n, {})
    requires comm[p].enabled && RunOut(n[t][p]) && !o[t][p].loopInconsistent && (t, p) !in waiting ==> RunOut(o[t][p])
    ensures Suspect(comm, o, waiting, t, p)
  {
  }

  /** No other port comes under suspicion. */
  lemma SuspectKept(comm: seq<CommPort>, o: AllPorts, w: Spots, comm': seq<CommPort>, n: AllPorts, w': Spots,
                    b1: Spots, b2: Spots, t: MstId, q: LPort)
    requires |comm| == |comm'| && LastAll(comm', o, n, b1) && NoneGuarded(comm', o, n, b2)
    requires (t, q) !in b1 + b2 && Suspect(comm', n, w', t, q)
    requires comm[q].present && (comm'[q].enabled && RunOut(o[t][q]) ==> comm[q].enabled)
    requires (t, q) in w && comm'[q].enabled ==> (t, q) in w'
    ensures Suspect(comm, o, w, t, q)
  {
    if !n[t][q].loopInconsistent {
      assert Lasting(o[t][q], n[t][q]);
    }
  }

  /** The port one second on, if that does not kick PIM. */
  function SecondOn(tp: TreePort, guarded: bool): TreePort {
    if tp.rcvdInfoWhile == 0 then tp
    else tp.(rcvdInfoWhile := tp.rcvdInfoWhile - 1,
             loopInconsistent := tp.loopInconsistent || (tp.rcvdInfoWhile == 1 && guarded))
  }

  /** The timer runs out, and loop guard does not hold the port. */
  predicate Kicks(tp: TreePort, guarded: bool, isRoot: bool) {
    tp.rcvdInfoWhile == 1 && (isRoot || !(guarded || tp.loopInconsistent))
  }

  /** An enabled MSTI port on the boundary of the region holds its own information. */
  predicate Deserted(cist: TreePort, comm: CommPort, tp: TreePort) {
    comm.enabled && Edge(cist, comm) && tp.infoIs.InfoReceived? && tp.vectors.Own? && !tp.rcvdMsg
  }

  /** A port is written between events, in a way PIM cannot see: its ageing time, its message,
      and loop guard. */
  predicate Unseen(o: TreePort, n: TreePort) {
    && n == o.(rcvdInfoWhile := n.rcvdInfoWhile, rcvdMsg := n.rcvdMsg, loopInconsistent := n.loopInconsistent)
    && (o.pim.Disabled? ==> n.rcvdMsg == o.rcvdMsg)
  }

  lemma UnseenSettled(k: Kind, t: MstId, comm: seq<CommPort>, o: seq<TreePort>, changing: set<LPort>, p: LPort,
                      tp: TreePort)
    requires |comm| == |o| && p < |o| && comm[p].present && Unseen(o[p], tp)
    requires AllSettled(k, t, comm, o, changing, NO_MARKS)
    ensures AllSettled(k, t, comm, o[p := tp], changing, NO_MARKS)
  {
    assert Settled(k, o[p]) && Settled(k, tp);
  }

  lemma HeardOne(comm: seq<CommPort>, o: AllPorts, waiting: Spots, t: MstId, p: LPort, tp: TreePort)
    requires t in o && p < |o[t]|
    ensures var n := o[t := o[t][p := tp]];
      && (HeardAll(comm, o, waiting, {p}) ==> HeardAll(comm, n, waiting, {p}))
      && (HeardAll(comm, o, waiting, {}) && tp.rcvdMsg == o[t][p].rcvdMsg ==> HeardAll(comm, n, waiting, {}))
  {
  }

  /** A port that has been taken through BEGIN alone is settled among the others. */
  lemma BegunPort(k: Kind, t: MstId, comm: seq<CommPort>, ports: seq<TreePort>, p: LPort, tp: TreePort)
    requires |comm| == |ports| && p < |comm| && tp.pim.PimUnknown? && !tp.updtInfo
    requires AllSettled(k, t, comm, ports, {}, NO_MARKS)
    ensures var comm', ports' := comm[p := CommPort(true, false, false, false)], ports[p := BeginPort(tp)];
      AllSettled(k, t, comm', ports', {}, NO_MARKS)
  {
  }

  /** The port goes up or down; no tree has seen it yet. One that goes up has no message. */
  lemma ChangedPort(k: Kind, t: MstId, comm: seq<CommPort>, ports: seq<TreePort>, p: LPort, cp: CommPort)
    requires |comm| == |ports| && p < |comm| && comm[p].present && cp.present && cp.enabled != comm[p].enabled
    requires AllSettled(k, t, comm, ports, {}, NO_MARKS)
    ensures AllSettled(k, t, comm[p := cp], ports, {p}, NO_MARKS)
    ensures cp.enabled ==> !ports[p].rcvdMsg && !RunOut(ports[p])
  {
    assert cp.enabled ==> Settled(k, ports[p]) && Agrees(comm[p], ports[p]);
  }

  /** Every tree has seen the change of port p: if it is up, it rests in CURRENT. */
  lemma AgreedAll(k: Kind, t: MstId, comm: seq<CommPort>, ports: seq<TreePort>, p: LPort)
    requires |comm| == |ports| && p < |comm| && comm[p].present && Agrees(comm[p], ports[p])
    requires AllSettled(k, t, comm, ports, {p}, NO_MARKS)
    ensures AllSettled(k, t, comm, ports, {}, NO_MARKS)
    ensures comm[p].enabled ==> ports[p].pim.Current?
  {
    assert Settled(k, ports[p]) && (comm[p].enabled ==> Rising(ports[p]));
  }

  lemma RemovedPort(k: Kind, t: MstId, comm: seq<CommPort>, ports: seq<TreePort>, p: LPort, cp: CommPort)
    requires |comm| == |ports| && p < |comm| && !cp.present
    requires AllSettled(k, t, comm, ports, {}, NO_MARKS)
    ensures AllSettled(k, t, comm[p := cp], ports, {}, NO_MARKS)
  {
  }

  /** What a BPDU holds for one tree: see Packet; besides, whether it releases loop guard. */
  datatype Message = Message(mstid: MstId, verdict: Verdict, ageing: nat, released: bool, vectors: Vectors)

  /** The packet of a message: see Kind.Admits. */
  function PacketOf(isCist: bool, msg: Message): Packet {
    var vectors := if isCist || !msg.vectors.Foreign? then msg.vectors else msg.vectors.(firm := false);
    Packet(msg.verdict, msg.ageing, vectors)
  }

  /** The instances a BPDU has a message for. */
  ghost function Ids(msgs: seq<Message>): set<MstId> {
    set i | 0 <= i < |msgs| :: msgs[i].mstid
  }

  ghost function Named(internal: bool, msgs: seq<Message>, p: LPort): Spots {
    if internal then set m | m in Ids(msgs) :: (m, p) else {}
  }

  /** No other message is for the same instance. */
  ghost predicate Sole(msgs: seq<Message>, i: nat)
    requires i < |msgs|
  {
    forall j | 0 <= j < |msgs| && j != i :: msgs[j].mstid != msgs[i].mstid
  }

  /** A CIST port whose message is up; loop guard may be released. */
  function Raised(tp: TreePort, msg: Message): TreePort {
    tp.(rcvdMsg := true, loopInconsistent := tp.loopInconsistent && !msg.released)
  }

  lemma RaisedSame(tp: TreePort, msg: Message, pkt: Packet)
    requires pkt.Packet?
    ensures Overlooked(pkt, Raised(tp, msg)) == Overlooked(pkt, tp)
    ensures RcvInfo(pkt, Raised(tp, msg)) == RcvInfo(pkt, tp)
    ensures Raised(tp, msg) == tp.(rcvdMsg := true, loopInconsistent := Raised(tp, msg).loopInconsistent)
  {
  }

  /** An MSTI port before and after PIM got its packets: a message stays up exactly on an AGED
      port, which it leaves in AGED; and no time runs out elsewhere. */
  ghost predicate Answered(o: TreePort, n: TreePort) {
    && (n.rcvdMsg <==> o.rcvdMsg && o.pim.Aged?)
    && (n.rcvdMsg ==> n.pim.Aged?)
    && (RunOut(n) ==> n.rcvdMsg || RunOut(o))
  }

  lemma AnsweredTrans(o: TreePort, m: TreePort, n: TreePort)
    requires Answered(o, m) && Answered(m, n)
    ensures Answered(o, n)
  {
  }

  /** An MSTI port without a message before and after a BPDU. */
  ghost predicate Handled(named: bool, o: TreePort, n: TreePort) {
    && (n.rcvdMsg ==> named && n.pim.Aged? && (o.pim.Aged? || RunOut(o)))
    && (RunOut(n) ==> n.rcvdMsg || RunOut(o))
  }

  /** The message is raised, the CIST gets its packet, and then the MSTI. */
  lemma HandledThrough(named: bool, o: TreePort, m: TreePort, n: TreePort)
    requires !o.rcvdMsg && Lasting(o.(rcvdMsg := named), m)
    requires (m.pim.Aged? ==> m.infoIs.InfoAged?) && !o.infoIs.InfoDisabled? && (o.infoIs.InfoAged? ==> o.pim.Aged?)
    requires if named then Answered(m, n) else n == m
    ensures Handled(named, o, n) && m.rcvdMsg == named
    ensures named && m.pim == o.pim ==> (n.rcvdMsg <==> o.pim.Aged?)
  {
  }

  /** The first i messages have been raised. */
  ghost predicate RaisedSome(comm: seq<CommPort>, o: AllPorts, n: AllPorts, msgs: seq<Message>, i: nat, p: LPort)
    requires i <= |msgs|
  {
    && SameSize(comm, o, n) && p < |comm|
    && forall t | t in o ::
         n[t] == if t != CIST && t in Ids(msgs[..i]) then o[t][p := o[t][p].(rcvdMsg := true)] else o[t]
  }

  lemma IdsNext(msgs: seq<Message>, i: nat)
    requires i < |msgs|
    ensures Ids(msgs[..i + 1]) == Ids(msgs[..i]) + {msgs[i].mstid}
  {
    assert msgs[..i + 1][i] == msgs[i];
    forall m | m in Ids(msgs[..i])
      ensures m in Ids(msgs[..i + 1])
    {
      var j :| 0 <= j < i && msgs[..i][j].mstid == m;
      assert msgs[..i + 1][j].mstid == m;
    }
    assert forall j | 0 <= j < i :: msgs[..i + 1][j] == msgs[..i][j];
  }

  lemma RaisedBegin(comm: seq<CommPort>, o: AllPorts, msgs: seq<Message>, p: LPort)
    requires SameSize(comm, o, o) && p < |comm|
    ensures RaisedSome(comm, o, o, msgs, 0, p)
  {
  }

  lemma RaisedNext(comm: seq<CommPort>, o: AllPorts, n: AllPorts, n': AllPorts, msgs: seq<Message>, i: nat, p: LPort)
    requires i < |msgs| && RaisedSome(comm, o, n, msgs, i, p) && n'.Keys == n.Keys
    requires forall t | t in n ::
      n'[t] == if t == msgs[i].mstid && t != CIST then n[t][p := n[t][p].(rcvdMsg := true)] else n[t]
    ensures RaisedSome(comm, o, n', msgs, i + 1, p)
  {
    hide Ids;
    IdsNext(msgs, i);
  }

  lemma RaisedEnd(comm: seq<CommPort>, o: AllPorts, n: AllPorts, msgs: seq<Message>, p: LPort)
    requires RaisedSome(comm, o, n, msgs, |msgs|, p)
    ensures SameSize(comm, o, n)
    ensures forall t | t in o ::
      n[t] == if t != CIST && t in Ids(msgs) then o[t][p := o[t][p].(rcvdMsg := true)] else o[t]
  {
    assert msgs[..|msgs|] == msgs;
  }

  /** PIM has got the first i packets. */
  ghost predicate AnsweredSome(comm: seq<CommPort>, o: AllPorts, n: AllPorts, msgs: seq<Message>, i: nat, p: LPort)
    requires i <= |msgs|
  {
    && SameSize(comm, o, n) && p < |comm|
    && forall m | m in o && m != CIST :: if m in Ids(msgs[..i]) then Answered(o[m][p], n[m][p]) else n[m] == o[m]
  }

  ghost predicate RecordedSome(comm: seq<CommPort>, o: AllPorts, n: AllPorts, msgs: seq<Message>, i: nat, p: LPort)
    requires i <= |msgs|
  {
    && SameSize(comm, o, n) && p < |comm|
    && forall j | 0 <= j < i && Sole(msgs, j) && msgs[j].mstid in o && msgs[j].mstid != CIST ::
         o[msgs[j].mstid][p].rcvdMsg && !n[msgs[j].mstid][p].rcvdMsg ==>
           Recorded(PacketOf(false, msgs[j]), msgs[j].verdict, n[msgs[j].mstid][p])
  }

  lemma SomeBegin(comm: seq<CommPort>, o: AllPorts, msgs: seq<Message>, p: LPort)
    requires SameSize(comm, o, o) && p < |comm|
    ensures AnsweredSome(comm, o, o, msgs, 0, p) && RecordedSome(comm, o, o, msgs, 0, p)
  {
  }

  lemma SomeNext(comm: seq<CommPort>, o: AllPorts, n: AllPorts, n': AllPorts, msgs: seq<Message>, i: nat, p: LPort)
    requires i < |msgs| && AnsweredSome(comm, o, n, msgs, i, p) && RecordedSome(comm, o, n, msgs, i, p)
    requires SameSize(comm, n, n')
    requires forall t | t in n && (t == CIST || t != msgs[i].mstid) :: n'[t] == n[t]
    requires msgs[i].mstid in n && msgs[i].mstid != CIST ==>
      var m, tp := msgs[i].mstid, n'[msgs[i].mstid][p];
      && Answered(n[m][p], tp)
      && (n[m][p].rcvdMsg && !tp.rcvdMsg ==> Recorded(PacketOf(false, msgs[i]), msgs[i].verdict, tp))
    ensures AnsweredSome(comm, o, n', msgs, i + 1, p) && RecordedSome(comm, o, n', msgs, i + 1, p)
  {
    hide Ids, Answered, Recorded;
    IdsNext(msgs, i);
    var m := msgs[i].mstid;
    if m in o && m in Ids(msgs[..i]) && m != CIST {
      AnsweredTrans(o[m][p], n[m][p], n'[m][p]);
    }
    if m in Ids(msgs[..i]) && Sole(msgs, i) {
      IdsSole(msgs, i);
    }
  }

  lemma IdsSole(msgs: seq<Message>, i: nat)
    requires i < |msgs| && Sole(msgs, i)
    ensures msgs[i].mstid !in Ids(msgs[..i])
  {
  }

  lemma SomeEnd(comm: seq<CommPort>, o: AllPorts, n: AllPorts, msgs: seq<Message>, p: LPort)
    requires AnsweredSome(comm, o, n, msgs, |msgs|, p) && RecordedSome(comm, o, n, msgs, |msgs|, p)
    ensures SameSize(comm, o, n)
    ensures forall m | m in o && m != CIST :: if m in Ids(msgs) then Answered(o[m][p], n[m][p]) else n[m] == o[m]
    ensures forall j | 0 <= j < |msgs| && Sole(msgs, j) && msgs[j].mstid in o && msgs[j].mstid != CIST ::
         o[msgs[j].mstid][p].rcvdMsg && !n[msgs[j].mstid][p].rcvdMsg ==>
           Recorded(PacketOf(false, msgs[j]), msgs[j].verdict, n[msgs[j].mstid][p])
  {
    assert msgs[..|msgs|] == msgs;
  }

  lemma NamedAt(msgs: seq<Message>, p: LPort, i: nat)
    requires i < |msgs|
    ensures (msgs[i].mstid, p) in Named(true, msgs, p)
  {
    assert msgs[i].mstid in Ids(msgs);
  }

  lemma LastAt(comm: seq<CommPort>, o: AllPorts, n: AllPorts, b: Spots, u: MstId, q: LPort)
    requires LastAll(comm, o, n, b) && u in o && q < |comm| && comm[q].present && comm[q].enabled && (u, q) !in b
    ensures u in n && q < |o[u]| && q < |n[u]| && Lasting(o[u][q], n[u][q])
  {
  }

  /** 'rcvdMsg' is up on port p for the CIST and, if the BPDU is internal, for every MSTI it has a
      message for; loop guard of the CIST may be released; nothing else has changed. */
  ghost predicate RaisedAll(comm: seq<CommPort>, o: AllPorts, n: AllPorts, p: LPort, cist: Message, internal: bool,
                            msgs: seq<Message>)
  {
    && SameSize(comm, o, n) && p < |comm|
    && forall t | t in o ::
         n[t] == o[t][p := if t == CIST then Raised(o[t][p], cist)
                           else if internal && t in Ids(msgs) then o[t][p].(rcvdMsg := true)
                           else o[t][p]]
  }

  lemma RaisedThrough(comm: seq<CommPort>, o: AllPorts, m: AllPorts, n: AllPorts, p: LPort, cist: Message,
                      internal: bool, msgs: seq<Message>)
    requires SameSize(comm, o, m) && SameSize(comm, m, n) && p < |comm|
    requires forall t | t in o :: m[t] == if t == CIST then o[t][p := Raised(o[t][p], cist)] else o[t]
    requires forall t | t in m ::
      n[t] == if internal && t != CIST && t in Ids(msgs) then m[t][p := m[t][p].(rcvdMsg := true)] else m[t]
    ensures RaisedAll(comm, o, n, p, cist, internal, msgs)
  {
    forall t | t in o
      ensures o[t][p := o[t][p]] == o[t]
    {
    }
  }

  lemma RaisedAt(comm: seq<CommPort>, o: AllPorts, n: AllPorts, p: LPort, cist: Message, internal: bool,
                 msgs: seq<Message>)
    requires RaisedAll(comm, o, n, p, cist, internal, msgs)
    ensures p < |comm| && o.Keys == n.Keys && forall u | u in o :: |o[u]| == |n[u]| == |comm|
    ensures CIST in o ==> n[CIST][p] == Raised(o[CIST][p], cist)
    ensures forall u | u in o :: n[u][p].pim == o[u][p].pim
  {
  }

  /** What the MSTI ports, which heard no message before, are when their packets come. */
  ghost predicate MstisHeard(comm: seq<CommPort>, o: AllPorts, n: AllPorts, p: LPort, internal: bool,
                             msgs: seq<Message>)
  {
    && SameSize(comm, o, n) && p < |comm|
    && forall u | u in o && u != CIST ::
         !o[u][p].rcvdMsg && Lasting(o[u][p].(rcvdMsg := internal && u in Ids(msgs)), n[u][p])
  }

  ghost predicate SameStates(o: AllPorts, n: AllPorts, p: LPort) {
    forall u | u in o && u in n && u != CIST && p < |o[u]| && p < |n[u]| :: n[u][p].pim == o[u][p].pim
  }

  lemma MstisRaised(comm: seq<CommPort>, o: AllPorts, m: AllPorts, n: AllPorts, p: LPort, cist: Message,
                    internal: bool, msgs: seq<Message>)
    requires RaisedAll(comm, o, m, p, cist, internal, msgs) && LastAll(comm, m, n, {(CIST, p)})
    requires comm[p].present && comm[p].enabled && forall t | t in o && p < |o[t]| :: !o[t][p].rcvdMsg
    ensures MstisHeard(comm, o, n, p, internal, msgs)
    ensures (forall u | u in m && u != CIST :: u in n && n[u] == m[u]) ==> SameStates(o, n, p)
  {
    hide Lasting;
    forall u | u in o && u != CIST
      ensures u in n && p < |n[u]| && Lasting(o[u][p].(rcvdMsg := internal && u in Ids(msgs)), n[u][p])
    {
      LastAt(comm, m, n, {(CIST, p)}, u, p);
      assert m[u][p] == o[u][p].(rcvdMsg := internal && u in Ids(msgs));
    }
  }

  lemma LastRaised(comm: seq<CommPort>, o: AllPorts, n: AllPorts, p: LPort, cist: Message, internal: bool,
                   msgs: seq<Message>)
    requires RaisedAll(comm, o, n, p, cist, internal, msgs)
    ensures LastAll(comm, o, n, {(CIST, p)} + Named(internal, msgs, p)) && NoneGuarded(comm, o, n, {})
  {
    assert forall u | u in Ids(msgs) && internal :: (u, p) in Named(internal, msgs, p);
    assert forall u, q: LPort | u in o && q < |comm| && (u, q) !in {(CIST, p)} + Named(internal, msgs, p) ::
        n[u][q] == o[u][q];
  }

  lemma NamedFacts(internal: bool, msgs: seq<Message>, p: LPort)
    ensures forall w | w in Named(internal, msgs, p) :: w.1 == p
  {
  }

  lemma GuardAt(comm: seq<CommPort>, o: AllPorts, n: AllPorts, b: Spots, u: MstId, q: LPort)
    requires NoneGuarded(comm, o, n, b) && u in o && q < |comm| && comm[q].present && (u, q) !in b
    ensures u in n && q < |o[u]| && q < |n[u]| && (n[u][q].loopInconsistent ==> o[u][q].loopInconsistent)
  {
  }

  lemma HeardEnd(comm: seq<CommPort>, ports: AllPorts, o: Spots, n: Spots, p: LPort)
    requires HeardAll(comm, ports, o, {p}) && (forall t | t in ports :: |ports[t]| == |comm|) && p < |comm|
    requires forall w | w in o :: w.1 != p
    requires forall w | w in o :: w in n
    requires forall w | w in n :: w in o || (w.1 == p && w.0 in ports && ports[w.0][p].rcvdMsg)
    requires forall t | t in ports && ports[t][p].rcvdMsg :: (t, p) in n
    ensures HeardAll(comm, ports, n, {})
  {
  }

  /** A BPDU brings no port under suspicion. */
  lemma SuspectsAfter(comm: seq<CommPort>, o: AllPorts, w: Spots, comm': seq<CommPort>, n: AllPorts, w': Spots,
                      b: Spots, p: LPort)
    requires p < |comm| == |comm'| && LastAll(comm', o, n, b) && NoneGuarded(comm', o, n, {})
    requires forall x | 0 <= x < |comm| :: comm'[x].present == comm[x].present && comm'[x].enabled == comm[x].enabled
    requires w <= w' && (forall x | x in w :: x.1 != p) && (forall x | x in b :: x.1 == p)
    requires forall u | u in o && (u, p) in b && RunOut(n[u][p]) :: (u, p) in w' || RunOut(o[u][p])
    ensures forall t: MstId, q: LPort | Suspect(comm', n, w', t, q) :: Suspect(comm, o, w, t, q)
  {
    forall t: MstId, q: LPort | Suspect(comm', n, w', t, q)
      ensures Suspect(comm, o, w, t, q)
    {
      if (t, q) !in b {
        SuspectKept(comm, o, w, comm', n, w', b, {}, t, q);
      }
    }
  }

  /** Nor does a port that goes up or down. */
  lemma SuspectsSwitched(comm: seq<CommPort>, o: AllPorts, w: Spots, n: AllPorts, w': Spots, p: LPort, cp: CommPort)
    requires p < |comm| && LastAll(comm[p := cp], o, n, {}) && NoneGuarded(comm[p := cp], o, n, {})
    requires comm[p].present && cp.present && (cp.enabled ==> forall t | t in o :: !RunOut(o[t][p]))
    requires w' == set x | x in w && (cp.enabled || x.1 != p)
    ensures forall t: MstId, q: LPort | Suspect(comm[p := cp], n, w', t, q) :: Suspect(comm, o, w, t, q)
  {
    forall t: MstId, q: LPort | Suspect(comm[p := cp], n, w', t, q)
      ensures Suspect(comm, o, w, t, q)
    {
      SuspectKept(comm, o, w, comm[p := cp], n, w', {}, {}, t, q);
    }
  }

  lemma RecordedSame(pkt: Packet, o: TreePort, n: TreePort)
    requires pkt.Packet? && Recorded(pkt, RcvInfo(pkt, o), n)
    ensures Recorded(pkt, pkt.verdict, n)
  {
  }

  /** What can happen to a bridge: the port events, one second for one port of one tree, and a
      BPDU with its message for the CIST and those for MSTIs. `discard` tells whether Port
      Receive goes to DISCARD on a disabled port; `guarded` and `isRoot` are what loop guard
      looks at. */
  datatype Event =
    | PortAdded(p: LPort, tp: TreePort)
    | PortRemoved(p: LPort)
    | PortEnabled(p: LPort, enabled: bool, discard: bool)
    | Second(t: MstId, p: LPort, guarded: bool, isRoot: bool)
    | Bpdu(p: LPort, internal: bool, cist: Message, msgs: seq<Message>)

  /** The event takes port p out of service. */
  predicate Ends(e: Event, p: LPort) {
    (e.PortRemoved? && e.p == p) || (e.PortEnabled? && e.p == p && !e.enabled)
  }

  /** Loop guard takes hold of port q of tree t in the event, or held it when the port was added. */
  predicate Guards(e: Event, t: MstId, q: LPort) {
    (e.Second? && e.t == t && e.p == q && e.guarded) || (e.PortAdded? && e.p == q && e.tp.loopInconsistent)
  }

  const NO_PORT_INFO: TreePort := TreePort(
    PimUnknown, InfoUnknown, RcvdUnknown, 0, false, false, false, false, RoleUnknown, false, Any)
}
