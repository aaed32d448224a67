/** The Port Receive and Bridge Detection state machines (src/mstpd_prx_sm.c and
    src/mstpd_bdm_sm.c) of one port, with the timer edgeDelayWhile of src/mstpd_pti_sm.c. */
module PrxBdm {

  datatype PrxState = PrxUnknown | Discard | Receive
  datatype BdmState = BdmUnknown | Edge | NotEdge

  /** What the Bridge Detection machine looks at. */
  datatype Port = Port(
    bdm: BdmState, operEdge: bool, edgeDelayWhile: nat, enabled: bool, adminEdge: bool, autoEdge: bool,
    sendRstp: bool, proposing: bool)

  /** What fits into the uint8_t edgeDelayWhile. */
  function Truncated(n: nat): (r: nat)
    ensures r < 256
  {
    n % 256
  }

  // ---------------------------------------------------------------------------
  // Bridge Detection as a function
  // ---------------------------------------------------------------------------

  /** The condition to leave EDGE. */
  predicate LeavesEdge(p: Port) {
    (!p.enabled && !p.adminEdge) || !p.operEdge
  }

  /** The condition to leave NOT_EDGE. */
  predicate LeavesNotEdge(p: Port) {
    (!p.enabled && p.adminEdge) || (p.edgeDelayWhile == 0 && p.autoEdge && p.sendRstp && p.proposing)
  }

  function ToEdge(p: Port): Port {
    p.(bdm := Edge, operEdge := true)
  }

  function ToNotEdge(p: Port): Port {
    p.(bdm := NotEdge, operEdge := false)
  }

  /** One call of mstp_bdmSm, but for what it makes other machines do. */
  function Bdm(p: Port): Port {
    match p.bdm
    case Edge => if LeavesEdge(p) then ToNotEdge(p) else p
    case NotEdge => if LeavesNotEdge(p) then ToEdge(p) else p
    case BdmUnknown => p
  }

  /** The port as mstp_prxSmReceiveAct hands it to Bridge Detection. */
  function Received(p: Port, migrateTime: nat): Port {
    p.(operEdge := false, edgeDelayWhile := Truncated(migrateTime + 1))
  }

  predicate Accepts(p: Port) {
    p.enabled && !p.bdm.BdmUnknown? && (p.operEdge <==> p.bdm.Edge?)
  }

  /** A BPDU makes every port NOT_EDGE, with a running timer, exactly if MigrateTime + 1 does
      not wrap to 0 in the timer; at 255 a port can turn EDGE again at once. */
  lemma BpduEndsEdge(migrateTime: nat)
    ensures (forall p: Port | Accepts(p) :: Bdm(Received(p, migrateTime)).bdm == NotEdge) <==> migrateTime % 256 != 255
  {
    if migrateTime % 256 == 255 {
      var p := Port(NotEdge, false, 0, true, false, true, true, true);
      assert Accepts(p) && Truncated(migrateTime + 1) == 0;
      assert Bdm(Received(p, migrateTime)).bdm == Edge;
    }
  }

  /** One more than MigrateTime, in the timer. */
  lemma TimerStep(migrateTime: nat)
    ensures Truncated(migrateTime + 1) == if migrateTime % 256 == 255 then 0 else Truncated(migrateTime) + 1
  {
  }

  // ---------------------------------------------------------------------------
  // How long a port waits
  // ---------------------------------------------------------------------------

  /** MigrateTime, a uint32_t, and rootTimes.maxAge, a uint16_t. */
  datatype Times = Times(migrateTime: nat, maxAge: nat)

  datatype Proposal = NoProposal | Propose(pointToPoint: bool)

  /** What the machines that are not modelled do in one call: they leave sendRSTP and
      proposing at some value, and a proposal of the CIST restarts the timer. */
  datatype Others = Others(sendRstp: bool, proposing: bool, proposal: Proposal)

  function Moved(p: Port, o: Others, times: Times): (r: Port)
    ensures r == p.(sendRstp := o.sendRstp, proposing := r.proposing, edgeDelayWhile := r.edgeDelayWhile)
  {
    var q := p.(sendRstp := o.sendRstp, proposing := o.proposing);
    match o.proposal
    case NoProposal => q
    case Propose(pointToPoint) =>
      q.(proposing := true, edgeDelayWhile := StartValue(AtProposal(0, pointToPoint), times))
  }

  /** What started the timer last: the BPDU, or a proposal some ticks after it. */
  datatype Start = AtBpdu | AtProposal(tick: nat, pointToPoint: bool)

  /** The value the timer was started with. */
  function StartValue(start: Start, times: Times): (v: nat)
    ensures v < 256
  {
    match start
    case AtBpdu => Truncated(times.migrateTime + 1)
    case AtProposal(_, pointToPoint) => Truncated(if pointToPoint then times.migrateTime else times.maxAge)
  }

  /** When the timer runs out, in ticks after the BPDU. */
  function Due(start: Start, times: Times): nat {
    (if start.AtProposal? then start.tick else 0) + StartValue(start, times)
  }

  /** A proposal shortens the wait: it comes so early, and with so low a value, that the timer
      runs out before MigrateTime + 1 ticks. */
  predicate Early(start: Start, times: Times) {
    Due(start, times) < StartValue(AtBpdu, times)
  }

  /** A proposal that sets the timer to 0 does not let it run out. */
  predicate Runs(start: Start, times: Times) {
    start.AtProposal? ==> StartValue(start, times) > 0
  }

  /** On a point-to-point link a proposal is early exactly before the first tick after the
      BPDU, on a shared one exactly while maxAge and the ticks so far do not exceed
      MigrateTime. */
  lemma EarlyIff(tick: nat, times: Times)
    ensures !Early(AtBpdu, times)
    ensures Early(AtProposal(tick, true), times) <==> tick == 0 && times.migrateTime % 256 != 255
    ensures Early(AtProposal(tick, false), times) <==>
      tick + Truncated(times.maxAge) <= Truncated(times.migrateTime) && times.migrateTime % 256 != 255
  {
    TimerStep(times.migrateTime);
  }

  /** The port became EDGE `since` ticks after a BPDU was accepted. */
  datatype Turn = Turn(since: nat, start: Start)

  /** Since a BPDU was accepted, `open` until disabling, reconfiguration or EDGE: the ticks
      since then, and what started the timer last. */
  datatype Watch = Watch(open: bool, since: nat, start: Start, turns: seq<Turn>)

  function Restarted(w: Watch, o: Others): Watch {
    match o.proposal
    case NoProposal => w
    case Propose(pointToPoint) => w.(start := AtProposal(w.since, pointToPoint))
  }

  /** The port turns EDGE. */
  function Closed(w: Watch): Watch {
    w.(open := false, turns := w.turns + [Turn(w.since, w.start)])
  }

  /** No port turns EDGE before its timer is due. */
  ghost predicate Patient(turns: seq<Turn>, times: Times) {
    forall i | 0 <= i < |turns| :: Runs(turns[i].start, times) && turns[i].since >= Due(turns[i].start, times)
  }

  /** The port before Bridge Detection looks at its state: BEGIN sets the state. */
  function BdmFrom(p: Port, begin: bool): Port {
    if !begin then p else if p.adminEdge then ToEdge(p) else ToNotEdge(p)
  }

  /** One call of mstp_bdmSm with what it makes the other machines do. */
  function BdmView(p: Port, begin: bool, o: Others, times: Times): Port {
    var from := BdmFrom(p, begin);
    if !begin && Bdm(from).bdm != from.bdm then Moved(Bdm(from), o, times) else Bdm(from)
  }

  function BdmWatch(w: Watch, p: Port, begin: bool, o: Others): Watch {
    var from := BdmFrom(p, begin);
    var v := if w.open && Bdm(from).bdm.Edge? then Closed(w) else w;
    if !begin && Bdm(from).bdm != from.bdm then Restarted(v, o) else v
  }

  function TickView(p: Port, o: Others, times: Times): Port {
    if p.edgeDelayWhile == 1 then BdmView(p.(edgeDelayWhile := 0), false, o, times)
    else p.(edgeDelayWhile := if p.edgeDelayWhile == 0 then 0 else p.edgeDelayWhile - 1)
  }

  function TickWatch(w: Watch, p: Port, o: Others): Watch {
    var v := w.(since := w.since + 1);
    if p.edgeDelayWhile == 1 then BdmWatch(v, p.(edgeDelayWhile := 0), false, o) else v
  }

  // ---------------------------------------------------------------------------
  // Runs
  // ---------------------------------------------------------------------------

  datatype Action =
    | Tick(o: Others)
    | Bpdu(rcvdAnyMsg: bool, b: Others, o: Others)
    | SetEnabled(enabled: bool, b: Others, o: Others, d: Others)
    | SetAutoEdge(autoEdge: bool)
    | ConfigureAdminEdge(adminEdge: bool)
    | RestartBdm
    | OthersMove(o: Others)

  class EdgePort {
    const times: Times
    var prxState: PrxState
    var bdmState: BdmState
    var edgeDelayWhile: nat
    var rcvdBpdu: bool
    var portEnabled: bool
    var operEdge: bool
    var adminEdge: bool
    var autoEdge: bool
    var sendRstp: bool
    var proposing: bool
    ghost var accepted: nat   // runs of the receive action so far
    ghost var watch: Watch

    ghost function View(): Port
      reads this
    {
      Port(bdmState, operEdge, edgeDelayWhile, portEnabled, adminEdge, autoEdge, sendRstp, proposing)
    }

    constructor (times: Times)
      ensures this.times == times && Fits() && prxState == PrxUnknown && !rcvdBpdu && accepted == 0
      ensures View() == Port(BdmUnknown, false, 0, false, false, false, false, false)
      ensures !watch.open && watch.turns == []
    {
      this.times := times;
      prxState, bdmState, edgeDelayWhile := PrxUnknown, BdmUnknown, 0;
      rcvdBpdu, portEnabled, operEdge, adminEdge := false, false, false, false;
      autoEdge, sendRstp, proposing := false, false, false;
      accepted, watch := 0, Watch(false, 0, AtBpdu, []);
    }

    ghost predicate Fits()
      reads this`edgeDelayWhile, this`watch
    {
      edgeDelayWhile < 256 && Patient(watch.turns, times)
    }

    /** What has passed since the BPDU together with what is left on the timer is long
        enough. */
    ghost predicate Timed()
      reads this`edgeDelayWhile, this`watch
    {
      && watch.since + edgeDelayWhile >= Due(watch.start, times)
      && edgeDelayWhile <= StartValue(watch.start, times)
    }

    /** While the window after a BPDU is open, the port is no edge port. */
    ghost predicate Window()
      reads this
    {
      watch.open ==> portEnabled && bdmState.NotEdge? && !operEdge && Timed()
    }

    /** What Bridge Detection finds when it is kicked: 'operEdge' may be down already, and a
        timer at 0 has run out. */
    ghost predicate Kicked()
      reads this
    {
      watch.open ==>
        && portEnabled && !operEdge && Timed()
        && (edgeDelayWhile == 0 ==> Runs(watch.start, times))
    }

    ghost predicate Inv()
      reads this
    {
      && Fits() && Window()
      && !prxState.PrxUnknown? && !bdmState.BdmUnknown?
      && (!portEnabled ==> !rcvdBpdu)
    }

    /** The machines that are not modelled (the proposal is mstp_prtSmDesignatedProposeAct). */
    method OtherMachines(o: Others)
      requires Fits() && (watch.open ==> Timed())
      modifies this`sendRstp, this`proposing, this`edgeDelayWhile, this`watch
      ensures Fits() && (watch.open ==> Timed())
      ensures View() == Moved(old(View()), o, times) && watch == Restarted(old(watch), o)
    {
      sendRstp := o.sendRstp;
      proposing := o.proposing;
      if o.proposal.Propose? {
        proposing := true;
        edgeDelayWhile := Truncated(if o.proposal.pointToPoint then times.migrateTime else times.maxAge);
        watch := watch.(start := AtProposal(watch.since, o.proposal.pointToPoint));
      }
    }

    // -------------------------------------------------------------------------
    // Bridge Detection
    // -------------------------------------------------------------------------

    /** mstp_bdmSmEdgeAct, with the change of state before it. */
    method EdgeAct(begin: bool, o: Others)
      requires Fits() && Kicked() && (watch.open ==> edgeDelayWhile == 0)
      modifies this`bdmState, this`operEdge, this`watch, this`sendRstp, this`proposing, this`edgeDelayWhile
      ensures Fits() && !watch.open
      ensures View() == if begin then ToEdge(old(View())) else Moved(ToEdge(old(View())), o, times)
      ensures var w := old(watch);
        var v := if w.open then Closed(w) else w;
        watch == if begin then v else Restarted(v, o)
    {
      hide StartValue;
      bdmState := Edge;
      operEdge := true;
      if watch.open {
        watch := Closed(watch);
      }
      if !begin {
        OtherMachines(o);
      }
    }

    /** mstp_bdmSmNotEdgeAct, with the change of state before it. */
    method NotEdgeAct(begin: bool, o: Others)
      requires Fits() && Kicked()
      modifies this`bdmState, this`operEdge, this`watch, this`sendRstp, this`proposing, this`edgeDelayWhile
      ensures Fits() && Window()
      ensures View() == if begin then ToNotEdge(old(View())) else Moved(ToNotEdge(old(View())), o, times)
      ensures watch == if begin then old(watch) else Restarted(old(watch), o)
    {
      hide StartValue;
      bdmState := NotEdge;
      operEdge := false;
      if !begin {
        OtherMachines(o);
      }
    }

    /** mstp_bdmSm. BEGIN is set for it alone when the BPDU filter is reconfigured. */
    method BdmSm(begin: bool, o: Others)
      requires Fits() && Kicked() && (!begin ==> !bdmState.BdmUnknown?) && (begin ==> !watch.open)
      modifies this`bdmState, this`operEdge, this`watch, this`sendRstp, this`proposing, this`edgeDelayWhile
      ensures Fits() && Window() && !bdmState.BdmUnknown?
      ensures View() == BdmView(old(View()), begin, o, times) && watch == BdmWatch(old(watch), old(View()), begin, o)
    {
      hide StartValue, Moved, Restarted;
      if begin {
        if adminEdge {
          EdgeAct(true, o);
        } else {
          NotEdgeAct(true, o);
        }
      }
      match bdmState {
        case Edge =>
          if (!portEnabled && !adminEdge) || !operEdge {
            NotEdgeAct(begin, o);
          }
        case NotEdge =>
          if (!portEnabled && adminEdge) || (edgeDelayWhile == 0 && autoEdge && sendRstp && proposing) {
            EdgeAct(begin, o);
          }
        case BdmUnknown => assert false;
      }
    }

    // -------------------------------------------------------------------------
    // Port Receive
    // -------------------------------------------------------------------------

    /** A BPDU that has come in on an enabled port is accepted unless the messages of the one
        before it are still there. */
    ghost predicate AcceptsBpdu(begin: bool, prx: PrxState, rcvd: bool, enabled: bool, anyMsg: bool) {
      !begin && rcvd && enabled && (prx.Discard? || (prx.Receive? && !anyMsg))
    }

    /** mstp_prxSm: the receive action runs at most once, and never on a disabled port. Without
        a packet it may not be called while one is waiting on an enabled port. */
    method PrxSm(pkt: bool, begin: bool, rcvdAnyMsg: bool, b: Others, o: Others)
      requires Fits() && Window() && !bdmState.BdmUnknown?
      requires (begin ==> !watch.open) && (!begin ==> !prxState.PrxUnknown?)
      requires pkt || begin || !rcvdBpdu || !portEnabled
      modifies this`prxState, this`bdmState, this`operEdge, this`edgeDelayWhile, this`rcvdBpdu, this`sendRstp,
        this`proposing, this`accepted, this`watch
      ensures Inv()
      ensures var accepts := AcceptsBpdu(begin, old(prxState), old(rcvdBpdu), portEnabled, rcvdAnyMsg);
        && accepted == old(accepted) + (if accepts then 1 else 0)
        && (accepts ==> prxState == Receive && !rcvdBpdu && Handed(old(View()), old(watch), b, o))
        && (!accepts && portEnabled && !begin ==>
              View() == old(View()) && watch == old(watch) && rcvdBpdu == old(rcvdBpdu) && prxState == old(prxState))
      ensures begin ==> View() == old(View()).(edgeDelayWhile := StartValue(AtProposal(0, true), times))
      ensures begin ==> watch == old(watch)
      ensures begin ==> prxState == Discard && !rcvdBpdu
      ensures !portEnabled && !old(watch.open) ==> !watch.open && watch.turns == old(watch.turns)
    {
      hide StartValue, Handed, Patient, Timed, Truncated;
      GeneralCond(begin, b, o);
      var next := true;
      ghost var accepts := AcceptsBpdu(begin, old(prxState), old(rcvdBpdu), portEnabled, rcvdAnyMsg);
      ghost var took := false;
      while next
        invariant Inv()
        invariant accepted == old(accepted) + (if took then 1 else 0)
        invariant took ==> accepts && prxState == Receive && !rcvdBpdu && Handed(old(View()), old(watch), b, o)
        invariant !took ==> rcvdBpdu == (old(rcvdBpdu) && portEnabled && !begin)
        invariant !took && rcvdBpdu ==> prxState == old(prxState)
        invariant !took && portEnabled && !begin ==>
          View() == old(View()) && watch == old(watch) && prxState == old(prxState)
        invariant begin ==> !took && watch == old(watch) && prxState == Discard
        invariant !portEnabled && !old(watch.open) ==> !took && !watch.open && watch.turns == old(watch.turns)
        invariant begin ==> View() == old(View()).(edgeDelayWhile := StartValue(AtProposal(0, true), times))
        invariant !next && !took ==> !accepts
        decreases next, if rcvdBpdu then 1 else 0
      {
        match prxState {
          case Discard =>
            next := rcvdBpdu && portEnabled;
          case Receive =>
            next := rcvdBpdu && portEnabled && !rcvdAnyMsg;
          case PrxUnknown =>
            assert false;
        }
        if next {
          ReceiveAct(b, o);
          took := true;
        }
      }
    }

    /** What the receive action makes of a port `p` with the window `w`. */
    ghost predicate Handed(p: Port, w: Watch, b: Others, o: Others)
      reads this
    {
      var q, v := Received(p, times.migrateTime), w.(open := true, since := 0, start := AtBpdu);
      View() == Moved(BdmView(q, false, b, times), o, times) && watch == Restarted(BdmWatch(v, q, false, b), o)
    }

    /** mstp_prxSmGeneralCond with mstp_prxSmDiscardAct. */
    method GeneralCond(begin: bool, b: Others, o: Others)
      requires Fits() && Window() && !bdmState.BdmUnknown?
      requires (begin ==> !watch.open) && (!begin ==> !prxState.PrxUnknown?)
      modifies this`prxState, this`bdmState, this`operEdge, this`edgeDelayWhile, this`rcvdBpdu, this`sendRstp,
        this`proposing, this`watch
      ensures Inv()
      ensures rcvdBpdu == (old(rcvdBpdu) && portEnabled && !begin)
      ensures rcvdBpdu ==> prxState == old(prxState)
      ensures var pending := old(rcvdBpdu || edgeDelayWhile != Truncated(times.migrateTime));
        var discards := begin || (pending && !portEnabled);
        && (discards ==> prxState == Discard && !watch.open && watch.turns == old(watch.turns))
        && (!discards ==> View() == old(View()) && prxState == old(prxState) && watch == old(watch))
      ensures begin ==> View() == old(View()).(edgeDelayWhile := StartValue(AtProposal(0, true), times))
      ensures begin ==> watch == old(watch)
    {
      hide Truncated, Patient, Runs;
      if begin || ((rcvdBpdu || edgeDelayWhile != Truncated(times.migrateTime)) && !portEnabled) {
        prxState := Discard;
        rcvdBpdu := false;
        edgeDelayWhile := Truncated(times.migrateTime);
        if !begin {
          BdmSm(false, b);
          OtherMachines(o);
        }
      }
    }

    /** mstp_prxSmReceiveAct with the change of state before it, as far as the edge goes. */
    method ReceiveAct(b: Others, o: Others)
      requires Inv() && portEnabled && rcvdBpdu
      modifies this`prxState, this`bdmState, this`operEdge, this`edgeDelayWhile, this`rcvdBpdu, this`sendRstp,
        this`proposing, this`accepted, this`watch
      ensures Inv() && accepted == old(accepted) + 1
      ensures prxState == Receive && !rcvdBpdu && Handed(old(View()), old(watch), b, o)
    {
      hide Patient, Moved, Restarted, BdmView, BdmWatch;
      prxState := Receive;
      accepted := accepted + 1;
      operEdge := false;
      rcvdBpdu := false;
      edgeDelayWhile := Truncated(times.migrateTime + 1);
      watch := watch.(open := true, since := 0, start := AtBpdu);
      HandOver(b, o);
    }

    /** The end of mstp_prxSmReceiveAct: Bridge Detection is kicked, then the others. */
    method HandOver(b: Others, o: Others)
      requires Fits() && Kicked() && !bdmState.BdmUnknown? && portEnabled
      modifies this`bdmState, this`operEdge, this`edgeDelayWhile, this`rcvdBpdu, this`sendRstp, this`proposing,
        this`watch
      ensures Fits() && Window() && !rcvdBpdu && !bdmState.BdmUnknown?
      ensures View() == Moved(BdmView(old(View()), false, b, times), o, times)
      ensures watch == Restarted(BdmWatch(old(watch), old(View()), false, b), o)
    {
      hide Fits, StartValue, BdmView, BdmWatch;
      BdmSm(false, b);
      rcvdBpdu := false;
      OtherMachines(o);
    }

    // -------------------------------------------------------------------------
    // Events
    // -------------------------------------------------------------------------

    /** BEGIN: mstp_initStateMachines. */
    method Begin()
      requires Fits() && !portEnabled && !watch.open
      modifies this
      ensures Inv() && accepted == old(accepted) && watch == old(watch) && prxState == Discard && !rcvdBpdu
      ensures var p := old(View());
        View() == Bdm(BdmFrom(p, true)).(edgeDelayWhile := StartValue(AtProposal(0, true), times))
    {
      hide StartValue, Moved, Patient;
      var o := Others(sendRstp, proposing, NoProposal);
      BdmSm(true, o);
      PrxSm(false, true, false, o, o);
    }

    /** The timer in mstp_ptiSm: Bridge Detection is kicked when it runs out. */
    method TimerTick(o: Others)
      requires Inv()
      modifies this`bdmState, this`operEdge, this`watch, this`sendRstp, this`proposing, this`edgeDelayWhile
      ensures Inv()
      ensures View() == TickView(old(View()), o, times) && watch == TickWatch(old(watch), old(View()), o)
    {
      hide StartValue, Patient, BdmView, BdmWatch;
      watch := watch.(since := watch.since + 1);
      if edgeDelayWhile != 0 {
        edgeDelayWhile := edgeDelayWhile - 1;
        if edgeDelayWhile == 0 {
          BdmSm(false, o);
        }
      }
    }

    /** mstp_portEnable and mstp_portDisable, as far as these two machines go. */
    method ChangeEnabled(enabled: bool, b: Others, o: Others, d: Others)
      requires Inv()
      modifies this
      ensures Inv() && portEnabled == enabled && accepted == old(accepted) && prxState != PrxUnknown
      ensures enabled ==> View() == old(View()).(enabled := true) && watch == old(watch)
      ensures enabled ==> rcvdBpdu == old(rcvdBpdu) && prxState == old(prxState)
      ensures !enabled ==> watch.open == (old(watch.open) && !old(portEnabled)) && watch.turns == old(watch.turns)
    {
      hide Patient, Timed, StartValue, Moved, Truncated, Handed;
      if portEnabled != enabled {
        portEnabled := enabled;
        if !enabled {
          watch := watch.(open := false);
        }
        PrxSm(false, false, false, b, o);
        if !enabled {
          BdmSm(false, d);
        }
      }
    }

    method Handle(a: Action)
      requires Inv()
      modifies this
      ensures Inv() && old(watch.turns) <= watch.turns
    {
      hide Patient, Timed, StartValue, Moved, Truncated, Bdm;
      match a {
        case Tick(o) =>
          TimerTick(o);
        case Bpdu(rcvdAnyMsg, b, o) =>
          rcvdBpdu := true;
          PrxSm(true, false, rcvdAnyMsg, b, o);
        case SetEnabled(enabled, b, o, d) =>
          ChangeEnabled(enabled, b, o, d);
        case SetAutoEdge(enabled) =>
          autoEdge := enabled;
        case ConfigureAdminEdge(enabled) =>
          adminEdge, operEdge := enabled, enabled;
          watch := watch.(open := false);
        case RestartBdm =>
          watch := watch.(open := false);
          BdmSm(true, Others(sendRstp, proposing, NoProposal));
        case OthersMove(o) =>
          OtherMachines(o);
      }
    }

    /** The run of any events. Every time the port turns EDGE after a BPDU, while it stayed
        enabled and was not reconfigured, the timer was due; and it turns EDGE before
        MigrateTime + 1 ticks after an early proposal only. */
    method Run(actions: seq<Action>)
      requires Inv()
      modifies this
      ensures Inv() && old(watch.turns) <= watch.turns && Patient(watch.turns, times)
      ensures forall i | 0 <= i < |watch.turns| ::
                watch.turns[i].since < StartValue(AtBpdu, times) ==> Early(watch.turns[i].start, times)
    {
      hide StartValue, Runs;
      for i := 0 to |actions|
        invariant Inv() && old(watch.turns) <= watch.turns
      {
        Handle(actions[i]);
      }
    }

    /** Some ticks on a port that does not turn EDGE: its timer is longer, or sendRSTP is
        down. */
    method Wait(n: nat)
      requires Inv() && watch.open && (n < edgeDelayWhile || !sendRstp)
      modifies this`bdmState, this`operEdge, this`watch, this`sendRstp, this`proposing, this`edgeDelayWhile
      ensures Inv() && watch == old(watch.(since := watch.since + n))
      ensures View() == old(View()).(edgeDelayWhile := if n < old(edgeDelayWhile) then old(edgeDelayWhile) - n else 0)
    {
      hide Patient, Timed, StartValue, Moved;
      for i := 0 to n
        invariant Inv() && watch == old(watch.(since := watch.since + i))
        invariant edgeDelayWhile == if i < old(edgeDelayWhile) then old(edgeDelayWhile) - i else 0
        invariant View() == old(View()).(edgeDelayWhile := edgeDelayWhile)
      {
        TimerTick(Others(sendRstp, proposing, NoProposal));
      }
    }

    /** The timer runs out on a port that is ready for EDGE. */
    method WaitForEdge()
      requires Inv() && watch.open && edgeDelayWhile > 0 && autoEdge && sendRstp && proposing
      modifies this`bdmState, this`operEdge, this`watch, this`sendRstp, this`proposing, this`edgeDelayWhile
      ensures Inv() && watch.turns == old(watch.turns) + [Turn(old(watch.since + edgeDelayWhile), old(watch.start))]
    {
      hide Patient, Timed, StartValue, Moved;
      Wait(edgeDelayWhile - 1);
      TimerTick(Others(sendRstp, proposing, NoProposal));
    }
  }

  /** A port that is enabled and asks for EDGE by itself. */
  method Ready(times: Times, o: Others) returns (port: EdgePort)
    requires o.proposal.NoProposal?
    ensures fresh(port) && port.Inv() && port.times == times && port.prxState == Discard && !port.rcvdBpdu
    ensures port.View() == Port(NotEdge, false, port.edgeDelayWhile, true, false, true, o.sendRstp, o.proposing)
    ensures !port.watch.open && port.watch.turns == []
  {
    hide Patient, StartValue;
    port := new EdgePort(times);
    port.Begin();
    port.ChangeEnabled(true, o, o, o);
    port.autoEdge := true;
    port.OtherMachines(o);
  }

  /** The other half: for everything that starts the timer there is a run in which the port
      turns EDGE just when the timer is due. After an early proposal that is before
      MigrateTime + 1 ticks. */
  method Attained(times: Times, start: Start) returns (port: EdgePort)
    requires Runs(start, times)
    ensures port.Inv() && port.times == times && port.watch.turns == [Turn(Due(start, times), start)]
  {
    hide EdgePort.Fits, EdgePort.Timed, Truncated;
    var o := Others(start.AtBpdu?, start.AtBpdu?, NoProposal);
    port := Ready(times, o);
    port.rcvdBpdu := true;
    port.PrxSm(true, false, false, o, o);
    if start.AtProposal? {
      port.Wait(start.tick);
      port.OtherMachines(Others(true, true, Propose(start.pointToPoint)));
    }
    if StartValue(start, times) > 0 {
      port.WaitForEdge();
    }
  }

  /** In particular: a proposal on a point-to-point link in the same tick as the BPDU lets the
      port turn EDGE after MigrateTime ticks. */
  method EdgeTooSoon(times: Times) returns (port: EdgePort)
    requires 1 <= times.migrateTime <= 254
    ensures port.Inv() && port.times == times
    ensures port.watch.turns == [Turn(times.migrateTime, AtProposal(0, true))] && Early(AtProposal(0, true), times)
  {
    EarlyIff(0, times);
    port := Attained(times, AtProposal(0, true));
  }
}
