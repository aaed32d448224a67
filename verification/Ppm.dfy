/** The Port Protocol Migration state machine (src/mstpd_ppm_sm.c) with the migration timer
    of src/mstpd_pti_sm.c. */
module Ppm {

  datatype State = Unset | CheckingRstp | SelectingStp | Sensing

  /** The variables of a port that the machine uses. */
  datatype Port = Port(
    state: State, mdelayWhile: nat, enabled: bool, mcheck: bool, sendRstp: bool, rcvdRstp: bool, rcvdStp: bool)

  /** MigrateTime is a uint32_t; rstp stands for ForceVersion >= 2. */
  datatype Config = Config(migrateTime: nat, rstp: bool)

  /** What fits into the uint8_t mdelayWhile. */
  function Truncated(n: nat): nat {
    n % 256
  }

  // ---------------------------------------------------------------------------
  // One transition
  // ---------------------------------------------------------------------------

  /** Some transition is enabled. */
  predicate Moves(c: Config, p: Port) {
    match p.state
    case Unset => false
    case CheckingRstp => p.mdelayWhile == 0 || (p.mdelayWhile != c.migrateTime && !p.enabled)
    case SelectingStp => p.mdelayWhile == 0 || !p.enabled || p.mcheck
    case Sensing =>
      || !p.enabled || p.mcheck || (c.rstp && !p.sendRstp && p.rcvdRstp)
      || (p.sendRstp && p.rcvdStp)
  }

  function ToChecking(c: Config, p: Port): Port {
    p.(state := CheckingRstp, mcheck := false, sendRstp := c.rstp, mdelayWhile := Truncated(c.migrateTime))
  }

  function ToSelecting(c: Config, p: Port): Port {
    p.(state := SelectingStp, sendRstp := false, mdelayWhile := Truncated(c.migrateTime))
  }

  function ToSensing(p: Port): Port {
    p.(state := Sensing, rcvdRstp := false, rcvdStp := false)
  }

  /** The transition taken. */
  function Step(c: Config, p: Port): Port {
    if !Moves(c, p) then p
    else
      match p.state
      case Unset => p
      case CheckingRstp => if p.mdelayWhile == 0 then ToSensing(p) else ToChecking(c, p)
      case SelectingStp => ToSensing(p)
      case Sensing =>
        if !p.enabled || p.mcheck || (c.rstp && !p.sendRstp && p.rcvdRstp) then ToChecking(c, p)
        else ToSelecting(c, p)
  }

  /** The port after n passes of the loop. */
  function After(c: Config, p: Port, n: nat): Port {
    if n == 0 then p else Step(c, After(c, p, n - 1))
  }

  /** The loop stops after at most n passes. */
  ghost predicate StopsBy(c: Config, p: Port, n: nat) {
    !Moves(c, After(c, p, n))
  }

  predicate Proper(c: Config) {
    1 <= c.migrateTime <= 255
  }

  /** How many transitions can follow at most. */
  function Rank(c: Config, p: Port): nat {
    match p.state
    case Unset => 0
    case CheckingRstp => if p.mdelayWhile == c.migrateTime then 0 else 2
    case SelectingStp => if p.mdelayWhile == c.migrateTime && p.enabled && !p.mcheck then 0 else 2
    case Sensing => 1
  }

  lemma StepLowers(c: Config, p: Port)
    requires Proper(c) && Moves(c, p)
    ensures Rank(c, Step(c, p)) < Rank(c, p)
  {
  }

  lemma StepRests(c: Config, p: Port)
    requires !Moves(c, p)
    ensures Step(c, p) == p
  {
  }

  lemma {:induction false} RankFalls(c: Config, p: Port, n: nat)
    requires Proper(c)
    ensures !Moves(c, After(c, p, n)) || Rank(c, After(c, p, n)) + n <= Rank(c, p)
  {
    hide Moves, Step, Rank, Proper;
    if n > 0 {
      var q := After(c, p, n - 1);
      RankFalls(c, p, n - 1);
      if Moves(c, q) {
        StepLowers(c, q);
      } else {
        StepRests(c, q);
      }
    }
  }

  /** A disabled port that the loop never leaves alone when MigrateTime does not fit. */
  ghost predicate Restless(c: Config, p: Port) {
    !p.enabled && p.mdelayWhile == Truncated(c.migrateTime) && (p.state.CheckingRstp? || p.state.Sensing?)
  }

  lemma {:induction false} StaysRestless(c: Config, p: Port, n: nat)
    requires !Proper(c) && Restless(c, p)
    ensures Restless(c, After(c, p, n)) && Moves(c, After(c, p, n))
  {
    if n > 0 {
      StaysRestless(c, p, n - 1);
    }
  }

  /** Where the loop stops. */
  function Settled(c: Config, p: Port): (r: Port)
    requires Proper(c)
    ensures !Moves(c, r)
    decreases Rank(c, p)
  {
    if Moves(c, p) then StepLowers(c, p); Settled(c, Step(c, p)) else p
  }

  /** The port one tick later. */
  function Ticked(c: Config, p: Port): Port
    requires Proper(c)
  {
    if p.mdelayWhile == 1 && p.enabled then Settled(c, p.(mdelayWhile := 0))
    else p.(mdelayWhile := if p.mdelayWhile == 0 then 0 else p.mdelayWhile - 1)
  }

  ghost predicate Stops(c: Config, p: Port) {
    exists n :: StopsBy(c, p, n)
  }

  lemma RankBound(c: Config, p: Port)
    requires Proper(c)
    ensures Rank(c, p) <= 2 && (Moves(c, p) ==> Rank(c, p) > 0)
  {
  }

  lemma {:induction false} SettledAfter(c: Config, p: Port, n: nat)
    requires Proper(c)
    ensures Settled(c, After(c, p, n)) == Settled(c, p)
  {
    hide Moves, Step, Rank, Proper;
    if n > 0 {
      SettledAfter(c, p, n - 1);
      if !Moves(c, After(c, p, n - 1)) {
        StepRests(c, After(c, p, n - 1));
      }
    }
  }

  /** After two passes at most the loop has come to rest, where Settled says. */
  lemma StopsWithin(c: Config, p: Port)
    requires Proper(c)
    ensures StopsBy(c, p, 2) && Stops(c, p) && After(c, p, 2) == Settled(c, p)
  {
    hide Moves, Step, Rank, Proper;
    RankFalls(c, p, 2);
    RankBound(c, p);
    RankBound(c, After(c, p, 2));
    SettledAfter(c, p, 2);
    assert StopsBy(c, p, 2);
  }

  lemma ImproperRuns(c: Config) returns (p: Port)
    requires !Proper(c)
    ensures !Stops(c, p)
  {
    p := Port(CheckingRstp, Truncated(c.migrateTime), false, false, false, false, false);
    forall n
      ensures !StopsBy(c, p, n)
    {
      StaysRestless(c, p, n);
    }
  }

  /** The loop stops for every port exactly if MigrateTime is between 1 and 255. */
  lemma StopsIff(c: Config)
    ensures (forall p :: Stops(c, p)) <==> Proper(c)
  {
    hide Proper, Stops;
    if Proper(c) {
      forall p
        ensures Stops(c, p)
      {
        StopsWithin(c, p);
      }
    } else {
      var p := ImproperRuns(c);
    }
  }

  // ---------------------------------------------------------------------------
  // Runs
  // ---------------------------------------------------------------------------

  /** sendRSTP changed at a time counted in ticks. For a change to true, `excused` tells
      whether the port was disabled or mcheck was set since the change before. */
  datatype Flip = Flip(up: bool, at: nat, excused: bool)

  /** Changes alternate, and from one to the next at least MigrateTime ticks pass, unless
      the second one sets sendRSTP again and is excused. */
  ghost predicate Spaced(flips: seq<Flip>, migrateTime: nat) {
    forall i | 0 < i < |flips| ::
      && flips[i].up != flips[i - 1].up
      && (flips[i].at - flips[i - 1].at >= migrateTime || (flips[i].up && flips[i].excused))
  }

  /** Discarded stands for the DISCARD state of Port Receive, which drops both flags. */
  datatype Action = Tick | Kick | RcvdRstp | RcvdStp | Discarded | SetMcheck | SetEnabled(enabled: bool)

  class PpmPort {
    const migrateTime: nat
    const rstp: bool
    var ppmState: State
    var mdelayWhile: nat
    var portEnabled: bool
    var mcheck: bool
    var sendRstp: bool
    var rcvdRstp: bool
    var rcvdStp: bool
    ghost var clock: nat       // ticks so far
    ghost var flips: seq<Flip>
    ghost var excused: bool

    function Cfg(): Config {
      Config(migrateTime, rstp)
    }

    ghost function View(): Port
      reads this
    {
      Port(ppmState, mdelayWhile, portEnabled, mcheck, sendRstp, rcvdRstp, rcvdStp)
    }

    /** A port as memset leaves it. */
    constructor (migrateTime: nat, rstp: bool)
      requires 1 <= migrateTime <= 255
      ensures this.migrateTime == migrateTime && this.rstp == rstp && ppmState == Unset && flips == [] && clock == 0
      ensures !portEnabled && !sendRstp && mdelayWhile == 0
    {
      this.migrateTime, this.rstp := migrateTime, rstp;
      ppmState, mdelayWhile := Unset, 0;
      portEnabled, mcheck, sendRstp, rcvdRstp, rcvdStp := false, false, false, false, false;
      clock, flips, excused := 0, [], false;
    }

    /** The time since sendRSTP last changed, with what is still to wait, is long enough. */
    ghost predicate Waited()
      reads this
    {
      flips != [] ==>
        var last := flips[|flips| - 1];
        && last.up == sendRstp && last.at <= clock
        && (sendRstp ==>
              && (ppmState.CheckingRstp? ==> clock - last.at + mdelayWhile >= migrateTime)
              && (ppmState.Sensing? ==> clock - last.at >= migrateTime))
        && (!sendRstp && !excused ==>
              && portEnabled && !mcheck
              && (ppmState.SelectingStp? ==> clock - last.at + mdelayWhile >= migrateTime)
              && (ppmState.Sensing? ==> clock - last.at >= migrateTime))
    }

    ghost predicate Inv()
      reads this
    {
      && Proper(Cfg()) && !ppmState.Unset? && mdelayWhile <= migrateTime
      && (ppmState.CheckingRstp? ==> sendRstp == rstp)
      && (ppmState.SelectingStp? ==> !sendRstp)
      && (!rstp ==> !sendRstp && flips == [])
      && Spaced(flips, migrateTime) && Waited()
    }

    /** sendRSTP gets a value; a change is recorded. */
    method SetSendRstp(value: bool)
      modifies this`sendRstp, this`flips, this`excused
      ensures sendRstp == value
      ensures flips == if old(sendRstp) == value then old(flips) else old(flips) + [Flip(value, clock, old(excused))]
      ensures excused == (old(sendRstp) == value && old(excused))
    {
      if sendRstp != value {
        flips := flips + [Flip(value, clock, excused)];
        excused := false;
      }
      sendRstp := value;
    }

    /** mstp_ppmSmCheckingRstpAct, with the change of state before it. */
    method CheckingRstpAct()
      requires 1 <= migrateTime <= 255
      modifies this`ppmState, this`mcheck, this`sendRstp, this`mdelayWhile, this`flips, this`excused
      ensures View() == ToChecking(Cfg(), old(View()))
      ensures flips == if old(sendRstp) == rstp then old(flips) else old(flips) + [Flip(rstp, clock, old(excused))]
      ensures excused == (old(sendRstp) == rstp && old(excused))
    {
      ppmState := CheckingRstp;
      mcheck := false;
      if rstp {
        SetSendRstp(true);
      } else {
        SetSendRstp(false);
      }
      mdelayWhile := Truncated(migrateTime);
    }

    /** mstp_ppmSmSelectingStpAct, with the change of state before it. */
    method SelectingStpAct()
      requires 1 <= migrateTime <= 255
      modifies this`ppmState, this`sendRstp, this`mdelayWhile, this`flips, this`excused
      ensures View() == ToSelecting(Cfg(), old(View()))
      ensures flips == if !old(sendRstp) then old(flips) else old(flips) + [Flip(false, clock, old(excused))]
      ensures excused == (!old(sendRstp) && old(excused))
    {
      ppmState := SelectingStp;
      SetSendRstp(false);
      mdelayWhile := Truncated(migrateTime);
    }

    /** mstp_ppmSmSensingAct, with the change of state before it. */
    method SensingAct()
      modifies this`ppmState, this`rcvdRstp, this`rcvdStp
      ensures View() == ToSensing(old(View()))
    {
      ppmState := Sensing;
      rcvdRstp := false;
      rcvdStp := false;
    }

    /** mstp_ppmSmCheckingRstpCond. */
    method CheckingRstpCond() returns (res: bool)
      requires Inv() && ppmState.CheckingRstp?
      modifies this`ppmState, this`mcheck, this`sendRstp, this`mdelayWhile, this`flips, this`excused,
        this`rcvdRstp, this`rcvdStp
      ensures Inv() && old(flips) <= flips
      ensures res == old(Moves(Cfg(), View())) && View() == Step(Cfg(), old(View()))
    {
      res := false;
      if mdelayWhile == 0 {
        SensingAct();
        res := true;
      } else if mdelayWhile != migrateTime && !portEnabled {
        CheckingRstpAct();
        res := true;
      }
    }

    /** mstp_ppmSmSelectingStpCond. */
    method SelectingStpCond() returns (res: bool)
      requires Inv() && ppmState.SelectingStp?
      modifies this`ppmState, this`rcvdRstp, this`rcvdStp
      ensures Inv() && res == old(Moves(Cfg(), View())) && View() == Step(Cfg(), old(View()))
    {
      res := false;
      if mdelayWhile == 0 || !portEnabled || mcheck {
        SensingAct();
        res := true;
      }
    }

    /** mstp_ppmSmSensingCond: the only place where sendRSTP changes. */
    method SensingCond() returns (res: bool)
      requires Inv() && ppmState.Sensing?
      modifies this`ppmState, this`mcheck, this`sendRstp, this`mdelayWhile, this`flips, this`excused
      ensures Inv() && old(flips) <= flips
      ensures res == old(Moves(Cfg(), View())) && View() == Step(Cfg(), old(View()))
    {
      res := false;
      if !portEnabled || mcheck || (rstp && !sendRstp && rcvdRstp) {
        CheckingRstpAct();
        res := true;
      } else if sendRstp && rcvdStp {
        SelectingStpAct();
        res := true;
      }
    }

    /** mstp_ppmSm: the loop ends in a state with no transition enabled. BEGIN starts a new
        history. */
    method PpmSm(begin: bool)
      requires if begin && !ppmState.CheckingRstp? then Proper(Cfg()) else Inv()
      modifies this`ppmState, this`mcheck, this`sendRstp, this`mdelayWhile, this`flips, this`excused,
        this`rcvdRstp, this`rcvdStp
      ensures Inv() && !Moves(Cfg(), View())
      ensures var was := old(View());
        View() == Settled(Cfg(), if begin && !was.state.CheckingRstp? then ToChecking(Cfg(), was) else was)
      ensures !begin ==> old(flips) <= flips
    {
      if begin {
        if !ppmState.CheckingRstp? {
          CheckingRstpAct();
          flips, excused := [], false;
        }
      }
      ghost var before, start := flips, View();
      var next := true;
      while next
        invariant Inv() && before <= flips && Settled(Cfg(), View()) == Settled(Cfg(), start)
        invariant !next ==> !Moves(Cfg(), View())
        decreases next, Rank(Cfg(), View())
      {
        ghost var p := View();
        match ppmState {
          case CheckingRstp => next := CheckingRstpCond();
          case SelectingStp => next := SelectingStpCond();
          case Sensing => next := SensingCond();
          case Unset => assert false;
        }
        if next {
          StepLowers(Cfg(), p);
        }
      }
    }

    /** The migration timer of mstp_ptiSm: the machine is kicked when it runs out on an
        enabled port. */
    method TimerTick()
      requires Inv()
      modifies this
      ensures Inv() && old(flips) <= flips && clock == old(clock) + 1
      ensures View() == Ticked(Cfg(), old(View()))
    {
      clock := clock + 1;
      if mdelayWhile != 0 {
        mdelayWhile := mdelayWhile - 1;
        if mdelayWhile == 0 {
          if portEnabled {
            PpmSm(false);
          }
        }
      }
    }

    method ChangeEnabled(enabled: bool)
      requires Inv()
      modifies this`portEnabled, this`excused
      ensures Inv() && View() == old(View()).(enabled := enabled) && excused == (old(excused) || !enabled)
    {
      portEnabled := enabled;
      excused := excused || !enabled;
    }

    method RequestMcheck()
      requires Inv()
      modifies this`mcheck, this`excused
      ensures Inv() && View() == old(View()).(mcheck := true) && excused
    {
      mcheck := true;
      excused := true;
    }

    /** Whatever happens, in whatever order and however often, the changes of sendRSTP are
        spaced by MigrateTime ticks. */
    method Run(actions: seq<Action>)
      requires Inv()
      modifies this
      ensures Inv() && old(flips) <= flips && Spaced(flips, migrateTime)
    {
      for i := 0 to |actions|
        invariant Inv() && old(flips) <= flips
      {
        match actions[i] {
          case Tick => TimerTick();
          case Kick => PpmSm(false);
          case RcvdRstp => rcvdRstp := true;
          case RcvdStp => rcvdStp := true;
          case Discarded => rcvdRstp, rcvdStp := false, false;
          case SetMcheck => RequestMcheck();
          case SetEnabled(e) => ChangeEnabled(e);
        }
      }
    }
  }

  /** From boot on: a new port goes through BEGIN, and then any actions happen to it. */
  method BootAndRun(migrateTime: nat, rstp: bool, actions: seq<Action>) returns (port: PpmPort)
    requires 1 <= migrateTime <= 255
    ensures fresh(port) && port.Inv() && port.migrateTime == migrateTime && port.rstp == rstp
    ensures Spaced(port.flips, migrateTime)
  {
    port := new PpmPort(migrateTime, rstp);
    port.PpmSm(true);
    port.Run(actions);
  }
}
