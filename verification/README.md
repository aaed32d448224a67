# Verification of the MSTP daemon

A Dafny model of the parts of the Multiple Spanning Tree daemon in which state, recursion, bit
manipulation or concurrency make correctness hard to see, with proofs of what they promise. The
model keeps the form of the C code: state machines, contexts, queues and tables are classes whose
methods update fields in place; bitmaps, buffers and lookup tables are arrays; loops are loops; the
mutual recursion of the Port Information and Port Role Selection machines is mutual recursion.
`dafny verify dfyconfig.toml` checks everything.

## Modules

| module | models | main results |
|---|---|---|
| `PortState`, `PortInformation` | PIM and PRS (802.1Q-REV/D5.0 13.32 and 13.33) with the role computation they rely on, boot, port events, ageing and BPDU reception, for any number of ports and trees | the re-entrant calls end; every call comes to rest with the exit assertions of the code met; a packet is taken in at most once; when a port accepts no more BPDUs, and until when |
| `PortRuns` | runs of such a bridge | the invariant holds from boot over every run of events; no port goes deaf if none hears a BPDU of its own; two runs that end badly |
| `Md5Block`, `Md5` | block function, streaming context and HMAC | equality with one-shot MD5 (sections 3.1 to 3.5 of RFC 1321) for every split of the message, and with HMAC (section 2 of RFC 2104), on both byte orders |
| `Words`, `BitCount`, `Bitmap`, `BitmapScan` | the bitmap library on arrays of 32-bit words | refinement of finite sets: algebra, searches, enumeration, count |
| `PackedField` | 2-bit and 4-bit fields packed into words | the layout is one-to-one; set and get |
| `VidTable` | the map from VLAN IDs to instances, down to the words | partition of the VIDs from boot over every run of configuration commands |
| `PortCache` | the set of layer-2 ports with its delete and add messages | the messages are exactly the difference, and replaying them gives the new set |
| `MessageQueue` | the queue shared by many producers and one consumer that also frees | no interleaving loses, repeats or reorders a message, or unlinks a sentinel |
| `ThreadQueue` | the circular doubly linked list and its traversals | traversal while unlinking visits every message once |
| `Ppm` | Port Protocol Migration with its timer | its loop stops; spacing of the changes of sendRSTP over every run |
| `PrxBdm` | Port Receive and Bridge Detection with edgeDelayWhile | one BPDU per call; exactly when a port can turn EDGE after one |

The termination measure of `PortInformation` is lexicographic: whether there is a packet, CIST
before MSTI, the set of ports that still have a reason to make PIM kick PRS (disabled with infoIs
other than Disabled, enabled with infoIs Disabled, or received information whose time has run out),
and the position in the call chain. That the set shrinks with every kick is `PendingShrinks`; that
no call without a packet adds to it is part of every contract there.

## What the proofs brought to light

- **PIM, ageing.** After INFERIOR_DESIGNATED, NOT_DESIGNATED and OTHER the loop ends in CURRENT
  without the ageing test. A call leaves its port unquiet if and only if it took such a message on
  a port whose received information had run out of time before the call (`PimSm`, `Overlooked`).
  `AgeingMissed` is a run from boot that gets there, with the times the code computes: loop guard
  holds an Alternate port when its three seconds are over, and the inferior BPDU that comes next
  releases it. Only loop guard brings a port into that danger: after a run in which it does not take
  hold of a port, the port is quiet unless a message is up on it (`BootAndRun`, `Run`).
- **PIM, messages of MSTIs.** An MSTI message is left up by its BPDU if and only if its port is
  AGED when its turn comes (`PimMsti`, `PimMstis`); if the CIST dismisses its own message inside the
  region, if and only if the port was AGED before the BPDU (`ReceiveBpdu`). Port Receive accepts no BPDU while a message is up, so the port is deaf exactly until it is
  disabled or removed (`Run`, `Handle`, `Revive`). An MSTI port can rest in AGED only on the boundary
  of the region, and only with a vector equal to its own designated one
  (src/mstpd_util.c:6199-6214). So no port ever rests in AGED, and none goes deaf, as long as no
  port hears a BPDU of its own (`BootAndRun` with `foreign`). If one does, it can: in `DeafPort` the
  BPDU that came back is recorded on the CIST and an MSTI for the same time, a better BPDU from
  outside the region replaces it on the CIST alone, and the MSTI ages on the boundary. While looped
  information lasts the code ignores other BPDUs of the port (src/mstpd_util.c:2320 and 2714); for
  this run the flag behind that must have been cleared in between. It is one flag for all trees,
  and a BPDU from inside the region clears it (src/mstpd_util.c:2871) if it has a message for a
  second MSTI whose own timer has run out, one that was still running when the looped BPDU came and
  kept it from being recorded there.
- **PIM, dead code.** The re-entry into DISABLED on rcvdMsg (src/mstpd_pim_sm.c:307-322) cannot be
  reached (`PimDisabledCond`). PRS without any port asking for reselection writes no port.
- **MD5.** The length in bits is computed in 32 bits before it is added to the 64-bit counter. The
  counter is right exactly if every piece is shorter than 2^29 bytes (`CountAdds`: an equivalence
  for every piece). Longer pieces are still absorbed correctly as long as the 32-bit counter of the
  loop does not wrap, which it can from 2^32 - 64 bytes on, depending on what is buffered
  (`LoopStopsIff`). `HmacMd5` says what is computed for every int length.
- **VLAN table.** An update keeps the instances disjoint exactly if no new VID belongs to a third
  instance (`RemapDisjoint`, with the witness `StolenVid`). mstp_clearBridgeCistData gives up the
  VIDs of the CIST, and no fair command brings them back (`ClearCistLoses`, `RunKeepsPartition`).
  The CIST map starts with the out-of-range bit 4096 set, because VID 4095 is cleared twice; the
  table is therefore viewed as sets of 1..4095. For the same reason setting the CIST to the VIDs it
  has would be reported as a change (`SameVidsReported`): the function asserts that it may be called
  for the CIST, but its one caller (src/mstpd_ctrl.c:1577) passes an MSTI.
- **Message queue.** The proof needs that only the consumer frees. A free by another thread between
  the sem_wait and the lock of the consumer would leave a claim on an empty list (`ForeignFree`).
- **PPM.** The loop stops for every port exactly if MigrateTime is between 1 and 255 (`StopsIff`):
  it is compared as 32 bits with an 8-bit timer. The program sets it to the constant
  MSTP_MIGRATE_TIME_SEC, which is 3 (src/mstpd_init.c:1481); here and below the bounds concern the
  parameter only.
- **PRX and BDM.** MigrateTime + 1 wraps to 0 in the 8-bit timer exactly at 255 modulo 256
  (`BpduEndsEdge`). A proposal (src/mstpd_prt_sm.c:3129-3166) restarts the same timer with
  MigrateTime or maxAge. A port turns EDGE before MigrateTime + 1 ticks only if the timer was last
  started by an early proposal, one whose tick and start value together fall short (`Run`,
  `Early`): on a point-to-point link exactly one before the first tick after the BPDU, on a shared
  link one while ticks and maxAge do not exceed MigrateTime (`EarlyIff`). Conversely every start of
  the timer with a value above 0 has a run from boot in which the port turns EDGE just when it is
  due (`Attained`; `EdgeTooSoon` for a proposal in the tick of the BPDU); after a start with 0 no
  port turns EDGE (`Run`).
- **Port cache.** The gate compares counts, so that an exchange of one port for another goes
  unnoticed (`ExchangeMissed`), and the count is remembered only if the sets differ.
- **Bitmaps.** Equality and the test for any bit look at whole words, so that bits behind maxBits
  count too (`AreEqual`, `AreAny`, with the witnesses `SameVidsReported` and `StrayBit`); for maps
  without such bits they are set equality and non-emptiness. The operations on more than 32 bits
  clear them; the one-word inverse does not. The documentation of the count says that maxBits is
  ignored unless divisible by 32; the code rounds it up, and so does the model.

## Assumptions

- The machines that are called but not modelled (Port Role Transitions, Topology Change, Port
  Transmit, Port State Transition) do not write reselect, selected, updtInfo, infoIs, rcvdInfo,
  rcvdMsg, rcvdInfoWhile, or the states of PIM and PRS. In `PrxBdm` they leave sendRSTP and
  proposing at any value, and may restart edgeDelayWhile by a proposal, at every call: `Others`.
- The classification of a message and the new ageing time are part of the packet and may be
  anything, but 'repeated' presupposes received information (src/mstpd_util.c:2180-2245).
  Comparisons of priority vectors may come out any way, except where the vector recorded from a
  packet decides them (`Vectors`): one sent by another port differs from the designated vector,
  since it names another bridge or port; one of the port's own is taken to equal it for as long as
  it is held; and a packet may say that its vector is not worse than the designated one, or that
  another port offers a better root. UPDATE leaves everything open again.
- At BEGIN no port is enabled.
- sem_wait, the mutex and the semaphore behave as POSIX says; one step of a thread between two such
  operations is atomic, since the list is touched under the mutex only.
- The word operations of MD5 are parameters (`Arithmetic`) and the results hold for every choice;
  `Rfc1321` shows that those of RFC 1321 are one.

## Model

| member | source | states |
|---|---|---|
| PortRuns.BootAndRun | src/mstpd_init.c:196-306 | the invariant of Run from boot on, for any instances and ports; if no port hears a BPDU of its own, no message is up and no port rests in AGED after any run; a port that is up and hears no message is quiet after any run in which loop guard does not take hold of it |
| PortRuns.AgeingMissed | src/mstpd_pim_sm.c:754-941 | a run of two ports from boot after which the second, which was Alternate or Backup when loop guard took hold of it, rests in CURRENT with received information whose time has run out |
| PortRuns.DeafPort | src/mstpd_util.c:6199-6214 | a run from boot after which a message is up on a port: an MSTI port with information of its own goes to AGED on the boundary of the region, and the next message for it stays |
| PortInformation.Bridge.Run | src/mstpd_pim_sm.c:82-95 | after any sequence of port additions and removals, enabling and disabling, ageing seconds and BPDUs, every tree is in ROLE_SELECTION, every port rests in CURRENT or DISABLED (an MSTI port also in AGED) with no update pending, and takes part in every tree exactly when it is enabled; a port with a message up accepts no BPDU in any run that does not disable or remove it; a port that hears no message comes to hold information whose time has run out only if loop guard takes hold of it in the run |
| PortInformation.Bridge.Handle | src/mstpd_prx_sm.c:177-247 | one event: a BPDU is accepted exactly if no message is up on its port; a message stays up until its port is disabled or removed, and is gone then; only loop guard brings a port to hold information whose time has run out without a message being up |
| PortInformation.Bridge.PrxBpdu | src/mstpd_prx_sm.c:177-247 | a BPDU on an enabled port is accepted exactly if no message is up on the port; otherwise no tree is written |
| PortInformation.Bridge.Revive | src/mstpd_util.c:600-790 | after disabling and enabling the port the next BPDU is accepted, whatever was up before |
| PortInformation.Bridge.RcvdAnyMsg | src/mstpd_util.c:1222-1258 | the answer is whether a message is up on the port in any tree |
| PortInformation.Bridge.constructor | src/mstpd_init.c:196-210 | a bridge with the given instances and ports whose state machines are all unset |
| PortInformation.Bridge.PimSm | src/mstpd_pim_sm.c:111-179 | the re-entrant call ends, for any number of ports and trees; the port is then quiet, which includes the exit assertion, if and only if the packet was not one that was taken, does not restart the ageing time and found that time run out; a packet is taken into RECEIVE exactly when the port was ready for it, at most once, and its message is then gone; without a packet no port gets a new reason to kick role selection or comes to hold received information; a call on a quiet port writes no port; a settled tree stays settled; a CIST packet from inside the region that is dismissed leaves every MSTI as it is |
| PortInformation.Bridge.PimRun | src/mstpd_pim_sm.c:125-175 | the do/while ends: each pass uses up the packet or lowers the rank of the state; whether the port comes out quiet is decided by the packet and by the port as the loop finds it |
| PortInformation.Bridge.PimStep | src/mstpd_pim_sm.c:129-174 | one pass of the switch: RECEIVE is entered exactly for a packet the port was ready for, left with rcvdMsg down, and a continued pass outside RECEIVE has a lower rank |
| PortInformation.Bridge.PimPassCond | src/mstpd_pim_sm.c:141-174 | a pass from a state that is only passed through never enters RECEIVE; one that ends comes to rest in CURRENT, quiet unless a dismissed message found the time run out |
| PortInformation.Bridge.PimRestCond | src/mstpd_pim_sm.c:129-140 | a pass from a resting state that does not continue leaves the port quiet; a quiet port is not written |
| PortInformation.Bridge.PimGeneralCond | src/mstpd_pim_sm.c:200-237 | under BEGIN exactly this port goes to DISABLED; otherwise it acts on a disabled port only, and not on a quiet one; no port is left in SUPERIOR_DESIGNATED if none was there |
| PortInformation.Bridge.PimDisabledAct | src/mstpd_pim_sm.c:962-1003 | the whole tree is selected and quiet afterwards, although role selection re-entered this port; fewer ports have a reason to kick it |
| PortInformation.Bridge.PimDisabledCond | src/mstpd_pim_sm.c:256-326 | never continues and leaves the port quiet; the re-entry on rcvdMsg cannot be reached |
| PortInformation.Bridge.PimAgedCond | src/mstpd_pim_sm.c:345-399 | leaves AGED exactly when an update is pending on a selected port; otherwise the port is quiet and nothing is written |
| PortInformation.Bridge.PimAgedAct | src/mstpd_pim_sm.c:1022-1089 | the aged port holds no received information afterwards, and the whole tree is selected and quiet |
| PortInformation.Bridge.PimAgedStep | src/mstpd_pim_sm.c:465-520 | ageing within a call: the port comes out quiet, no quiet port stops being quiet, no message is raised |
| PortInformation.Bridge.SelectAndSync | src/mstpd_pim_sm.c:1045-1088 | the tree is at rest after role selection; on the boundary of the region, or when the regional root has changed (or is this bridge, for an aged port), every MSTI is at rest too |
| PortInformation.Bridge.SyncMstiPortsWithCist | src/mstpd_pim_sm.c:1804-1830 | every MSTI has been through role selection and is at rest; the CIST is not touched |
| PortInformation.Bridge.SyncMsti | src/mstpd_pim_sm.c:1818-1829 | the MSTI is selected, quiet and settled afterwards, with only its own ports written |
| PortInformation.Bridge.PimUpdateAct | src/mstpd_pim_sm.c:1114-1263 | only this port changes; the role assertion of the CIST branch always holds |
| PortInformation.Bridge.PimCurrentCond | src/mstpd_pim_sm.c:457-609 | RECEIVE is entered exactly when the message may be read now; a pass that ends leaves the port quiet, and a quiet port is not written |
| PortInformation.Bridge.PimReceiveAct | src/mstpd_pim_sm.c:1281-1301 | the message is classified, a repeated one only on received information; only this port changes |
| PortInformation.Bridge.PimReceiveCond | src/mstpd_pim_sm.c:629-736 | each classification leads to its own state, and every one of the five outcomes drops the message |
| PortInformation.Bridge.PimSuperiorDesignatedAct | src/mstpd_pim_sm.c:1333-1491 | role selection re-enters this very port and takes it on to CURRENT or AGED; the message is dropped, on the CIST only after the MSTIs have been synchronised; firm information with time stays recorded through the re-entry |
| PortInformation.Bridge.SelectSuperior | src/mstpd_pim_sm.c:1442-1482 | what the re-entry leaves of the port in SUPERIOR_DESIGNATED: the tree is settled, and only the CIST still has its message |
| PortInformation.Bridge.StartPort | src/mstpd_pim_sm.c:1022-1043 | with reselect up and selected down on one port, role selection may be entered, and no message has been raised |
| PortInformation.Bridge.PimRepeatedDesignatedAct | src/mstpd_pim_sm.c:1514-1576 | only the ageing time, the state and the message of this port change |
| PortInformation.Bridge.PimDismissAct | src/mstpd_pim_sm.c:1596-1756 | the information of the port is kept, its message dropped; on the boundary of the region every MSTI is at rest afterwards, except after OTHER; inside it no MSTI is written |
| PortInformation.Bridge.PimResumeCond | src/mstpd_pim_sm.c:754-941 | the states that are only passed through lead to CURRENT, with nothing else changed |
| PortInformation.Bridge.PrsSm | src/mstpd_prs_sm.c:70-106 | returns in ROLE_SELECTION; outside BEGIN, with any port asking for reselection, all ports of the tree are selected and quiet with reselect down, and with none asking no port is written |
| PortInformation.Bridge.RoleSelectionAct | src/mstpd_prs_sm.c:302-399 | the same for the action: every present port has been kicked and is still quiet when the last one has been |
| PortInformation.Bridge.KickPorts | src/mstpd_prs_sm.c:313-398 | root port first, then the others: every present port has been kicked, none of them became unquiet again, and role selection is not needed again |
| PortInformation.Bridge.KickPim | src/mstpd_prs_sm.c:328-366 | a kick adds its port to the quiet ones and takes none away |
| PortInformation.Bridge.ComputeRoles | src/mstpd_prs_sm.c:303-311 | reselect down and selected up on every port; an aged CIST port has an update pending with an acceptable role |
| PortInformation.Tree.AnyReselect | src/mstpd_prs_sm.c:202-264 | the scan finds a port with reselect exactly if there is one |
| PortInformation.Tree.ClearReselectTree | src/mstpd_util.c:1916-1956 | reselect goes down on every port and nothing else changes |
| PortInformation.Tree.SetSelectedTree | src/mstpd_util.c:3754-3822 | all ports become selected or none, depending on whether any port asks for reselection |
| PortInformation.Tree.UpdtRolesDisabledTree | src/mstpd_util.c:6412-6443 | every port gets the disabled role and nothing else changes |
| PortInformation.Tree.UpdtRolesTree | src/mstpd_util.c:5177-5192 | only updtInfo and the role change; every aged CIST port gets an update with a role the UPDATE action accepts, and a CIST port that keeps its received information is Root, Alternate or Backup; an aged MSTI port gets an update inside the region, and on its boundary if its vector came from another port, but not if it is its own |
| PortInformation.CistRole | src/mstpd_util.c:5618-5785 | the same for one CIST port, however the priority vectors compare |
| PortInformation.MstiRole | src/mstpd_util.c:6156-6368 | the same for one MSTI port, with the boundary case |
| PortInformation.ReceivedRole | src/mstpd_util.c:5681-5785 | received information is to be replaced exactly if the port becomes designated; otherwise the port is Alternate, Backup or Root, and not Root if another port offers a better root |
| PortInformation.Bridge.PimAtEvent | src/mstpd_util.c:632-676 | between events PIM leaves all trees calm and, without a packet, the port quiet and agreeing with portEnabled; a call for an MSTI writes no other tree; on every enabled port of every tree but the one of the packet no time runs out, nothing comes to be received, firm information with time left stays, a port ages only if its time has run out, and no message or loop guard changes |
| PortInformation.Bridge.PimTimeout | src/mstpd_pti_sm.c:432-486 | the kick after the time has run out leaves the port quiet; an MSTI port on the boundary that holds its own information comes to rest in AGED |
| PortInformation.Bridge.BeginPims | src/mstpd_init.c:226-233 | BEGIN disables this port in every tree and touches no other |
| PortInformation.Bridge.BeginPorts | src/mstpd_init.c:218-235 | every present port has been disabled in every tree |
| PortInformation.Bridge.BeginPrs | src/mstpd_prs_sm.c:127-185 | PRS under BEGIN selects all ports of a tree whose ports PIM has disabled |
| PortInformation.Bridge.BeginTrees | src/mstpd_init.c:243-250 | every tree is settled and selected |
| PortInformation.Bridge.InitStateMachines | src/mstpd_init.c:196-306 | boot brings all trees to their first event, with every port selected |
| PortInformation.Bridge.AddLport | src/mstpd_dyn_reconfig.c:69-154 | a new port goes through BEGIN alone and every tree stays settled |
| PortInformation.Bridge.BeginLport | src/mstpd_dyn_reconfig.c:115-148 | the data of the new port after BEGIN, in every tree; no other port is written |
| PortInformation.Bridge.RemoveLport | src/mstpd_dyn_reconfig.c:169-229 | the removed port is gone and every tree stays settled |
| PortInformation.Bridge.SetPortEnabled | src/mstpd_util.c:600-790 | afterwards infoIs agrees with portEnabled in every tree, a disabled port has no message up, and a port that has come up rests in CURRENT in every tree |
| PortInformation.Bridge.KickTrees | src/mstpd_util.c:632-676 | the calls on the CIST and on every MSTI bring infoIs into agreement with the new portEnabled, and a port that comes up to CURRENT |
| PortInformation.Bridge.Tick | src/mstpd_pti_sm.c:429-616 | when the ageing time runs out the port is quiet again, exactly unless loop guard holds it and it is no root port; then only its time and the inconsistency are written, and before the last second only its time |
| PortInformation.Bridge.OneSecond | src/mstpd_pti_sm.c:429-616 | in one second only loop guard brings a port to hold information whose time has run out |
| PortInformation.Bridge.Expire | src/mstpd_pti_sm.c:432-486 | the part of a second in which the time has run out |
| PortInformation.Bridge.ReceiveBpdu | src/mstpd_prx_sm.c:315-490 | the CIST message is taken in exactly once and dropped; an MSTI message stays up only on a port in AGED that was AGED before or whose time had run out, and, if the BPDU is from inside the region and the CIST dismisses its own message, exactly on the named ports that were AGED before; a superior message of firm information is recorded with its time; the CIST port is quiet if and only if the ageing time was restarted or had not run out; of every other port all that PIM may change is what Lasting allows |
| PortInformation.Bridge.AcceptBpdu | src/mstpd_prx_sm.c:315-490 | an accepted BPDU brings no port to hold information whose time has run out without a message being up |
| PortInformation.Bridge.ReceiveMessages | src/mstpd_prx_sm.c:315-490 | the same before the messages that stay up are counted |
| PortInformation.Bridge.ReceiveCist | src/mstpd_prx_sm.c:331-445 | the messages go up and the CIST deals with its own: on the MSTI ports of the BPDU nothing has changed but what Lasting allows, and their state is the same if the CIST message from inside the region is dismissed |
| PortInformation.Bridge.RaiseRcvdMsgs | src/mstpd_util.c:3578-3682 | rcvdMsg is up on the CIST and, within the region, on every MSTI the BPDU names; loop guard of the CIST may be released; every other port and every other field is unchanged |
| PortInformation.Bridge.RaiseMstis | src/mstpd_util.c:3640-3682 | rcvdMsg is up on this port of exactly the valid MSTIs the BPDU names, and nothing else has changed |
| PortInformation.Bridge.PimMstis | src/mstpd_prx_sm.c:451-489 | the message of a named MSTI stays up if and only if it was up and the port AGED, which it then still is; trees that are not named are not written; no port whose message is taken comes to hold information whose time has run out |
| PortInformation.Bridge.PimMessage | src/mstpd_prx_sm.c:457-486 | one message: loop guard is released just before PIM gets the packet; the message stays up if and only if it was up on a port in AGED |
| PortInformation.Bridge.PimCist | src/mstpd_pim_sm.c:586-600 | between events a CIST message is always taken into RECEIVE; the port is quiet if and only if the message restarted the ageing time or the time had not run out |
| PortInformation.Bridge.PimMsti | src/mstpd_pim_sm.c:586-600 | an MSTI message is taken into RECEIVE exactly if its port is not AGED, and stays up if and only if it is; only its own tree is written |
| PortInformation.Bridge.Unsuspected | src/mstpd_pim_sm.c:165-175 | between events an enabled port that hears no message and holds no information whose time has run out is quiet, which includes the exit assertion |
| PortInformation.Bridge.NeverAged | src/mstpd_util.c:6199-6214 | if no port hears a BPDU of its own, no port rests in AGED |
| PortState.ReselectedReady | src/mstpd_prs_sm.c:303-311 | after the three procedures PIM may be entered on every port, and nothing that calls keep is lost |
| PortState.RolesReady | src/mstpd_util.c:6199-6214 | role selection keeps what a call has to keep of every port; a port with its own information on the boundary is not asked to update |
| PortState.TrackedOn | src/mstpd_pim_sm.c:125-175 | one pass of the loop uses up the message or lowers the rank, and tells from the packet and the port as the loop found it whether the port comes out quiet |
| PortState.HandledThrough | src/mstpd_prx_sm.c:451-489 | an MSTI port through a whole BPDU: a message stays up only if it was named and the port AGED before or its time run out; if the CIST leaves its state alone, exactly on a port that was AGED |
| PortState.SuspectsAfter | src/mstpd_prx_sm.c:315-490 | what a BPDU does to the ports of all trees brings none of them to hold information whose time has run out |
| PortState.PendingShrinks | src/mstpd_pim_sm.c:962-1089 | disabling or ageing a pending port leaves strictly fewer pending ones: the measure of the recursion |
| PortState.BegunPort | src/mstpd_dyn_reconfig.c:69-154 | a port taken through BEGIN alone is settled among the others |
| PortState.ChangedPort | src/mstpd_util.c:610-617 | a change of portEnabled alone leaves every tree settled but for the agreement of that port |
| Md5Block.Calc | src/md5.c:239-314 | 64 macro calls with rotating registers are the 64-step compression function of section 3.4 of RFC 1321, for every state, block and byte order, and whatever the word operations |
| Md5Block.Round | src/md5.c:59-88 | one macro call is one step of the indexed loop with the registers rotated |
| Md5Block.Round1 | src/md5.c:274-281 | the 16 calls are steps 1 to 16 |
| Md5Block.Round2 | src/md5.c:283-290 | the 16 calls are steps 17 to 32 |
| Md5Block.Round3 | src/md5.c:292-299 | the 16 calls are steps 33 to 48 |
| Md5Block.Round4 | src/md5.c:301-308 | the 16 calls are steps 49 to 64 |
| Md5Block.ScheduleRows12 | src/md5.c:274-290 | the arguments of rounds 1 and 2 are those of the formulas j and (5j + 1) mod 16 |
| Md5Block.ScheduleRows34 | src/md5.c:292-308 | the arguments of rounds 3 and 4 are those of the formulas (3j + 5) mod 16 and 7j mod 16 |
| Md5Block.WordsOfBlock | src/md5.c:245-272 | the block read directly on a little-endian and byte-reversed on a big-endian processor gives the same words |
| Md5.Md5Pieces | src/md5.c:152-237 | for every split of a message into pieces of less than 2^29 bytes, and either byte order, the streamed digest is the one-shot digest of the whole, also if a piece is the array the digest is written to |
| Md5.HmacMd5 | src/md5.c:316-387 | for every key and text of int length the digest is HMAC with the counter as the program keeps it, and below 2^29 bytes the HMAC of section 2 of RFC 2104; text, key and digest may be one array, and the outer pass reads the array it then writes |
| Md5.HmacExact | src/md5.c:316-387 | HMAC with the counter as the program keeps it is HMAC for keys and texts below 2^29 bytes |
| Md5.Md5Ctxt.Loop | src/md5.c:163-185 | for every length whose loop ends, the context has absorbed the message with the new piece appended; the bit counter stays right exactly if the piece is shorter than 2^29 bytes |
| Md5.LoopStopsIff | src/md5.c:175-177 | after the last full block the guard of the loop fails exactly if the 32-bit counter has not wrapped |
| Md5.LoopFitsShort | src/md5.c:175-177 | up to 2^32 - 65 bytes the counter never wraps |
| Md5.Md5Ctxt.FillBlock | src/md5.c:171-173 | the block across the old tail and the new piece is the next block of the whole message |
| Md5.Md5Ctxt.Blocks | src/md5.c:175-177 | the blocks taken straight from the input are those of the whole message, up to the last full one |
| Md5.Md5Ctxt.Keep | src/md5.c:179-180 | the buffer holds exactly the tail of the whole message |
| Md5.Md5Ctxt.Append | src/md5.c:181-184 | a piece that does not fill the buffer is absorbed |
| Md5.Md5Ctxt.Count | src/md5.c:168 | the 32-bit product added to the counter is right exactly for pieces below 2^29 bytes |
| Md5.Md5Ctxt.Pad | src/md5.c:187-219 | both branches append exactly the padding of sections 3.1 and 3.2 of RFC 1321 and absorb it |
| Md5.Md5Ctxt.PadHere | src/md5.c:193-195 | padding that fits into the last block |
| Md5.Md5Ctxt.PadOn | src/md5.c:196-202 | padding that needs another block |
| Md5.Md5Ctxt.CopyCount | src/md5.c:204-217 | the last eight bytes are the count, low-order byte first, on either byte order |
| Md5.Md5Ctxt.Result | src/md5.c:221-237 | the 16 bytes are the state of section 3.5 of RFC 1321 on either byte order, and nothing behind them is written |
| Md5.Md5Ctxt.Final | src/md5.c:187-237 | the digest of the absorbed message with the counter as it stands; nothing behind the 16 bytes is written |
| Md5.Update | src/md5.c:163-185 | one update with a piece below 2^29 bytes keeps message and counter |
| Md5.Md5Ctxt.Init | src/md5.c:152-161 | the context has absorbed the empty message |
| Md5.HashPair | src/md5.c:373-386 | two updates and a final give the digest of the concatenation, also if the second piece is the digest array |
| Md5.HashOne | src/md5.c:340-342 | one update and a final give the digest of the argument |
| Md5.ShortKey | src/md5.c:335-346 | the key, hashed if longer than a block, fills up with zeros to the block key of RFC 2104 |
| Md5.Pads | src/md5.c:359-369 | both pads are the block key xored with their byte |
| Md5.XorPads | src/md5.c:365-369 | the loop in place xors all 64 bytes of both pads |
| Md5.PaddedLength | src/md5.c:187-219 | a padded message consists of full blocks, and no smaller number of zeros would do |
| Md5.CountExact | src/md5.c:168 | the 32-bit product is the bit count exactly below 2^29 bytes |
| Md5.CountAdds | src/md5.c:168 | the 64-bit counter is right after a piece exactly if the piece is that short |
| Md5.ChainPrefix | src/md5.c:171-177 | appending to a message does not change its first blocks |
| Md5.PadShort | src/md5.c:193-195 | the last block of a padded message with a tail below 56 bytes |
| Md5.PadLong | src/md5.c:196-202 | the last two blocks of a padded message with a tail of 56 bytes or more |
| Md5.Rfc1321 | src/md5.c:59-137 | the word operations and the table of RFC 1321 meet the assumptions under which everything is proved |
| BitCount.CountOfWord | src/mstpd_inlines.c:1257-1286 | the parallel bit count of a word is its number of set bits, for every word |
| BitCount.CountsByByte | src/mstpd_inlines.c:1279-1282 | the three summing steps work on the four bytes of a word independently |
| BitCount.Multiply | src/mstpd_inlines.c:1279-1282 | the multiplication adds up the four bytes modulo 256 |
| BitCount.SumOfFour | src/mstpd_inlines.c:1279-1282 | four counts of at most 8 add up without overflow |
| Words.LowestClear | src/mstpd_inlines.c:417-467 | ~w & (w + 1) isolates the lowest clear bit |
| Words.MaskBits | src/mstpd_inlines.c:370-415 | the masks 1 << n, (1 << n) - 1 and -(1 << n) hold the bits equal to, below, and from n on |
| Words.NegatedMask | src/mstpd_inlines.c:770-801 | the complement of the negated mask is the mask of the lower bits, for all 32 positions |
| Words.SameBits | src/mstpd_inlines.c:1344-1370 | a word is known by its bits |
| Bitmap.BitOr | src/mstpd_inlines.c:770-801 | union, for any size; tail bits clear above 32 bits; words behind the map untouched |
| Bitmap.BitAnd | src/mstpd_inlines.c:847-880 | intersection, likewise |
| Bitmap.BitXor | src/mstpd_inlines.c:1045-1077 | symmetric difference, likewise |
| Bitmap.BitSub | src/mstpd_inlines.c:1131-1162 | difference, likewise |
| Bitmap.BitInverse | src/mstpd_inlines.c:966-997 | complement within 1..maxBits, likewise |
| Bitmap.SubTwoWays | src/mstpd_inlines.c:1112-1162 | subtracting leaves the same words as anding with the inverse |
| Bitmap.CombinedSets | src/mstpd_inlines.c:770-880 | what holds word by word under the tail mask holds of the sets, for all four operations |
| Bitmap.MaskedClean | src/mstpd_inlines.c:770-801 | masked words leave no bit set behind maxBits |
| Bitmap.SetBit | src/mstpd_inlines.c:122-138 | exactly this bit is added, and every other bit of the array is kept |
| Bitmap.ClrBit | src/mstpd_inlines.c:170-187 | exactly this bit is taken out, and every other bit of the array is kept |
| Bitmap.IsBitSet | src/mstpd_inlines.c:567-587 | membership; numbers outside 1..maxBits are no members |
| Bitmap.Clear | src/mstpd_inlines.c:642-662 | the empty set, clean |
| Bitmap.SetAll | src/mstpd_inlines.c:698-719 | all of 1..maxBits, clean |
| Bitmap.Copy | src/mstpd_inlines.c:1483-1504 | the same set; a clean map stays clean |
| Bitmap.CleanTail | src/mstpd_inlines.c:770-801 | clean maps are those without tail bits |
| Bitmap.SameMembers | src/mstpd_inlines.c:1344-1370 | maps with the same set and the same bits behind maxBits have the same words |
| Bitmap.AreEqual | src/mstpd_inlines.c:1344-1370 | true if and only if the words are equal, which is if and only if sets and tail bits are; for clean maps set equality |
| Bitmap.AreAny | src/mstpd_inlines.c:1208-1232 | true if and only if a word is not zero, which is if and only if there is a member or a tail bit; for clean maps non-emptiness |
| Bitmap.StrayBit | src/mstpd_inlines.c:1208-1232 | a map without members for which the answer is true |
| BitmapScan.Enumerate | src/mstpd_inlines.c:240-415 | find-first followed by find-next until -1 visits exactly the members, ascending, each once, and ends |
| BitmapScan.FindFirst | src/mstpd_inlines.c:240-272 | the least member or -1, for every size |
| BitmapScan.FindNext | src/mstpd_inlines.c:370-415 | the least member above prevBit or -1, for every size, also when prevBit is maxBits |
| BitmapScan.FindNextSmall | src/mstpd_inlines.c:341-367 | the same for maps of one word |
| BitmapScan.FindNextClear | src/mstpd_inlines.c:417-467 | the least number above prevBit that is not set, or -1, whatever lies in the word read behind the map |
| BitmapScan.Count | src/mstpd_inlines.c:1257-1286 | the sum of the bit counts of the words for any map, and the size of the set for a clean one |
| BitmapScan.MembersOfWords | src/mstpd_inlines.c:1257-1286 | the number of set bits in the first words is the sum of their bit counts |
| BitmapScan.CleanMembers | src/mstpd_inlines.c:1257-1286 | the words of a clean map hold its members only |
| PackedField.SetField | src/mstpd_inlines.c:2182-2220 | the field takes the value, every other field keeps its own, and no other word is written |
| PackedField.GetField | src/mstpd_inlines.c:2287-2321 | the value whose bits are those of the field |
| PackedField.SetThenGet | src/mstpd_inlines.c:2182-2321 | a set followed by a get returns the value, and every other field reads as before |
| PackedField.OneToOne | src/mstpd_inlines.c:2182-2220 | no two fields share a place, although word and bit offset are computed from different numbers |
| PackedField.Apart | src/mstpd_inlines.c:2182-2220 | two fields of one word do not overlap |
| PackedField.FieldFits | src/mstpd_inlines.c:2182-2220 | a field does not cross a word boundary, and maxFields * size / 32 + 1 words hold them all |
| PackedField.FieldUnique | src/mstpd_inlines.c:2287-2321 | a field has one value only |
| VidTable.RunKeepsPartition | src/mstpd_dyn_reconfig.c:421-498 | over any run of updates, deletions and clearings of the CIST in which an instance takes VIDs only from itself and the CIST, the VID sets stay pairwise disjoint, and their union is the first one without what was cleared: no lost VID comes back |
| VidTable.BootAndRun | src/mstpd_init.c:1515-1531 | from boot on, on the word arrays: VIDs 1 to 4094 but those cleared with the CIST stay partitioned |
| VidTable.RemapDisjoint | src/mstpd_dyn_reconfig.c:421-498 | an update keeps the instances disjoint exactly if no new VID belongs to a third instance |
| VidTable.RemapMapped | src/mstpd_dyn_reconfig.c:421-498 | an update adds the new VIDs to the union and loses none |
| VidTable.RemapKeepsPartition | src/mstpd_dyn_reconfig.c:421-498 | new VIDs from the instance and the CIST keep partition and union |
| VidTable.StolenVid | src/mstpd_dyn_reconfig.c:421-498 | VID 5 taken from instance 1 to 2 ends up in both |
| VidTable.UnmapKeepsPartition | src/mstpd_ctrl.c:1750-1756 | deleting an instance keeps partition and union |
| VidTable.ClearCistLoses | src/mstpd_init.c:673-687 | clearing the CIST loses exactly the VIDs of the CIST |
| VidTable.InitialPartition | include/mstp_fsm.h:1081-1087 | at boot VIDs 1 to 4094 are partitioned |
| VidTable.Vids.constructor | src/mstpd_init.c:1515-1531 | the boot table, in which bit 4096 of the CIST map stays set |
| VidTable.Vids.UpdateMstiVidMapping | src/mstpd_dyn_reconfig.c:421-498 | on the word arrays: what the instance loses goes to the CIST, what it gains is taken from the CIST, the others keep theirs; the answer is whether the words differed |
| VidTable.SameVidsReported | src/mstpd_dyn_reconfig.c:421-498 | setting the CIST to the VIDs it has at boot counts as a change; only the assertion of the function admits the CIST, which its one caller never passes |
| VidTable.Vids.ChangeMapping | src/mstpd_dyn_reconfig.c:440-489 | the copy, inverse, and, or steps compute exactly those two sets |
| VidTable.Vids.UpdateMstiConfig | src/mstpd_ctrl.c:1551-1650 | the same through the configuration command, which creates the instance |
| VidTable.Vids.DeleteMstiConfig | src/mstpd_ctrl.c:1720-1788 | the VIDs of a deleted instance go to the CIST |
| VidTable.Vids.ClearBridgeCistData | src/mstpd_init.c:673-687 | the CIST map is emptied and nothing else changes |
| VidTable.Vids.Run | src/mstpd_ctrl.c:1551-1788 | the word arrays after any sequence of commands, clearings included, represent the sets that the commands define one after another |
| VidTable.AddAllVids | include/mstp_fsm.h:1081-1087 | VIDs 1 to 4094, with bit 4096 left set |
| VidTable.Difference | src/mstpd_dyn_reconfig.c:445-457 | copy, inverse, and: the difference of two maps, clean |
| VidTable.TakeAway | src/mstpd_dyn_reconfig.c:474-484 | copy, inverse, and: the VIDs are taken out in place |
| PortCache.Cache.UpdateL2PortCache | src/mstpd_ovsdb_if.c:1421-1504 | past the gate on the count, the messages name exactly old minus new and new minus old, ascending, and the cache is the new set; it is up to date exactly if the gate was passed or the sets agree |
| PortCache.Cache.constructor | src/mstpd_ovsdb_if.c:1421-1430 | the empty cache satisfies the invariant |
| PortCache.Cache.SendDeletions | src/mstpd_ovsdb_if.c:1463-1486 | one message for each port to delete, ascending; exactly their lookups are dropped |
| PortCache.Cache.SendAdditions | src/mstpd_ovsdb_if.c:1487-1498 | one message for each port to add, ascending, and their number |
| PortCache.Cache.DropMstiLookups | src/mstpd_ovsdb_if.c:1477-1484 | the lookups of this port go for every MSTI, and no other |
| PortCache.ReplayDelta | src/mstpd_ovsdb_if.c:1463-1498 | replaying the messages on the old set yields the new one |
| PortCache.ExchangeMissed | src/mstpd_ovsdb_if.c:1430 | after an exchange of port 1 for port 2 the cache still holds port 1, and no message has been sent |
| PortCache.ListedAscends | src/mstpd_ovsdb_if.c:1467-1469 | the listing names every member once, ascending |
| PortCache.RowPorts | src/mstpd_ovsdb_if.c:1432-1441 | the map of the ports of the rows |
| PortCache.FirstPort | src/mstpd_inlines.c:2571-2660 | the first port, with -1 stored in 16 bits as no port |
| PortCache.PortAfter | src/mstpd_inlines.c:2571-2660 | the next port, likewise |
| MessageQueue.MQueue.Run | src/mqueue.c:30-131 | every interleaving of any number of producers with the consumer: the list stays linked, its length is the semaphore plus claims plus the one between insert and post, and what was taken followed by what is queued is what was sent, in order |
| MessageQueue.MQueue.Perform | src/mqueue.c:30-131 | the same for one step; sent and taken only grow |
| MessageQueue.MQueue.RemoveWait | src/mqueue.c:117-123 | a consumer past sem_wait unlinks the oldest message and never the tail sentinel |
| MessageQueue.MQueue.DropOne | src/mqueue.c:42-50 | mqueue_free discards the oldest message |
| MessageQueue.MQueue.ResetFree | src/mqueue.c:52-56 | after the loop and sem_init the queue is empty, the semaphore 0, and everything sent has been taken |
| MessageQueue.MQueue.InsertSend | src/mqueue.c:95-96 | the message goes to the end of the queue and is recorded as sent |
| MessageQueue.MQueue.PostSend | src/mqueue.c:98-101 | posting pays for the inserted message |
| MessageQueue.MQueue.SemWait | src/mqueue.c:117-118 | a claim takes one from the semaphore |
| MessageQueue.MQueue.InsertLast | src/mqueue.c:95-96 | insertion before the tail sentinel keeps the links and appends the data |
| MessageQueue.MQueue.RemoveFirst | src/mqueue.c:121-122 | unlinking the first element keeps the links, returns its data and is no sentinel |
| MessageQueue.MQueue.EmptyList | src/mqueue.c:42-43 | the head points to the tail exactly if the queue is empty |
| MessageQueue.MQueue.constructor | src/mqueue.c:60-78 | an empty queue that satisfies the invariant |
| MessageQueue.ForeignFree | src/mqueue.c:30-58 | a free by another thread than the consumer can leave a claim on an empty queue, which breaks the count |
| ThreadQueue.Queue.InformDB | src/mstpd_ctrl.c:1803-2002 | each queued message is visited once, in order, although it may be unlinked meanwhile; on the timer the queue ends empty, otherwise unchanged; the five maps are empty, the flush maps untouched; the events told are those of the messages, in order |
| ThreadQueue.Queue.Visit | src/mstpd_ctrl.c:1816-1998 | one pass: the next message is found before this one is unlinked |
| ThreadQueue.Queue.InformMessage | src/mstpd_ctrl.c:1824-1990 | the maps of one message and the events it gives rise to |
| ThreadQueue.Queue.InformAndRemove | src/mstpd_ctrl.c:1824-1998 | the message is propagated and, on the timer, unlinked |
| ThreadQueue.Queue.UpdatePortMaps | src/mstpd_init.c:896-925 | the port is taken out of every map of every message, and nothing else changes |
| ThreadQueue.Queue.ClearAll | src/mstpd_init.c:865-875 | the queue is emptied, and the loop ends |
| ThreadQueue.Queue.FindMessage | src/mstpd_util.c:7035-7048 | the first message of the instance, or none if there is none |
| ThreadQueue.Queue.Insqti | src/mstpd_inlines.c:2772-2787 | an item that is in no queue, new or removed before, is appended, and the result tells whether there were others |
| ThreadQueue.Queue.RemqHere | src/mstpd_inlines.c:2826-2858 | exactly this item is unlinked; the head and items outside any queue are left alone |
| ThreadQueue.Queue.Unlink | src/mstpd_inlines.c:2826-2858 | the ring closes behind the item |
| ThreadQueue.Queue.Remqhi | src/mstpd_inlines.c:2879-2898 | the first item is unlinked and returned, or null |
| ThreadQueue.Queue.UnlinkFirst | src/mstpd_inlines.c:2879-2898 | the ring closes behind the head |
| ThreadQueue.Queue.QFirst | src/mstpd_inlines.c:2791-2802 | the first item or null |
| ThreadQueue.Queue.QNext | src/mstpd_inlines.c:2805-2824 | the item behind this one or null |
| ThreadQueue.Queue.QEmpty | src/mstpd_inlines.c:2860-2864 | whether there is no item |
| ThreadQueue.Queue.constructor | src/mstpd_inlines.c:2919-2925 | an empty ring |
| Ppm.PpmPort.Run | src/mstpd_ppm_sm.c:76-124 | over any run of ticks, receipts, discards and port events the changes of sendRSTP alternate and are at least MigrateTime ticks apart, except a change to true after the port was disabled or mcheck set |
| Ppm.BootAndRun | src/mstpd_init.c:240-306 | the same from boot on: a new port goes through BEGIN and then any actions happen to it |
| Ppm.StopsIff | src/mstpd_ppm_sm.c:76-124 | the loop stops for every port exactly if MigrateTime is between 1 and 255 |
| Ppm.StopsWithin | src/mstpd_ppm_sm.c:76-124 | within that range, after at most two passes, and where the steps lead |
| Ppm.RankFalls | src/mstpd_ppm_sm.c:76-124 | every pass that does not rest lowers the rank |
| Ppm.StaysRestless | src/mstpd_ppm_sm.c:187-229 | outside it, a disabled port moves for ever |
| Ppm.Settled | src/mstpd_ppm_sm.c:76-124 | repeated steps reach a state with no enabled transition |
| Ppm.StepLowers | src/mstpd_ppm_sm.c:187-343 | every transition lowers the rank |
| Ppm.PpmPort.PpmSm | src/mstpd_ppm_sm.c:76-124 | the call ends where the steps lead, with no transition enabled, and keeps the spacing of the changes |
| Ppm.PpmPort.CheckingRstpCond | src/mstpd_ppm_sm.c:187-229 | one step, taken exactly if some transition is enabled; the spacing is kept |
| Ppm.PpmPort.SelectingStpCond | src/mstpd_ppm_sm.c:247-277 | likewise |
| Ppm.PpmPort.SensingCond | src/mstpd_ppm_sm.c:295-343 | likewise: the only place where sendRSTP changes, and only after the timer has run out since the last change |
| Ppm.PpmPort.TimerTick | src/mstpd_pti_sm.c:347-362 | one tick keeps the spacing; the machine is kicked exactly when the timer runs out on an enabled port |
| PrxBdm.EdgePort.Run | src/mstpd_prx_sm.c:72-109 | over any run of events: every time a port turns EDGE after a BPDU, while enabled and not reconfigured, what started its timer last was due; before MigrateTime + 1 ticks it turns EDGE only after an early proposal |
| PrxBdm.EarlyIff | src/mstpd_prt_sm.c:3129-3166 | a proposal is early on a point-to-point link exactly before the first tick after the BPDU, on a shared one exactly while the ticks and maxAge together do not exceed MigrateTime |
| PrxBdm.Attained | src/mstpd_prt_sm.c:3129-3166 | for everything that can start the timer there is a run from boot in which the port turns EDGE just when it is due |
| PrxBdm.EdgeTooSoon | src/mstpd_prt_sm.c:3129-3166 | a proposal on a point-to-point link in the tick of the BPDU lets the port turn EDGE after MigrateTime ticks |
| PrxBdm.EdgePort.Handle | src/mstpd_prx_sm.c:72-109 | one event keeps the invariant and the record of the turns |
| PrxBdm.EdgePort.PrxSm | src/mstpd_prx_sm.c:72-109 | the receive action runs at most once, exactly if an enabled port may accept the BPDU, and then leaves the port as Bridge Detection and the other machines make it; an enabled port that accepts nothing is not written |
| PrxBdm.EdgePort.GeneralCond | src/mstpd_prx_sm.c:128-160 | a disabled port drops its BPDU, goes to DISCARD and leaves its window; an enabled one is left alone |
| PrxBdm.EdgePort.ReceiveAct | src/mstpd_prx_sm.c:315-490 | the BPDU is used up, the window opens at tick 0, and Bridge Detection and the other machines follow |
| PrxBdm.EdgePort.HandOver | src/mstpd_prx_sm.c:417-440 | Bridge Detection first, then the other machines; window and timer stay consistent |
| PrxBdm.BpduEndsEdge | src/mstpd_prx_sm.c:392-422 | a BPDU makes every port NOT_EDGE exactly if MigrateTime is not 255 modulo 256 |
| PrxBdm.EdgePort.BdmSm | src/mstpd_bdm_sm.c:74-103 | one transition of Bridge Detection; a port leaves the window after a BPDU by turning EDGE with its timer run out, and only so |
| PrxBdm.EdgePort.EdgeAct | src/mstpd_bdm_sm.c:265-314 | turning EDGE closes the window and records the ticks since the BPDU |
| PrxBdm.EdgePort.NotEdgeAct | src/mstpd_bdm_sm.c:331-382 | turning NOT_EDGE keeps the window |
| PrxBdm.EdgePort.OtherMachines | src/mstpd_prt_sm.c:3129-3166 | a proposal restarts the timer, and the tick of the restart is remembered |
| PrxBdm.EdgePort.TimerTick | src/mstpd_pti_sm.c:304-316 | one tick: Bridge Detection is kicked exactly when the timer runs out |
| PrxBdm.EdgePort.Wait | src/mstpd_pti_sm.c:304-316 | ticks of a port that is not ready for EDGE, or whose timer is longer, only count |
| PrxBdm.EdgePort.WaitForEdge | src/mstpd_pti_sm.c:304-316 | a port that is ready turns EDGE exactly when the timer runs out |
| PrxBdm.EdgePort.ChangeEnabled | src/mstpd_util.c:600-790 | no BPDU is accepted; enabling changes nothing else, and a disabled port leaves the window without turning EDGE |
| PrxBdm.EdgePort.Begin | src/mstpd_init.c:196-306 | BEGIN establishes the invariant and accepts nothing |
| PrxBdm.Ready | src/mstpd_init.c:265-269 | a port from boot that is enabled, detects edges by itself and is NOT_EDGE |

## Left out

- Port Role Transitions, Topology Change, Port Transmit, Port State Transition and BPDU decoding: only the effects listed under Assumptions are modelled.
- The handshake flags (proposing, proposed, agree, agreed, synced), newInfo, infoInternal, portTimes and the contents of priority vectors in PIM and PRS: what the machines see of them is under Assumptions.
- The flag rcvdSelfSentPkt and the vectors a verdict is computed from: verdicts, ageing times and what a recorded vector is worth are part of a packet.
- The early return of the UPDATE action when no database transaction can be created (src/mstpd_pim_sm.c:1183-1189): database I/O.
- Creation and deletion of trees while the bridge runs, re-initialisation of the protocol while it runs, and BEGIN with an enabled port.
- OVSDB transactions and rows, sockets, timers of the host, signals, logging, traps and the command line.
- Failing malloc, sem_init, sem_post and null arguments; after a failing sem_init mqueue_free returns with the mutex locked.
- Liveness of the message queue: a blocked thread is passed over, and no fairness is assumed.
- Bitmaps as byte arrays, areAllBitsSet and its variants, isBitSet64, bitmapsOverlap, findFirstBitClr, bitReverse and the byte-order copies: easy, or not what their names say.
- The table of sines as real numbers: its 64 constants are taken as they are.
- Port maps of queued messages are sets, and database writes are entries of a log: the arrays behind them are the subject of Bitmap. The portsClearEdge map of a message is not modelled.
- Names of ports in the port cache, and the dereference of a lookup entry that is null: foreign data.
- numOfValidTrees, the LAG pool and the trap timers: easy, or no invariant.
- SetAll: does not state the case of exactly 32 bits, because the source shifts by the width of the word there, which C leaves undefined.
- PpmPort.Run: states MigrateTime from 1 to 255, because outside it the machine does not come to rest.
- Md5Ctxt.Loop: states the lengths whose loop ends, because past them the source reads behind its input.
