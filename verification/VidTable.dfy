/** The table that maps VLAN IDs to spanning tree instances (mstp_MstiVidTable): one bitmap
    per instance, viewed as the set of its VIDs. */
module VidTable {

  import opened Words
  import opened Bitmap

  const MAX_VLAN_ID: nat := 4095
  const INTERNAL_VID: nat := 4095
  const CIST: nat := 0

  /** Words of a VID_MAP. */
  const VID_WORDS: nat := 128

  // ---------------------------------------------------------------------------
  // The table as a sequence of sets
  // ---------------------------------------------------------------------------

  /** No VID belongs to two instances. */
  ghost predicate Disjoint(t: seq<set<nat>>) {
    forall i, j | 0 <= i < j < |t| :: t[i] !! t[j]
  }

  /** The VIDs mapped to some instance. */
  ghost function Mapped(t: seq<set<nat>>): set<nat> {
    if |t| == 0 then {} else Mapped(t[..|t| - 1]) + t[|t| - 1]
  }

  lemma {:induction false} InMapped(t: seq<set<nat>>, v: nat)
    ensures v in Mapped(t) <==> exists i | 0 <= i < |t| :: v in t[i]
  {
    if |t| > 0 {
      InMapped(t[..|t| - 1], v);
      if v in t[|t| - 1] {
      } else if i :| 0 <= i < |t| && v in t[i] {
        assert v in t[..|t| - 1][i];
      }
    }
  }

  /** The table after the VIDs of instance m have been set to `vids`: what m loses goes to
      the CIST, what it gains is taken from the CIST. */
  ghost function Remap(t: seq<set<nat>>, m: nat, vids: set<nat>): (r: seq<set<nat>>)
    requires m < |t|
    ensures |r| == |t|
  {
    if m == CIST then t[CIST := vids]
    else t[m := vids][CIST := (t[CIST] + (t[m] - vids)) - (vids - t[m])]
  }

  /** The table after instance m has been deleted. */
  ghost function Unmap(t: seq<set<nat>>, m: nat): (r: seq<set<nat>>)
    requires 0 < m < |t|
    ensures |r| == |t|
  {
    t[CIST := t[CIST] + t[m]][m := {}]
  }

  /** The table after boot: VIDs 1 to 4094 belong to the CIST. */
  ghost function Initial(instances: nat): (t: seq<set<nat>>)
    ensures |t| == instances + 1
  {
    seq(instances + 1, i => if i == CIST then Universe(MAX_VLAN_ID - 1) else {})
  }

  lemma InitialPartition(instances: nat)
    ensures Disjoint(Initial(instances))
    ensures forall v: nat :: v in Mapped(Initial(instances)) <==> 1 <= v < MAX_VLAN_ID
  {
    var t := Initial(instances);
    forall v: nat
      ensures v in Mapped(t) <==> 1 <= v < MAX_VLAN_ID
    {
      InMapped(t, v);
      assert v in t[CIST] <==> 1 <= v < MAX_VLAN_ID;
    }
  }

  /** Setting the VIDs of an MSTI keeps the instances disjoint exactly if no new VID belongs
      to a third instance. */
  lemma RemapDisjoint(t: seq<set<nat>>, m: nat, vids: set<nat>)
    requires 0 < m < |t| && Disjoint(t)
    ensures Disjoint(Remap(t, m, vids)) <==> forall k | 0 < k < |t| && k != m :: vids !! t[k]
  {
    var r := Remap(t, m, vids);
    assert r[m] == vids;
    if Disjoint(r) {
      forall k | 0 < k < |t| && k != m
        ensures vids !! t[k]
      {
        assert r[k] == t[k];
        assert if k < m then r[k] !! r[m] else r[m] !! r[k];
      }
    }
  }

  lemma MappedBy(t: seq<set<nat>>, i: nat, v: nat)
    requires i < |t| && v in t[i]
    ensures v in Mapped(t)
  {
    InMapped(t, v);
  }

  /** A mapped VID stays mapped. */
  lemma RemapKeeps(t: seq<set<nat>>, m: nat, vids: set<nat>, v: nat)
    requires 0 < m < |t| && (v in Mapped(t) || v in vids)
    ensures v in Mapped(Remap(t, m, vids))
  {
    hide Mapped;
    var r := Remap(t, m, vids);
    if v in vids {
      MappedBy(r, m, v);
    } else {
      InMapped(t, v);
      var i :| 0 <= i < |t| && v in t[i];
      MappedBy(r, if i == m then CIST else i, v);
    }
  }

  /** Setting the VIDs of an MSTI adds them to the mapped VIDs and loses none. */
  lemma RemapMapped(t: seq<set<nat>>, m: nat, vids: set<nat>)
    requires 0 < m < |t|
    ensures Mapped(Remap(t, m, vids)) == Mapped(t) + vids
  {
    hide Mapped;
    var r := Remap(t, m, vids);
    forall v: nat
      ensures v in Mapped(r) <==> v in Mapped(t) || v in vids
    {
      if v in Mapped(t) || v in vids {
        RemapKeeps(t, m, vids, v);
      } else if v in Mapped(r) {
        InMapped(r, v);
        var i :| 0 <= i < |r| && v in r[i];
        MappedBy(t, if v in t[i] then i else m, v);
      }
    }
  }

  /** With new VIDs from the instance itself and from the CIST only, the partition is kept. */
  lemma RemapKeepsPartition(t: seq<set<nat>>, m: nat, vids: set<nat>)
    requires 0 < m < |t| && Disjoint(t) && vids <= t[m] + t[CIST]
    ensures Disjoint(Remap(t, m, vids)) && Mapped(Remap(t, m, vids)) == Mapped(t)
  {
    RemapDisjoint(t, m, vids);
    RemapMapped(t, m, vids);
    forall v | v in vids
      ensures v in Mapped(t)
    {
      InMapped(t, v);
    }
    forall k | 0 < k < |t| && k != m
      ensures vids !! t[k]
    {
      assert t[CIST] !! t[k];
      assert if k < m then t[k] !! t[m] else t[m] !! t[k];
    }
  }

  /** Taking a VID from a third instance maps it twice: here VID 5 from instance 1 to 2. */
  lemma StolenVid()
    ensures var t: seq<set<nat>> := [{}, {5}, {}]; Disjoint(t) && !Disjoint(Remap(t, 2, {5}))
  {
    var t: seq<set<nat>> := [{}, {5}, {}];
    var r := Remap(t, 2, {5});
    assert 5 in r[1] && 5 in r[2];
  }

  /** Deleting an MSTI keeps the partition. */
  lemma UnmapKeepsPartition(t: seq<set<nat>>, m: nat)
    requires 0 < m < |t| && Disjoint(t)
    ensures Disjoint(Unmap(t, m)) && Mapped(Unmap(t, m)) == Mapped(t)
  {
    var r := Unmap(t, m);
    forall i, j | 0 <= i < j < |t|
      ensures r[i] !! r[j]
    {
      assert t[i] !! t[j];
      if i == CIST && j != m {
        assert if j < m then t[j] !! t[m] else t[m] !! t[j];
      }
    }
    forall v: nat
      ensures v in Mapped(r) <==> v in Mapped(t)
    {
      InMapped(r, v);
      InMapped(t, v);
      assert v in r[CIST] <==> v in t[CIST] || v in t[m];
      if v in Mapped(t) {
        var i :| 0 <= i < |t| && v in t[i];
        assert v in r[i] || v in r[CIST];
      }
    }
  }

  /** Clearing the CIST leaves the instances disjoint but gives up the VIDs of the CIST. */
  lemma ClearCistLoses(t: seq<set<nat>>)
    requires |t| > 0 && Disjoint(t)
    ensures Disjoint(t[CIST := {}]) && Mapped(t[CIST := {}]) == Mapped(t) - t[CIST]
  {
    var r := t[CIST := {}];
    forall v: nat
      ensures v in Mapped(r) <==> v in Mapped(t) && v !in t[CIST]
    {
      InMapped(r, v);
      InMapped(t, v);
      if v in Mapped(r) {
        var i :| 0 <= i < |r| && v in r[i];
        assert v in t[i] && t[CIST] !! t[i];
      }
      if v in Mapped(t) && v !in t[CIST] {
        var i :| 0 <= i < |t| && v in t[i];
        assert v in r[i];
      }
    }
  }

  // ---------------------------------------------------------------------------
  // Runs of configuration commands
  // ---------------------------------------------------------------------------

  /** ClearCist is mstp_clearBridgeCistData. */
  datatype Command = Configure(m: nat, vids: seq<Word>) | Delete(m: nat) | ClearCist

  ghost predicate Proper(c: Command, instances: nat) {
    match c
    case Configure(m, vids) => 0 < m <= instances && |vids| == VID_WORDS
    case Delete(m) => 0 < m <= instances
    case ClearCist => true
  }

  ghost function Step(t: seq<set<nat>>, c: Command): (r: seq<set<nat>>)
    requires |t| > 0 && Proper(c, |t| - 1)
    ensures |r| == |t|
  {
    match c
    case Configure(m, vids) => Remap(t, m, Members(vids, MAX_VLAN_ID))
    case Delete(m) => Unmap(t, m)
    case ClearCist => t[CIST := {}]
  }

  ghost function Steps(t: seq<set<nat>>, cs: seq<Command>): (r: seq<set<nat>>)
    requires |t| > 0 && forall i | 0 <= i < |cs| :: Proper(cs[i], |t| - 1)
    ensures |r| == |t|
  {
    if |cs| == 0 then t else Step(Steps(t, cs[..|cs| - 1]), cs[|cs| - 1])
  }

  /** Every command asks only for VIDs that its instance or the CIST has when it comes. */
  ghost predicate Fair(t: seq<set<nat>>, cs: seq<Command>)
    requires |t| > 0 && forall i | 0 <= i < |cs| :: Proper(cs[i], |t| - 1)
  {
    if |cs| == 0 then true
    else
      var c, s := cs[|cs| - 1], Steps(t, cs[..|cs| - 1]);
      assert Proper(c, |t| - 1);
      Fair(t, cs[..|cs| - 1]) && (c.Configure? ==> Members(c.vids, MAX_VLAN_ID) <= s[c.m] + s[CIST])
  }

  /** The VIDs the CIST had whenever it was cleared. */
  ghost function Lost(t: seq<set<nat>>, cs: seq<Command>): set<nat>
    requires |t| > 0 && forall i | 0 <= i < |cs| :: Proper(cs[i], |t| - 1)
  {
    if |cs| == 0 then {}
    else Lost(t, cs[..|cs| - 1]) + if cs[|cs| - 1].ClearCist? then Steps(t, cs[..|cs| - 1])[CIST] else {}
  }

  /** Over any run of fair commands the instances stay disjoint, and what they have together
      is what they had at first without what was cleared with the CIST: no lost VID comes
      back. */
  lemma {:induction false} RunKeepsPartition(t: seq<set<nat>>, cs: seq<Command>)
    requires |t| > 0 && (forall i | 0 <= i < |cs| :: Proper(cs[i], |t| - 1)) && Disjoint(t) && Fair(t, cs)
    ensures Disjoint(Steps(t, cs)) && Mapped(Steps(t, cs)) == Mapped(t) - Lost(t, cs)
  {
    hide Disjoint, Mapped, Remap, Unmap, Members;
    if |cs| > 0 {
      var c, s := cs[|cs| - 1], Steps(t, cs[..|cs| - 1]);
      RunKeepsPartition(t, cs[..|cs| - 1]);
      match c {
        case Configure(m, vids) => RemapKeepsPartition(s, m, Members(vids, MAX_VLAN_ID));
        case Delete(m) => UnmapKeepsPartition(s, m);
        case ClearCist => ClearCistLoses(s);
      }
    }
  }

  // ---------------------------------------------------------------------------
  // The table itself
  // ---------------------------------------------------------------------------

  class Vids {
    const table: seq<array<Word>>
    var infos: set<nat>   // the MSTIs that exist (MSTP_MSTI_INFO is not null)

    ghost predicate Valid()
      reads this, table
    {
      && |table| > 0
      && (forall i | 0 <= i < |table| :: table[i].Length == VID_WORDS)
      && (forall i, j | 0 <= i < j < |table| :: table[i] != table[j])
      && (forall i | 0 < i < |table| && i !in infos :: VidsOf(i) == {})
    }

    ghost function VidsOf(i: nat): set<nat>
      requires i < |table|
      reads table
    {
      Members(table[i][..], MAX_VLAN_ID)
    }

    /** The table as a sequence of sets. */
    ghost function Table(): (t: seq<set<nat>>)
      reads table
      ensures |t| == |table|
    {
      seq(|table|, i requires 0 <= i < |table| reads table => VidsOf(i))
    }

    /** mstp_initControlData: all VIDs are mapped to the CIST. Bit 4096, past the last VID,
        stays set in its map, since VID 4095 is cleared twice. */
    constructor (instances: nat)
      ensures Valid() && Table() == Initial(instances) && infos == {}
      ensures In(table[CIST][..], 4096) && !Clean(table[CIST][..], MAX_VLAN_ID)
      ensures fresh(table)
    {
      var maps: seq<array<Word>> := [];
      for i := 0 to instances + 1
        invariant |maps| == i
        invariant forall k | 0 <= k < i :: maps[k].Length == VID_WORDS && fresh(maps[k])
        invariant forall k, l | 0 <= k < l < i :: maps[k] != maps[l]
        invariant forall k | 0 <= k < i :: maps[k][..] == seq(VID_WORDS, _ => 0 as Word)
      {
        var a := new Word[VID_WORDS](_ => 0);
        maps := maps + [a];
      }
      table := maps;
      infos := {};
      new;
      hide Members, Universe, In, Clean;
      assert WordsFor(MAX_VLAN_ID) == VID_WORDS;
      forall i | 0 <= i < |table|
        ensures VidsOf(i) == {}
      {
        ZerosAreNone(table[i][..], MAX_VLAN_ID);
      }
      AddAllVids(table[CIST]);
      assert forall i | 0 < i < |table| :: VidsOf(i) == {} == Initial(instances)[i];
      assert VidsOf(CIST) == Universe(MAX_VLAN_ID - 1) == Initial(instances)[CIST];
      assert Table() == Initial(instances);
    }

    /** mstp_updateMstiVidMapping. The result tells whether the words differed. For the CIST
        the current map and the map of the CIST are the same array. */
    method UpdateMstiVidMapping(mstid: nat, newVidMap: array<Word>) returns (res: bool)
      requires Valid() && mstid < |table| && newVidMap.Length == VID_WORDS && newVidMap !in table
      requires mstid == CIST || mstid in infos
      modifies table[mstid], table[CIST]
      ensures Valid() && Table() == Remap(old(Table()), mstid, Members(newVidMap[..], MAX_VLAN_ID))
      ensures res <==> newVidMap[..] != old(table[mstid][..])
      ensures !res ==> forall a | a in table :: a[..] == old(a[..])
    {
      hide Members, Clean, RestKept, WordsFor;
      assert WordsFor(MAX_VLAN_ID) == VID_WORDS by { FourThousandBits(); }
      ghost var t, vids := Table(), Members(newVidMap[..], MAX_VLAN_ID);
      var curVidMap := table[mstid];
      var equal := AreEqual(newVidMap, curVidMap, MAX_VLAN_ID);
      assert equal <==> newVidMap[..] == curVidMap[..];
      res := false;
      if !equal {
        ChangeMapping(mstid, curVidMap, newVidMap);
        res := true;
      }
      assert forall i | 0 <= i < |table| && i != mstid && i != CIST :: VidsOf(i) == t[i];
      assert Table() == Remap(t, mstid, vids);
    }

    /** The part of mstp_updateMstiVidMapping that runs when the maps differ. */
    method ChangeMapping(mstid: nat, curVidMap: array<Word>, newVidMap: array<Word>)
      requires Valid() && mstid < |table| && newVidMap.Length == VID_WORDS && newVidMap !in table
      requires curVidMap == table[mstid]
      modifies curVidMap, table[CIST]
      ensures VidsOf(mstid) == Members(newVidMap[..], MAX_VLAN_ID)
      ensures mstid != CIST ==>
        var was, now := old(VidsOf(mstid)), VidsOf(mstid);
        VidsOf(CIST) == (old(VidsOf(CIST)) + (was - now)) - (now - was)
    {
      hide Members, Clean, RestKept, WordsFor;
      FourThousandBits();
      var delVidMap := Difference(curVidMap, newVidMap);
      var addVidMap := Difference(newVidMap, curVidMap);
      var any := AreAny(delVidMap, MAX_VLAN_ID);
      if any {
        BitOr(delVidMap, table[CIST], MAX_VLAN_ID);
      }
      any := AreAny(addVidMap, MAX_VLAN_ID);
      if any {
        TakeAway(addVidMap, table[CIST]);
      }
      Copy(newVidMap, curVidMap, MAX_VLAN_ID);
    }

    /** update_mstp_msti_config, as far as VIDs go. */
    method UpdateMstiConfig(mstid: nat, vlans: array<Word>)
      requires Valid() && 0 < mstid < |table| && vlans.Length == VID_WORDS && vlans !in table
      modifies this`infos, table[mstid], table[CIST]
      ensures Valid() && Table() == Remap(old(Table()), mstid, Members(vlans[..], MAX_VLAN_ID))
      ensures infos == old(infos) + {mstid}
    {
      infos := infos + {mstid};
      var res := UpdateMstiVidMapping(mstid, vlans);
    }

    /** delete_mstp_msti_config, as far as VIDs go; mstp_clearBridgeMstiData does the same.
        An instance that does not exist has no VIDs to give back. */
    method DeleteMstiConfig(mstid: nat)
      requires Valid() && 0 < mstid < |table|
      modifies this`infos, table[mstid], table[CIST]
      ensures Valid() && Table() == Unmap(old(Table()), mstid) && infos == old(infos) - {mstid}
    {
      hide Members, Clean, RestKept, WordsFor;
      assert WordsFor(MAX_VLAN_ID) == VID_WORDS by { FourThousandBits(); }
      ghost var t := Table();
      if mstid !in infos {
        assert t[mstid] == VidsOf(mstid) == {};
        assert t[CIST] + t[mstid] == t[CIST];
        assert Unmap(t, mstid) == t;
        return;
      }
      BitOr(table[mstid], table[CIST], MAX_VLAN_ID);
      Clear(table[mstid], MAX_VLAN_ID);
      infos := infos - {mstid};
      assert forall i | 0 <= i < |table| && i != mstid && i != CIST :: VidsOf(i) == t[i];
      assert VidsOf(mstid) == {} && VidsOf(CIST) == t[CIST] + t[mstid];
      assert Table() == Unmap(t, mstid);
    }

    /** mstp_clearBridgeCistData, as far as VIDs go. */
    method ClearBridgeCistData()
      requires Valid()
      modifies table[CIST]
      ensures Valid() && Table() == old(Table())[CIST := {}]
    {
      hide Members, Clean, RestKept, WordsFor;
      assert WordsFor(MAX_VLAN_ID) == VID_WORDS by { FourThousandBits(); }
      ghost var t := Table();
      Clear(table[CIST], MAX_VLAN_ID);
      assert forall i | 0 < i < |table| :: VidsOf(i) == t[i];
      assert Table() == t[CIST := {}];
    }

    /** The commands one after another. */
    method Run(cs: seq<Command>)
      requires Valid() && forall i | 0 <= i < |cs| :: Proper(cs[i], |table| - 1)
      modifies this`infos, table
      ensures Valid() && Table() == Steps(old(Table()), cs)
    {
      hide Members, Unmap, Remap;
      for i := 0 to |cs|
        invariant Valid() && Table() == Steps(old(Table()), cs[..i])
      {
        assert cs[i] in cs && cs[..i + 1][..i] == cs[..i];
        match cs[i] {
          case Configure(m, vids) =>
            var vlans := new Word[VID_WORDS](k requires 0 <= k < VID_WORDS => vids[k]);
            assert vlans[..] == vids;
            UpdateMstiConfig(m, vlans);
          case Delete(m) =>
            DeleteMstiConfig(m);
          case ClearCist =>
            ClearBridgeCistData();
        }
      }
      assert cs[..|cs|] == cs;
    }
  }

  /** From boot on fair commands keep the VIDs 1 to 4094, but those cleared with the CIST,
      partitioned among the instances. */
  method BootAndRun(instances: nat, cs: seq<Command>) returns (v: Vids)
    requires (forall i | 0 <= i < |cs| :: Proper(cs[i], instances)) && Fair(Initial(instances), cs)
    ensures v.Valid() && Disjoint(v.Table())
    ensures forall vid: nat ::
              vid in Mapped(v.Table()) <==> 1 <= vid < MAX_VLAN_ID && vid !in Lost(Initial(instances), cs)
  {
    hide Disjoint, Mapped, Initial, Steps, Fair, Lost;
    v := new Vids(instances);
    v.Run(cs);
    InitialPartition(instances);
    RunKeepsPartition(Initial(instances), cs);
  }

  /** The maps are compared word by word: setting the CIST to the VIDs it has at boot counts
      as a change, since bit 4096 is set in its map. Only the assertion of the function admits
      this: its one caller passes an MSTI. */
  method SameVidsReported() returns (v: Vids, res: bool)
    ensures v.Valid() && v.Table() == Initial(1) && res
  {
    hide Members, In, Clean, Universe;
    v := new Vids(1);
    FourThousandBits();
    var newVidMap := new Word[VID_WORDS];
    ghost var cist := v.table[CIST][..];
    SetAll(newVidMap, MAX_VLAN_ID);
    ClrBit(newVidMap, INTERNAL_VID, MAX_VLAN_ID);
    assert In(cist, 4096) && !In(newVidMap[..], 4096);
    assert v.VidsOf(CIST) == v.Table()[CIST] == Initial(1)[CIST];
    AllButLast(MAX_VLAN_ID);
    res := v.UpdateMstiVidMapping(CIST, newVidMap);
  }

  lemma AllButLast(maxBits: nat)
    requires maxBits > 0
    ensures Universe(maxBits) - {maxBits} == Universe(maxBits - 1)
  {
  }

  lemma FourThousandBits()
    ensures WordsFor(MAX_VLAN_ID) == VID_WORDS
  {
  }

  /** MSTP_ADD_ALL_VIDS_TO_VIDMAP. */
  method AddAllVids(vidMap: array<Word>)
    requires vidMap.Length == VID_WORDS
    modifies vidMap
    ensures Members(vidMap[..], MAX_VLAN_ID) == Universe(MAX_VLAN_ID - 1)
    ensures In(vidMap[..], 4096) && !Clean(vidMap[..], MAX_VLAN_ID)
  {
    hide Bit;
    forall j | 0 <= j < VID_WORDS {
      vidMap[j] := ALL_ONES;
    }
    ghost var ones := vidMap[..];
    forall b: nat | 1 <= b <= 4096
      ensures In(ones, b)
    {
      ConstantBits((b - 1) % 32);
    }
    hide In;
    ClrBit(vidMap, INTERNAL_VID, MAX_VLAN_ID);
    ClrBit(vidMap, MAX_VLAN_ID, MAX_VLAN_ID);
  }

  /** The VIDs of one map that the other does not have: copy, inverse, and. */
  method Difference(a: array<Word>, b: array<Word>) returns (d: array<Word>)
    requires a.Length == VID_WORDS && b.Length == VID_WORDS
    ensures fresh(d) && d.Length == VID_WORDS && Clean(d[..], MAX_VLAN_ID)
    ensures Members(d[..], MAX_VLAN_ID) == Members(a[..], MAX_VLAN_ID) - Members(b[..], MAX_VLAN_ID)
  {
    FourThousandBits();
    d := new Word[VID_WORDS];
    Copy(b, d, MAX_VLAN_ID);
    BitInverse(d, MAX_VLAN_ID);
    BitAnd(a, d, MAX_VLAN_ID);
  }

  /** The VIDs of `a` are taken out of `to`: copy, inverse, and. */
  method TakeAway(a: array<Word>, to: array<Word>)
    requires a.Length == VID_WORDS && to.Length == VID_WORDS && a != to
    modifies to
    ensures Members(to[..], MAX_VLAN_ID) == old(Members(to[..], MAX_VLAN_ID)) - Members(a[..], MAX_VLAN_ID)
  {
    FourThousandBits();
    var tmp := new Word[VID_WORDS];
    Copy(a, tmp, MAX_VLAN_ID);
    BitInverse(tmp, MAX_VLAN_ID);
    BitAnd(tmp, to, MAX_VLAN_ID);
  }
}
