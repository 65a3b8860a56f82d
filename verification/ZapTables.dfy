/** Facts about the setting tables of lib/libdvbcfg/dvbcfg_zapchannel.c (lines 37-117). */
module ZapTables {
  import opened Bytes
  import opened ZapText
  import opened ZapChannel

  predicate LegalChars(s: string) { forall i :: 0 <= i < |s| ==> s[i] != ':' && !Ends(s[i]) }

  /** A name no other name equals can be searched for. */
  predicate Distinct(t: seq<Setting>) { forall i, j :: 0 <= i < j < |t| ==> t[i].name != t[j].name }

  predicate Sane(t: seq<Setting>) {
    && Distinct(t)
    && (forall i :: 0 <= i < |t| ==> LegalChars(t[i].name))
    && (forall i :: 0 <= i < |t| ==> t[i].name != "" && t[i].name[0] != '(')
  }

  lemma DistinctInversions()
    ensures Distinct(INVERSIONS)
  {
  }

  lemma LegalInversions()
    ensures LegalChars("INVERSION_ON")
    ensures LegalChars("INVERSION_OFF")
    ensures LegalChars("INVERSION_AUTO")
  {
  }

  lemma SaneInversions()
    ensures Sane(INVERSIONS)
  {
    hide LegalChars;
    DistinctInversions();
    LegalInversions();
    hide Distinct;
  }

  lemma DistinctFecs()
    ensures Distinct(FECS)
  {
    forall i, j | 0 <= i < j < |FECS| ensures FECS[i].name != FECS[j].name {
      assert FECS[i].name[4] != FECS[j].name[4];
    }
  }

  lemma LegalFecs()
    ensures LegalChars("FEC_1_2")
    ensures LegalChars("FEC_2_3")
    ensures LegalChars("FEC_3_4")
    ensures LegalChars("FEC_4_5")
    ensures LegalChars("FEC_5_6")
    ensures LegalChars("FEC_6_7")
    ensures LegalChars("FEC_7_8")
    ensures LegalChars("FEC_8_9")
    ensures LegalChars("FEC_AUTO")
    ensures LegalChars("FEC_NONE")
  {
  }

  lemma SaneFecs()
    ensures Sane(FECS)
  {
    hide LegalChars;
    DistinctFecs();
    LegalFecs();
    hide Distinct;
  }

  lemma DistinctDvbcModulations()
    ensures Distinct(DVBC_MODULATIONS)
  {
  }

  lemma LegalDvbcModulations()
    ensures LegalChars("QAM_16")
    ensures LegalChars("QAM_32")
    ensures LegalChars("QAM_64")
    ensures LegalChars("QAM_128")
    ensures LegalChars("QAM_256")
    ensures LegalChars("QAM_AUTO")
  {
  }

  lemma SaneDvbcModulations()
    ensures Sane(DVBC_MODULATIONS)
  {
    hide LegalChars;
    DistinctDvbcModulations();
    LegalDvbcModulations();
    hide Distinct;
  }

  lemma DistinctBandwidths()
    ensures Distinct(BANDWIDTHS)
  {
  }

  lemma LegalBandwidths()
    ensures LegalChars("BANDWIDTH_6_MHZ")
    ensures LegalChars("BANDWIDTH_7_MHZ")
    ensures LegalChars("BANDWIDTH_8_MHZ")
    ensures LegalChars("BANDWIDTH_AUTO")
  {
  }

  lemma SaneBandwidths()
    ensures Sane(BANDWIDTHS)
  {
    hide LegalChars;
    DistinctBandwidths();
    LegalBandwidths();
    hide Distinct;
  }

  lemma DistinctConstellations()
    ensures Distinct(CONSTELLATIONS)
  {
  }

  lemma LegalConstellations()
    ensures LegalChars("QAM_16")
    ensures LegalChars("QAM_32")
    ensures LegalChars("QAM_64")
    ensures LegalChars("QAM_128")
    ensures LegalChars("QAM_256")
    ensures LegalChars("QPSK")
  {
  }

  lemma SaneConstellations()
    ensures Sane(CONSTELLATIONS)
  {
    hide LegalChars;
    DistinctConstellations();
    LegalConstellations();
    hide Distinct;
  }

  lemma DistinctTransmissionModes()
    ensures Distinct(TRANSMISSION_MODES)
  {
  }

  lemma LegalTransmissionModes()
    ensures LegalChars("TRANSMISSION_MODE_2K")
    ensures LegalChars("TRANSMISSION_MODE_8K")
    ensures LegalChars("TRANSMISSION_MODE_AUTO")
  {
  }

  lemma SaneTransmissionModes()
    ensures Sane(TRANSMISSION_MODES)
  {
    hide LegalChars;
    DistinctTransmissionModes();
    LegalTransmissionModes();
    hide Distinct;
  }

  lemma DistinctGuardIntervals()
    ensures Distinct(GUARD_INTERVALS)
  {
    forall i, j | 0 <= i < j < |GUARD_INTERVALS| ensures GUARD_INTERVALS[i].name != GUARD_INTERVALS[j].name {
      assert |GUARD_INTERVALS[i].name| != |GUARD_INTERVALS[j].name| || GUARD_INTERVALS[i].name[17] != GUARD_INTERVALS[j].name[17];
    }
  }

  lemma LegalGuardIntervals()
    ensures LegalChars("GUARD_INTERVAL_1_32")
    ensures LegalChars("GUARD_INTERVAL_1_16")
    ensures LegalChars("GUARD_INTERVAL_1_8")
    ensures LegalChars("GUARD_INTERVAL_1_4")
    ensures LegalChars("GUARD_INTERVAL_AUTO")
  {
  }

  lemma SaneGuardIntervals()
    ensures Sane(GUARD_INTERVALS)
  {
    hide LegalChars;
    DistinctGuardIntervals();
    LegalGuardIntervals();
    hide Distinct;
  }

  lemma DistinctHierarchies()
    ensures Distinct(HIERARCHIES)
  {
  }

  lemma LegalHierarchies()
    ensures LegalChars("HIERARCHY_1")
    ensures LegalChars("HIERARCHY_2")
    ensures LegalChars("HIERARCHY_4")
    ensures LegalChars("HIERARCHY_AUTO")
    ensures LegalChars("HIERARCHY_NONE")
  {
  }

  lemma SaneHierarchies()
    ensures Sane(HIERARCHIES)
  {
    hide LegalChars;
    DistinctHierarchies();
    LegalHierarchies();
    hide Distinct;
  }

  lemma DistinctAtscModulations()
    ensures Distinct(ATSC_MODULATIONS)
  {
  }

  lemma LegalAtscModulations()
    ensures LegalChars("8VSB")
    ensures LegalChars("16VSB")
    ensures LegalChars("QAM_64")
    ensures LegalChars("QAM_256")
  {
  }

  lemma SaneAtscModulations()
    ensures Sane(ATSC_MODULATIONS)
  {
    hide LegalChars;
    DistinctAtscModulations();
    LegalAtscModulations();
    hide Distinct;
  }

  // ---------------------------------------------------------------- look-up

  lemma {:induction false} NameIsRow(t: seq<Setting>, v: nat)
    ensures NameOf(v, t).Some? ==> exists k :: 0 <= k < |t| && t[k] == Setting(NameOf(v, t).value, v)
  {
    if t != [] && t[0].value != v {
      NameIsRow(t[1..], v);
      if NameOf(v, t).Some? {
        var k :| 0 <= k < |t| - 1 && t[1..][k] == Setting(NameOf(v, t).value, v);
        assert t[k + 1] == t[1..][k];
      }
    } else if t != [] {
      assert t[0] == Setting(t[0].name, v);
    }
  }

  lemma {:induction false} RowIsFound(t: seq<Setting>, k: nat)
    requires Distinct(t) && k < |t|
    ensures ValueOf(t[k].name, t) == Some(t[k].value)
  {
    if k > 0 {
      assert t[0].name != t[k].name;
      RowIsFound(t[1..], k - 1);
    }
  }

  lemma {:induction false} ValueIsRow(t: seq<Setting>, name: string)
    ensures ValueOf(name, t).Some? ==> exists k :: 0 <= k < |t| && t[k].name == name
  {
    if t != [] && t[0].name != name {
      ValueIsRow(t[1..], name);
      if ValueOf(name, t).Some? {
        var k :| 0 <= k < |t| - 1 && t[1..][k].name == name;
        assert t[k + 1].name == name;
      }
    } else if t != [] {
      assert t[0].name == name;
    }
  }

  /** A printed setting is found again, and one that is in no row is not. */
  lemma SettingRoundTrip(t: seq<Setting>, v: nat)
    requires Sane(t)
    ensures LegalChars(PrintSetting(v, t)) && PrintSetting(v, t) != ""
    ensures ValueOf(PrintSetting(v, t), t) == if NameOf(v, t).Some? then Some(v) else None
  {
    NameIsRow(t, v);
    if NameOf(v, t).Some? {
      var k :| 0 <= k < |t| && t[k] == Setting(NameOf(v, t).value, v);
      RowIsFound(t, k);
    } else {
      ValueIsRow(t, NULL_TEXT);
      assert NULL_TEXT[0] == '(';
    }
  }

  // ---------------------------------------------------------------- which values have a name

  lemma {:induction false} RowIsNamed(t: seq<Setting>, k: nat)
    requires k < |t|
    ensures NameOf(t[k].value, t).Some?
  {
    if k > 0 { RowIsNamed(t[1..], k - 1); }
  }

  lemma Named(t: seq<Setting>, v: nat, max: nat, k: int)
    requires v <= max ==> 0 <= k < |t| && t[k].value == v
    requires forall i :: 0 <= i < |t| ==> t[i].value <= max
    ensures NameOf(v, t).Some? <==> v <= max
  {
    if v <= max { RowIsNamed(t, k); }
    NameIsRow(t, v);
  }

  lemma NamedInversions(v: nat)
    ensures NameOf(v, INVERSIONS).Some? <==> v <= 2
  {
    Named(INVERSIONS, v, 2, if v == 0 then 1 else if v == 1 then 0 else 2);
  }

  lemma NamedFecs(v: nat)
    ensures NameOf(v, FECS).Some? <==> v <= 9
  {
    Named(FECS, v, 9, if v == 0 then 9 else v - 1);
  }

  lemma NamedDvbcModulations(v: nat)
    ensures NameOf(v, DVBC_MODULATIONS).Some? <==> v <= 5
  {
    Named(DVBC_MODULATIONS, v, 5, v);
  }

  lemma NamedBandwidths(v: nat)
    ensures NameOf(v, BANDWIDTHS).Some? <==> v <= 3
  {
    Named(BANDWIDTHS, v, 3, if v < 3 then 2 - v else 3);
  }

  lemma NamedConstellations(v: nat)
    ensures NameOf(v, CONSTELLATIONS).Some? <==> v <= 5
  {
    Named(CONSTELLATIONS, v, 5, if v == 0 then 5 else v - 1);
  }

  lemma NamedTransmissionModes(v: nat)
    ensures NameOf(v, TRANSMISSION_MODES).Some? <==> v <= 2
  {
    Named(TRANSMISSION_MODES, v, 2, v);
  }

  lemma NamedGuardIntervals(v: nat)
    ensures NameOf(v, GUARD_INTERVALS).Some? <==> v <= 4
  {
    Named(GUARD_INTERVALS, v, 4, v);
  }

  lemma NamedHierarchies(v: nat)
    ensures NameOf(v, HIERARCHIES).Some? <==> v <= 4
  {
    Named(HIERARCHIES, v, 4, if v == 0 then 4 else v - 1);
  }

  lemma NamedAtscModulations(v: nat)
    ensures NameOf(v, ATSC_MODULATIONS).Some? <==> v <= 3
  {
    Named(ATSC_MODULATIONS, v, 3, if v < 2 then v + 2 else v - 2);
  }

  // ---------------------------------------------------------------- how names look

  /** A field that says nothing about the frontend type. */
  predicate Neutral(f: string) {
    !StartsWith(f, "FEC_") && !StartsWith(f, "HIERARCHY_") && !StartsWith(f, "QAM_") && !EndsWith(f, "VSB")
  }

  lemma NeutralByEnds(f: string)
    requires f != "" && f[0] != 'F' && f[0] != 'H' && f[0] != 'Q' && f[|f| - 1] != 'B'
    ensures Neutral(f)
  {
    assert "FEC_"[0] == 'F' && "HIERARCHY_"[0] == 'H' && "QAM_"[0] == 'Q' && "VSB"[2] == 'B';
  }

  /** Every row's name begins with one character and none ends in `B`. */
  predicate Looks(t: seq<Setting>, first: char) {
    forall i :: 0 <= i < |t| ==> t[i].name != "" && t[i].name[0] == first && t[i].name[|t[i].name| - 1] != 'B'
  }

  lemma NeutralSetting(t: seq<Setting>, v: nat, first: char)
    requires Looks(t, first) && first != 'F' && first != 'H' && first != 'Q'
    ensures Neutral(PrintSetting(v, t)) && PrintSetting(v, t) != "" && (PrintSetting(v, t)[0] == first || PrintSetting(v, t)[0] == '(')
  {
    NameIsRow(t, v);
    NeutralByEnds(PrintSetting(v, t));
  }

  lemma LooksOfTables()
    ensures Looks(INVERSIONS, 'I') && Looks(BANDWIDTHS, 'B') && Looks(TRANSMISSION_MODES, 'T') && Looks(GUARD_INTERVALS, 'G')
  {
  }

  lemma LooksOfFecs()
    ensures forall i :: 0 <= i < |FECS| ==> StartsWith(FECS[i].name, "FEC_")
  {
  }

  lemma LooksOfHierarchies()
    ensures forall i :: 0 <= i < |HIERARCHIES| ==> StartsWith(HIERARCHIES[i].name, "HIERARCHY_")
  {
  }

  // ---------------------------------------------------------------- the names, in the order of the enumerations

  /** Exactly these names are found and printed, each with its position in the enumeration. */
  ghost predicate Enumerates(t: seq<Setting>, names: seq<string>) {
    && (forall v: nat {:trigger NameOf(v, t)} :: NameOf(v, t) == if v < |names| then Some(names[v]) else None)
    && (forall v :: 0 <= v < |names| ==> ValueOf(names[v], t) == Some(v))
    && (forall name {:trigger ValueOf(name, t)} :: ValueOf(name, t).Some? ==> name in names)
  }

  /** Every row is right, and every value has a row. */
  lemma RowsEnumerate(t: seq<Setting>, names: seq<string>, at: seq<nat>)
    requires Distinct(t) && |at| == |names|
    requires forall v :: 0 <= v < |names| ==> at[v] < |t| && t[at[v]] == Setting(names[v], v)
    requires forall k :: 0 <= k < |t| ==> t[k].value < |names| && names[t[k].value] == t[k].name
    ensures Enumerates(t, names)
  {
    hide NameOf;
    hide ValueOf;
    hide Distinct;
    forall v: nat ensures NameOf(v, t) == if v < |names| then Some(names[v]) else None {
      NameIsRow(t, v);
      if v < |names| { RowIsNamed(t, at[v]); }
    }
    forall v | 0 <= v < |names| ensures ValueOf(names[v], t) == Some(v) { RowIsFound(t, at[v]); }
    forall name ensures ValueOf(name, t).Some? ==> name in names {
      ValueIsRow(t, name);
      if ValueOf(name, t).Some? {
        var k :| 0 <= k < |t| && t[k].name == name;
        assert names[t[k].value] == name;
      }
    }
  }

  lemma InversionsEnumerate()
    ensures Enumerates(INVERSIONS, [
      "INVERSION_OFF", "INVERSION_ON", "INVERSION_AUTO"])
  {
    DistinctInversions();
    hide Distinct;
    RowsEnumerate(INVERSIONS, [
      "INVERSION_OFF", "INVERSION_ON", "INVERSION_AUTO"], [1, 0, 2]);
  }

  lemma FecsEnumerate()
    ensures Enumerates(FECS, [
      "FEC_NONE", "FEC_1_2", "FEC_2_3", "FEC_3_4", "FEC_4_5",
      "FEC_5_6", "FEC_6_7", "FEC_7_8", "FEC_8_9", "FEC_AUTO"])
  {
    DistinctFecs();
    hide Distinct;
    RowsEnumerate(FECS, [
      "FEC_NONE", "FEC_1_2", "FEC_2_3", "FEC_3_4", "FEC_4_5",
      "FEC_5_6", "FEC_6_7", "FEC_7_8", "FEC_8_9", "FEC_AUTO"], [9, 0, 1, 2, 3, 4, 5, 6, 7, 8]);
  }

  lemma DvbcModulationsEnumerate()
    ensures Enumerates(DVBC_MODULATIONS, [
      "QAM_16", "QAM_32", "QAM_64", "QAM_128", "QAM_256", "QAM_AUTO"])
  {
    DistinctDvbcModulations();
    hide Distinct;
    RowsEnumerate(DVBC_MODULATIONS, [
      "QAM_16", "QAM_32", "QAM_64", "QAM_128", "QAM_256", "QAM_AUTO"], [0, 1, 2, 3, 4, 5]);
  }

  lemma BandwidthsEnumerate()
    ensures Enumerates(BANDWIDTHS, [
      "BANDWIDTH_8_MHZ", "BANDWIDTH_7_MHZ", "BANDWIDTH_6_MHZ", "BANDWIDTH_AUTO"])
  {
    DistinctBandwidths();
    hide Distinct;
    RowsEnumerate(BANDWIDTHS, [
      "BANDWIDTH_8_MHZ", "BANDWIDTH_7_MHZ", "BANDWIDTH_6_MHZ", "BANDWIDTH_AUTO"], [2, 1, 0, 3]);
  }

  lemma ConstellationsEnumerate()
    ensures Enumerates(CONSTELLATIONS, [
      "QPSK", "QAM_16", "QAM_32", "QAM_64", "QAM_128", "QAM_256"])
  {
    DistinctConstellations();
    hide Distinct;
    RowsEnumerate(CONSTELLATIONS, [
      "QPSK", "QAM_16", "QAM_32", "QAM_64", "QAM_128", "QAM_256"], [5, 0, 1, 2, 3, 4]);
  }

  lemma TransmissionModesEnumerate()
    ensures Enumerates(TRANSMISSION_MODES, [
      "TRANSMISSION_MODE_2K", "TRANSMISSION_MODE_8K", "TRANSMISSION_MODE_AUTO"])
  {
    DistinctTransmissionModes();
    hide Distinct;
    RowsEnumerate(TRANSMISSION_MODES, [
      "TRANSMISSION_MODE_2K", "TRANSMISSION_MODE_8K", "TRANSMISSION_MODE_AUTO"], [0, 1, 2]);
  }

  lemma GuardIntervalsEnumerate()
    ensures Enumerates(GUARD_INTERVALS, [
      "GUARD_INTERVAL_1_32", "GUARD_INTERVAL_1_16",
      "GUARD_INTERVAL_1_8", "GUARD_INTERVAL_1_4", "GUARD_INTERVAL_AUTO"])
  {
    DistinctGuardIntervals();
    hide Distinct;
    RowsEnumerate(GUARD_INTERVALS, [
      "GUARD_INTERVAL_1_32", "GUARD_INTERVAL_1_16",
      "GUARD_INTERVAL_1_8", "GUARD_INTERVAL_1_4", "GUARD_INTERVAL_AUTO"], [0, 1, 2, 3, 4]);
  }

  lemma HierarchiesEnumerate()
    ensures Enumerates(HIERARCHIES, [
      "HIERARCHY_NONE", "HIERARCHY_1", "HIERARCHY_2", "HIERARCHY_4", "HIERARCHY_AUTO"])
  {
    DistinctHierarchies();
    hide Distinct;
    RowsEnumerate(HIERARCHIES, [
      "HIERARCHY_NONE", "HIERARCHY_1", "HIERARCHY_2", "HIERARCHY_4", "HIERARCHY_AUTO"], [4, 0, 1, 2, 3]);
  }

  lemma AtscModulationsEnumerate()
    ensures Enumerates(ATSC_MODULATIONS, [
      "QAM_64", "QAM_256", "8VSB", "16VSB"])
  {
    DistinctAtscModulations();
    hide Distinct;
    RowsEnumerate(ATSC_MODULATIONS, [
      "QAM_64", "QAM_256", "8VSB", "16VSB"], [2, 3, 0, 1]);
  }
}
