/** Which channels survive being saved and parsed again, and how they come back. */
module ZapRoundTrip {
  import opened Bytes
  import opened ZapText
  import opened ZapChannel
  import opened ZapTables

  /** What the record's declaration asks of a channel: a name that fits its array and holds no separator,
      and one of the four polarizations, in either case. */
  predicate Legal(c: Channel) {
    && |c.name| <= 127 && LegalChars(c.name)
    && (c.frontend.Dvbs? ==> Polarization(ToLower(c.frontend.polarization)))
  }

  /** The settings that are told apart again: every value of each enumeration except the constellation
      CONST_AUTO of DVB-T (6) and, of the ATSC modulations, all but 8VSB (2) and 16VSB (3). */
  predicate Recognised(f: Frontend) {
    match f
    case Atsc(_, _, modulation) => modulation == 2 || modulation == 3
    case Dvbc(_, inversion, _, fec, modulation) => inversion <= 2 && fec <= 9 && modulation <= 5
    case Dvbs(_, _, _, _, _, _) => true
    case Dvbt(_, inversion, bandwidth, high, low, constellation, transmission, guard, hierarchy) =>
      inversion <= 2 && bandwidth <= 3 && high <= 9 && low <= 9 && constellation <= 5 && transmission <= 2 && guard <= 4 && hierarchy <= 4
  }

  /** What a file does not keep: DVB-S in units below a thousand, the case of the polarization, and
      settings that its line has no field for. */
  function Restored(f: Frontend): Frontend {
    match f
    case Atsc(freq, _, modulation) => Atsc(freq, INVERSION_AUTO, modulation)
    case Dvbc(_, _, _, _, _) => f
    case Dvbs(freq, _, rate, _, polarization, diseqc) =>
      Dvbs(freq / 1000 * 1000, INVERSION_AUTO, rate / 1000 * 1000, FEC_AUTO, ToLower(polarization), diseqc)
    case Dvbt(_, _, _, _, _, _, _, _, _) => f
  }

  // ---------------------------------------------------------------- fields

  lemma {:induction false} DigitsLook(n: nat)
    ensures AllDigits(Digits(n))
  {
    if n >= 10 { DigitsLook(n / 10); }
  }

  lemma IntField(n: int)
    ensures PrintInt(n) != "" && LegalChars(PrintInt(n)) && Neutral(PrintInt(n))
  {
    var u := if n < 0 then -n else n;
    DigitsLook(u);
    var s, d := PrintInt(n), Digits(u);
    assert forall i :: 0 <= i < |s| ==> s[i] == '-' || '0' <= s[i] <= '9';
    assert s[|s| - 1] == d[|d| - 1];
    NeutralByEnds(s);
  }

  lemma TakeIntAt(fs: seq<string>, k: nat, n: i32)
    requires k < |fs| && Colonless(fs) && fs[k] == PrintInt(n)
    ensures TakeInt(Join(fs[k..])) == Got(n, Join(fs[k + 1..]))
  {
    assert fs[k..][1..] == fs[k + 1..];
    TakeField(fs[k..]);
    IntRoundTrip(n);
  }

  lemma TakeSettingAt(fs: seq<string>, k: nat, v: nat, t: seq<Setting>)
    requires Sane(t) && k < |fs| && Colonless(fs) && fs[k] == PrintSetting(v, t)
    ensures TakeSetting(Join(fs[k..]), t) == if NameOf(v, t).Some? then Got(v, Join(fs[k + 1..])) else Lost
  {
    assert fs[k..][1..] == fs[k + 1..];
    TakeField(fs[k..]);
    SettingRoundTrip(t, v);
  }

  lemma InversionAt(fs: seq<string>, k: nat, v: nat)
    requires k < |fs| && Colonless(fs) && fs[k] == PrintSetting(v, INVERSIONS)
    ensures TakeInversion(Join(fs[k..])) == if v <= 2 then Got(v, Join(fs[k + 1..])) else Lost
  {
    hide Sane;
    SaneInversions();
    NamedInversions(v);
    TakeSettingAt(fs, k, v, INVERSIONS);
  }

  lemma FecAt(fs: seq<string>, k: nat, v: nat)
    requires k < |fs| && Colonless(fs) && fs[k] == PrintSetting(v, FECS)
    ensures TakeFec(Join(fs[k..])) == if v <= 9 then Got(v, Join(fs[k + 1..])) else Lost
  {
    hide Sane;
    SaneFecs();
    NamedFecs(v);
    TakeSettingAt(fs, k, v, FECS);
  }

  lemma DvbcModulationAt(fs: seq<string>, k: nat, v: nat)
    requires k < |fs| && Colonless(fs) && fs[k] == PrintSetting(v, DVBC_MODULATIONS)
    ensures TakeDvbcModulation(Join(fs[k..])) == if v <= 5 then Got(v, Join(fs[k + 1..])) else Lost
  {
    hide Sane;
    SaneDvbcModulations();
    NamedDvbcModulations(v);
    TakeSettingAt(fs, k, v, DVBC_MODULATIONS);
  }

  lemma BandwidthAt(fs: seq<string>, k: nat, v: nat)
    requires k < |fs| && Colonless(fs) && fs[k] == PrintSetting(v, BANDWIDTHS)
    ensures TakeBandwidth(Join(fs[k..])) == if v <= 3 then Got(v, Join(fs[k + 1..])) else Lost
  {
    hide Sane;
    SaneBandwidths();
    NamedBandwidths(v);
    TakeSettingAt(fs, k, v, BANDWIDTHS);
  }

  lemma ConstellationAt(fs: seq<string>, k: nat, v: nat)
    requires k < |fs| && Colonless(fs) && fs[k] == PrintSetting(v, CONSTELLATIONS)
    ensures TakeConstellation(Join(fs[k..])) == if v <= 5 then Got(v, Join(fs[k + 1..])) else Lost
  {
    hide Sane;
    SaneConstellations();
    NamedConstellations(v);
    TakeSettingAt(fs, k, v, CONSTELLATIONS);
  }

  lemma TransmissionModeAt(fs: seq<string>, k: nat, v: nat)
    requires k < |fs| && Colonless(fs) && fs[k] == PrintSetting(v, TRANSMISSION_MODES)
    ensures TakeTransmissionMode(Join(fs[k..])) == if v <= 2 then Got(v, Join(fs[k + 1..])) else Lost
  {
    hide Sane;
    SaneTransmissionModes();
    NamedTransmissionModes(v);
    TakeSettingAt(fs, k, v, TRANSMISSION_MODES);
  }

  lemma GuardIntervalAt(fs: seq<string>, k: nat, v: nat)
    requires k < |fs| && Colonless(fs) && fs[k] == PrintSetting(v, GUARD_INTERVALS)
    ensures TakeGuardInterval(Join(fs[k..])) == if v <= 4 then Got(v, Join(fs[k + 1..])) else Lost
  {
    hide Sane;
    SaneGuardIntervals();
    NamedGuardIntervals(v);
    TakeSettingAt(fs, k, v, GUARD_INTERVALS);
  }

  lemma HierarchyAt(fs: seq<string>, k: nat, v: nat)
    requires k < |fs| && Colonless(fs) && fs[k] == PrintSetting(v, HIERARCHIES)
    ensures TakeHierarchy(Join(fs[k..])) == if v <= 4 then Got(v, Join(fs[k + 1..])) else Lost
  {
    hide Sane;
    SaneHierarchies();
    NamedHierarchies(v);
    TakeSettingAt(fs, k, v, HIERARCHIES);
  }

  // ---------------------------------------------------------------- frontends, field by field

  lemma DvbcParsed(f: Frontend, fs: seq<string>)
    requires f.Dvbc? && |fs| >= 4 && Colonless(fs)
    requires fs[0] == PrintSetting(f.inversion, INVERSIONS) && fs[1] == PrintInt(ToSigned(f.symbolRate))
    requires fs[2] == PrintSetting(f.fec, FECS) && fs[3] == PrintSetting(f.modulation, DVBC_MODULATIONS)
    ensures ParseDvbc(Join(fs), f.frequency) == if Recognised(f) then Got(f, Join(fs[4..])) else Lost
  {
    hide Join;
    hide TakeSetting;
    hide TakeInt;
    hide PrintSetting;
    hide PrintInt;
    hide Colonless;
    assert fs[0..] == fs;
    SignsCancel(f.symbolRate);
    InversionAt(fs, 0, f.inversion);
    TakeIntAt(fs, 1, ToSigned(f.symbolRate));
    FecAt(fs, 2, f.fec);
    DvbcModulationAt(fs, 3, f.modulation);
  }

  lemma Thousands(n: u32)
    ensures ToUnsigned(ToSigned(n / 1000) * 1000) == ToUnsigned(n / 1000 * 1000) == n / 1000 * 1000
  {
  }

  lemma TakePolarization(fs: seq<string>, c: char)
    requires fs != [] && Colonless(fs) && fs[0] == [c]
    ensures TakeChar(Join(fs)) == Got(c, Join(fs[1..]))
  {
    TakeField(fs);
  }

  lemma LowerTwice(c: char)
    ensures ToLower(ToLower(c)) == ToLower(c)
  {
  }

  lemma DvbsParsed(f: Frontend, fs: seq<string>)
    requires f.Dvbs? && |fs| >= 3 && Colonless(fs) && Polarization(ToLower(f.polarization))
    requires fs[0] == [ToLower(f.polarization)] && fs[1] == PrintInt(f.diseqc) && fs[2] == PrintInt(ToSigned(f.symbolRate / 1000))
    ensures ParseDvbs(Join(fs), f.frequency / 1000) == Got(Restored(f), Join(fs[3..]))
  {
    hide Join;
    hide TakeInt;
    hide TakeChar;
    hide PrintInt;
    hide Colonless;
    hide ToSigned;
    hide ToUnsigned;
    hide ToLower;
    hide Polarization;
    Thousands(f.frequency);
    Thousands(f.symbolRate);
    TakePolarization(fs, ToLower(f.polarization));
    LowerTwice(f.polarization);
    TakeIntAt(fs, 1, f.diseqc);
    TakeIntAt(fs, 2, ToSigned(f.symbolRate / 1000));
  }

  /** The steps of a DVB-T line put together; `at` are the texts they start from. */
  lemma DvbtSteps(f: Frontend, at: seq<string>)
    requires f.Dvbt? && |at| == 9
    requires TakeInversion(at[0]) == if f.inversion <= 2 then Got(f.inversion, at[1]) else Lost
    requires TakeBandwidth(at[1]) == if f.bandwidth <= 3 then Got(f.bandwidth, at[2]) else Lost
    requires TakeFec(at[2]) == if f.fecHigh <= 9 then Got(f.fecHigh, at[3]) else Lost
    requires TakeFec(at[3]) == if f.fecLow <= 9 then Got(f.fecLow, at[4]) else Lost
    requires TakeConstellation(at[4]) == if f.constellation <= 5 then Got(f.constellation, at[5]) else Lost
    requires TakeTransmissionMode(at[5]) == if f.transmission <= 2 then Got(f.transmission, at[6]) else Lost
    requires TakeGuardInterval(at[6]) == if f.guard <= 4 then Got(f.guard, at[7]) else Lost
    requires TakeHierarchy(at[7]) == if f.hierarchy <= 4 then Got(f.hierarchy, at[8]) else Lost
    ensures ParseDvbt(at[0], f.frequency) == if Recognised(f) then Got(f, at[8]) else Lost
  {
    hide TakeInversion;
    hide TakeBandwidth;
    hide TakeFec;
    hide TakeConstellation;
    hide TakeTransmissionMode;
    hide TakeGuardInterval;
    hide TakeHierarchy;
  }

  predicate DvbtFields(f: Frontend, fs: seq<string>) {
    && f.Dvbt? && |fs| >= 8 && Colonless(fs)
    && fs[0] == PrintSetting(f.inversion, INVERSIONS)
    && fs[1] == PrintSetting(f.bandwidth, BANDWIDTHS)
    && fs[2] == PrintSetting(f.fecHigh, FECS)
    && fs[3] == PrintSetting(f.fecLow, FECS)
    && fs[4] == PrintSetting(f.constellation, CONSTELLATIONS)
    && fs[5] == PrintSetting(f.transmission, TRANSMISSION_MODES)
    && fs[6] == PrintSetting(f.guard, GUARD_INTERVALS)
    && fs[7] == PrintSetting(f.hierarchy, HIERARCHIES)
  }

  lemma DvbtFront(f: Frontend, fs: seq<string>)
    requires DvbtFields(f, fs)
    ensures TakeInversion(Join(fs[0..])) == if f.inversion <= 2 then Got(f.inversion, Join(fs[1..])) else Lost
    ensures TakeBandwidth(Join(fs[1..])) == if f.bandwidth <= 3 then Got(f.bandwidth, Join(fs[2..])) else Lost
    ensures TakeFec(Join(fs[2..])) == if f.fecHigh <= 9 then Got(f.fecHigh, Join(fs[3..])) else Lost
    ensures TakeFec(Join(fs[3..])) == if f.fecLow <= 9 then Got(f.fecLow, Join(fs[4..])) else Lost
  {
    hide Join;
    hide TakeInversion;
    hide TakeBandwidth;
    hide TakeFec;
    hide PrintSetting;
    hide Colonless;
    InversionAt(fs, 0, f.inversion);
    BandwidthAt(fs, 1, f.bandwidth);
    FecAt(fs, 2, f.fecHigh);
    FecAt(fs, 3, f.fecLow);
  }

  lemma DvbtBack(f: Frontend, fs: seq<string>)
    requires DvbtFields(f, fs)
    ensures TakeConstellation(Join(fs[4..])) == if f.constellation <= 5 then Got(f.constellation, Join(fs[5..])) else Lost
    ensures TakeTransmissionMode(Join(fs[5..])) == if f.transmission <= 2 then Got(f.transmission, Join(fs[6..])) else Lost
    ensures TakeGuardInterval(Join(fs[6..])) == if f.guard <= 4 then Got(f.guard, Join(fs[7..])) else Lost
    ensures TakeHierarchy(Join(fs[7..])) == if f.hierarchy <= 4 then Got(f.hierarchy, Join(fs[8..])) else Lost
  {
    hide Join;
    hide TakeConstellation;
    hide TakeTransmissionMode;
    hide TakeGuardInterval;
    hide TakeHierarchy;
    hide PrintSetting;
    hide Colonless;
    ConstellationAt(fs, 4, f.constellation);
    TransmissionModeAt(fs, 5, f.transmission);
    GuardIntervalAt(fs, 6, f.guard);
    HierarchyAt(fs, 7, f.hierarchy);
  }

  lemma DvbtParsed(f: Frontend, fs: seq<string>)
    requires DvbtFields(f, fs)
    ensures ParseDvbt(Join(fs), f.frequency) == if Recognised(f) then Got(f, Join(fs[8..])) else Lost
  {
    hide Join;
    hide PrintSetting;
    hide ParseDvbt;
    DvbtFront(f, fs);
    DvbtBack(f, fs);
    hide TakeInversion;
    hide TakeBandwidth;
    hide TakeFec;
    hide TakeConstellation;
    hide TakeTransmissionMode;
    hide TakeGuardInterval;
    hide TakeHierarchy;
    assert fs[0..] == fs;
    DvbtSteps(f, [Join(fs), Join(fs[1..]), Join(fs[2..]), Join(fs[3..]), Join(fs[4..]), Join(fs[5..]), Join(fs[6..]), Join(fs[7..]), Join(fs[8..])]);
  }

  // ---------------------------------------------------------------- the frontend type

  predicate SomeStarts(fs: seq<string>, p: string) { exists k :: 1 <= k < |fs| && StartsWith(fs[k], p) }

  predicate SomeEnds(fs: seq<string>, p: string) { exists k :: 0 <= k < |fs| - 1 && EndsWith(fs[k], p) }

  /** The type is inferred from how the fields behind the frequency start and end, the first field's
      start excepted and the last field's end excepted. */
  lemma KindMeans(fs: seq<string>)
    requires fs != [] && Colonless(fs)
    ensures KindOf(Join(fs)) ==
      if SomeStarts(fs, "FEC_") then if SomeStarts(fs, "HIERARCHY_") then DVBT else DVBC
      else if SomeEnds(fs, "VSB") || SomeStarts(fs, "QAM_") then ATSC else DVBS
  {
    hide Contains;
    hide SomeStarts;
    hide SomeEnds;
    hide Join;
    assert ":FEC_" == ":" + "FEC_" && ":HIERARCHY_" == ":" + "HIERARCHY_" && "VSB:" == "VSB" + ":" && ":QAM_" == ":" + "QAM_";
    SomeMean(fs, "FEC_");
    SomeMean(fs, "HIERARCHY_");
    SomeMean(fs, "VSB");
    SomeMean(fs, "QAM_");
  }

  lemma SomeMean(fs: seq<string>, p: string)
    requires fs != [] && Colonless(fs) && NoColon(p)
    ensures Contains(Join(fs), ":" + p) <==> SomeStarts(fs, p)
    ensures Contains(Join(fs), p + ":") <==> SomeEnds(fs, p)
  {
    ContainsMeans(fs, p);
    hide Contains;
    hide StartsWith;
    hide EndsWith;
  }

  lemma KindOfNeutral(fs: seq<string>)
    requires fs != [] && Colonless(fs) && forall k :: 0 <= k < |fs| ==> Neutral(fs[k])
    ensures KindOf(Join(fs)) == DVBS
  {
    KindMeans(fs);
  }

  lemma FirstChar(f: string, p: string)
    requires p != ""
    ensures StartsWith(f, p) ==> f != "" && f[0] == p[0]
  {
  }

  lemma NotStarting(f: string)
    requires f != "" && f[0] != 'F' && f[0] != 'H'
    ensures !StartsWith(f, "FEC_") && !StartsWith(f, "HIERARCHY_")
  {
    FirstChar(f, "FEC_");
    FirstChar(f, "HIERARCHY_");
  }

  lemma FecField(v: nat)
    ensures !StartsWith(PrintSetting(v, FECS), "HIERARCHY_") && (v <= 9 ==> StartsWith(PrintSetting(v, FECS), "FEC_"))
  {
    NameIsRow(FECS, v);
    NamedFecs(v);
    LooksOfFecs();
    FirstChar(PrintSetting(v, FECS), "FEC_");
    FirstChar(PrintSetting(v, FECS), "HIERARCHY_");
  }

  lemma HierarchyField(v: nat)
    ensures v <= 4 ==> StartsWith(PrintSetting(v, HIERARCHIES), "HIERARCHY_")
  {
    NameIsRow(HIERARCHIES, v);
    NamedHierarchies(v);
    LooksOfHierarchies();
  }

  lemma DvbcModulationField(v: nat)
    ensures !StartsWith(PrintSetting(v, DVBC_MODULATIONS), "FEC_") && !StartsWith(PrintSetting(v, DVBC_MODULATIONS), "HIERARCHY_")
  {
    NameIsRow(DVBC_MODULATIONS, v);
    NotStarting(PrintSetting(v, DVBC_MODULATIONS));
  }

  lemma AtscField(v: nat)
    ensures var n := PrintSetting(v, ATSC_MODULATIONS);
      n != "" && if v == 2 || v == 3 then EndsWith(n, "VSB") else !EndsWith(n, "VSB") && (n[0] == 'Q' || n[0] == '(')
  {
    NameIsRow(ATSC_MODULATIONS, v);
    NamedAtscModulations(v);
    assert "VSB"[2] == 'B';
  }

  lemma InversionField(v: nat)
    ensures var n := PrintSetting(v, INVERSIONS); Neutral(n) && n != "" && (n[0] == 'I' || n[0] == '(')
  {
    LooksOfTables();
    NeutralSetting(INVERSIONS, v, 'I');
  }

  lemma BandwidthField(v: nat)
    ensures var n := PrintSetting(v, BANDWIDTHS); n != "" && (n[0] == 'B' || n[0] == '(')
  {
    LooksOfTables();
    NeutralSetting(BANDWIDTHS, v, 'B');
  }

  // ---------------------------------------------------------------- lines taken for another type

  lemma LostAsDvbs(fs: seq<string>, freq: u32)
    requires fs != [] && Colonless(fs) && fs[0] != "" && (fs[0][0] == 'I' || fs[0][0] == 'Q' || fs[0][0] == '(')
    ensures ParseDvbs(Join(fs), freq) == Lost
  {
  }

  lemma LostAsAtsc(fs: seq<string>, freq: u32)
    requires fs != [] && Colonless(fs) && fs[0] != "" && (fs[0][0] == 'I' || fs[0][0] == '(')
    ensures ParseAtsc(Join(fs), freq) == Lost
  {
    TakeField(fs);
    ValueIsRow(ATSC_MODULATIONS, fs[0]);
  }

  lemma NoNumber(s: string)
    requires s != "" && (s[0] == 'B' || s[0] == '(')
    ensures ScanInt(s) == None
  {
  }

  lemma DvbcStops(s: string, s1: string, freq: u32)
    requires TakeInversion(s).Lost? || (TakeInversion(s).rest == s1 && TakeInt(s1).Lost?)
    ensures ParseDvbc(s, freq) == Lost
  {
  }

  lemma LostAsDvbc(fs: seq<string>, freq: u32)
    requires |fs| >= 2 && Colonless(fs) && fs[1] != "" && (fs[1][0] == 'B' || fs[1][0] == '(')
    requires TakeInversion(Join(fs)).Lost? || TakeInversion(Join(fs)).rest == Join(fs[1..])
    ensures ParseDvbc(Join(fs), freq) == Lost
  {
    hide Join;
    hide ScanInt;
    hide TakeInversion;
    hide ParseDvbc;
    var rest := fs[1..];
    assert rest[0] == fs[1];
    TakeField(rest);
    NoNumber(fs[1]);
    DvbcStops(Join(fs), Join(rest), freq);
  }

  // ---------------------------------------------------------------- frontends

  /** The fields from the frequency on: those of the frontend and the three numbers behind them. */
  predicate FieldsFrom(f: Frontend, fs: seq<string>) {
    var own := FrontendFields(f)[1..];
    && |fs| == |own| + 3 && fs[..|own|] == own && Colonless(fs)
    && forall k :: |own| <= k < |fs| ==> Neutral(fs[k])
  }

  lemma AtscKind(f: Frontend, fs: seq<string>)
    requires f.Atsc? && FieldsFrom(f, fs)
    ensures KindOf(Join(fs)) == if Recognised(f) then ATSC else DVBS
  {
    assert fs[0] == fs[..1][0];
    AtscField(f.modulation);
    KindMeans(fs);
    hide Join;
    hide KindOf;
    hide PrintSetting;
    assert EndsWith(fs[0], "VSB") ==> SomeEnds(fs, "VSB");
  }

  lemma AtscParsed(f: Frontend, fs: seq<string>)
    requires f.Atsc? && f.modulation <= 3 && fs != [] && Colonless(fs) && fs[0] == PrintSetting(f.modulation, ATSC_MODULATIONS)
    ensures ParseAtsc(Join(fs), f.frequency) == Got(Restored(f), Join(fs[1..]))
  {
    hide Sane;
    hide Join;
    hide NameOf;
    hide PrintSetting;
    hide TakeSetting;
    assert fs[0..] == fs;
    SaneAtscModulations();
    NamedAtscModulations(f.modulation);
    TakeSettingAt(fs, 0, f.modulation, ATSC_MODULATIONS);
  }

  lemma AtscFieldsHold(f: Frontend, fs: seq<string>)
    requires f.Atsc? && FieldsFrom(f, fs)
    ensures Colonless(fs) && |fs| == 4 && fs[0] == PrintSetting(f.modulation, ATSC_MODULATIONS)
  {
    hide PrintSetting;
    hide PrintInt;
    hide Neutral;
    assert fs[0] == fs[..1][0];
  }

  lemma AtscFrontend(f: Frontend, fs: seq<string>)
    requires f.Atsc? && FieldsFrom(f, fs)
    ensures ParseFrontend(Join(fs), f.frequency) == if Recognised(f) then Got(Restored(f), Join(fs[1..])) else Lost
  {
    hide FieldsFrom;
    hide Join;
    hide KindOf;
    hide PrintSetting;
    hide ParseAtsc;
    hide ParseDvbs;
    hide EndsWith;
    hide Colonless;
    AtscFieldsHold(f, fs);
    AtscKind(f, fs);
    AtscField(f.modulation);
    if Recognised(f) {
      AtscParsed(f, fs);
    } else {
      LostAsDvbs(fs, f.frequency);
    }
  }

  lemma DvbsFrontend(f: Frontend, fs: seq<string>)
    requires f.Dvbs? && FieldsFrom(f, fs) && Polarization(ToLower(f.polarization))
    ensures ParseFrontend(Join(fs), f.frequency / 1000) == Got(Restored(f), Join(fs[3..]))
  {
    hide PrintInt;
    hide Join;
    hide KindOf;
    var own := fs[..3];
    assert fs[0] == own[0] && fs[1] == own[1] && fs[2] == own[2];
    IntField(f.diseqc);
    IntField(ToSigned(f.symbolRate / 1000));
    NeutralByEnds(fs[0]);
    hide Neutral;
    assert forall k :: 0 <= k < |fs| ==> Neutral(fs[k]);
    KindOfNeutral(fs);
    DvbsParsed(f, fs);
  }

  lemma DvbcFrontend(f: Frontend, fs: seq<string>)
    requires f.Dvbc? && FieldsFrom(f, fs)
    ensures ParseFrontend(Join(fs), f.frequency) == if Recognised(f) then Got(f, Join(fs[4..])) else Lost
  {
    var own := fs[..4];
    assert fs[0] == own[0] && fs[1] == own[1] && fs[2] == own[2] && fs[3] == own[3];
    hide PrintSetting;
    InversionField(f.inversion);
    IntField(ToSigned(f.symbolRate));
    FecField(f.fec);
    DvbcModulationField(f.modulation);
    KindMeans(fs);
    assert !SomeStarts(fs, "HIERARCHY_");
    assert f.fec <= 9 ==> StartsWith(fs[2], "FEC_");
    DvbcParsed(f, fs);
    LostAsAtsc(fs, f.frequency);
    LostAsDvbs(fs, f.frequency);
  }

  lemma DvbtFieldsHold(f: Frontend, fs: seq<string>)
    requires f.Dvbt? && FieldsFrom(f, fs)
    ensures DvbtFields(f, fs) && |fs| == 11
  {
    hide PrintSetting;
    hide PrintInt;
    hide Neutral;
    hide Colonless;
    var own := fs[..8];
    assert forall k :: 0 <= k < 8 ==> fs[k] == own[k];
  }

  lemma DvbtKind(f: Frontend, fs: seq<string>)
    requires DvbtFields(f, fs) && Recognised(f)
    ensures KindOf(Join(fs)) == DVBT
  {
    KindMeans(fs);
    hide PrintSetting;
    hide Join;
    hide KindOf;
    FecField(f.fecHigh);
    HierarchyField(f.hierarchy);
    assert StartsWith(fs[2], "FEC_") && StartsWith(fs[7], "HIERARCHY_");
  }

  /** A DVB-T line taken for another type is skipped. */
  lemma DvbtStrays(f: Frontend, fs: seq<string>)
    requires DvbtFields(f, fs)
    ensures ParseAtsc(Join(fs), f.frequency) == ParseDvbs(Join(fs), f.frequency) == ParseDvbc(Join(fs), f.frequency) == Lost
  {
    DvbtFront(f, fs);
    InversionField(f.inversion);
    BandwidthField(f.bandwidth);
    assert fs[0..] == fs;
    hide PrintSetting;
    hide Join;
    hide ParseAtsc;
    hide ParseDvbs;
    hide ParseDvbc;
    hide Neutral;
    hide TakeInversion;
    LostAsAtsc(fs, f.frequency);
    LostAsDvbs(fs, f.frequency);
    LostAsDvbc(fs, f.frequency);
  }

  lemma DvbtFrontend(f: Frontend, fs: seq<string>)
    requires f.Dvbt? && FieldsFrom(f, fs)
    ensures ParseFrontend(Join(fs), f.frequency) == if Recognised(f) then Got(f, Join(fs[8..])) else Lost
  {
    hide FieldsFrom;
    hide DvbtFields;
    hide Join;
    hide KindOf;
    hide ParseAtsc;
    hide ParseDvbc;
    hide ParseDvbs;
    hide ParseDvbt;
    DvbtFieldsHold(f, fs);
    DvbtParsed(f, fs);
    DvbtStrays(f, fs);
    if Recognised(f) { DvbtKind(f, fs); }
  }

  // ---------------------------------------------------------------- lines

  lemma {:induction false} JoinChars(fs: seq<string>)
    requires forall k :: 0 <= k < |fs| ==> LegalChars(fs[k])
    ensures forall i :: 0 <= i < |Join(fs)| ==> !Ends(Join(fs)[i])
  {
    if |fs| > 1 { JoinChars(fs[1..]); }
  }

  lemma {:induction false} UncommentBefore(s: string, tail: string)
    requires tail != "" && Ends(tail[0]) && forall i :: 0 <= i < |s| ==> !Ends(s[i])
    ensures Uncomment(s + tail) == s
  {
    if s == "" {
      assert s + tail == tail;
    } else {
      assert (s + tail)[1..] == s[1..] + tail;
      UncommentBefore(s[1..], tail);
    }
  }

  lemma DvbtChars(f: Frontend)
    requires f.Dvbt?
    ensures LegalChars(PrintSetting(f.inversion, INVERSIONS)) && LegalChars(PrintSetting(f.bandwidth, BANDWIDTHS))
    ensures LegalChars(PrintSetting(f.fecHigh, FECS)) && LegalChars(PrintSetting(f.fecLow, FECS))
    ensures LegalChars(PrintSetting(f.constellation, CONSTELLATIONS)) && LegalChars(PrintSetting(f.transmission, TRANSMISSION_MODES))
    ensures LegalChars(PrintSetting(f.guard, GUARD_INTERVALS)) && LegalChars(PrintSetting(f.hierarchy, HIERARCHIES))
  {
    hide Sane;
    hide LegalChars;
    hide PrintSetting;
    SaneInversions();
    SettingRoundTrip(INVERSIONS, f.inversion);
    SaneBandwidths();
    SettingRoundTrip(BANDWIDTHS, f.bandwidth);
    SaneFecs();
    SettingRoundTrip(FECS, f.fecHigh);
    SettingRoundTrip(FECS, f.fecLow);
    SaneConstellations();
    SettingRoundTrip(CONSTELLATIONS, f.constellation);
    SaneTransmissionModes();
    SettingRoundTrip(TRANSMISSION_MODES, f.transmission);
    SaneGuardIntervals();
    SettingRoundTrip(GUARD_INTERVALS, f.guard);
    SaneHierarchies();
    SettingRoundTrip(HIERARCHIES, f.hierarchy);
  }

  lemma DvbcChars(f: Frontend)
    requires f.Dvbc?
    ensures LegalChars(PrintSetting(f.inversion, INVERSIONS)) && LegalChars(PrintSetting(f.fec, FECS))
    ensures LegalChars(PrintSetting(f.modulation, DVBC_MODULATIONS))
  {
    hide Sane;
    hide LegalChars;
    hide PrintSetting;
    SaneInversions();
    SettingRoundTrip(INVERSIONS, f.inversion);
    SaneFecs();
    SettingRoundTrip(FECS, f.fec);
    SaneDvbcModulations();
    SettingRoundTrip(DVBC_MODULATIONS, f.modulation);
  }

  lemma FrontendChars(f: Frontend)
    requires f.Dvbs? ==> Polarization(ToLower(f.polarization))
    ensures forall k :: 0 <= k < |FrontendFields(f)| ==> LegalChars(FrontendFields(f)[k])
  {
    assert f.Dvbs? ==> LegalChars([ToLower(f.polarization)]);
    hide PrintInt;
    hide PrintSetting;
    hide LegalChars;
    hide ToLower;
    hide ToSigned;
    IntField(ToSigned(f.frequency));
    match f
    case Atsc(_, _, modulation) =>
      SaneAtscModulations();
      SettingRoundTrip(ATSC_MODULATIONS, modulation);
    case Dvbc(_, _, rate, _, _) =>
      IntField(ToSigned(rate));
      DvbcChars(f);
    case Dvbs(freq, _, rate, _, _, diseqc) =>
      IntField(ToSigned(freq / 1000));
      IntField(diseqc);
      IntField(ToSigned(rate / 1000));
    case Dvbt(_, _, _, _, _, _, _, _, _) => DvbtChars(f);
  }

  /** Every frontend: parsed back exactly when its settings are told apart again. */
  lemma FrontendRoundTrip(f: Frontend, fs: seq<string>, freq: u32)
    requires FieldsFrom(f, fs) && (f.Dvbs? ==> Polarization(ToLower(f.polarization)))
    requires freq == if f.Dvbs? then f.frequency / 1000 else f.frequency
    ensures ParseFrontend(Join(fs), freq) == if Recognised(f) then Got(Restored(f), Join(fs[|FrontendFields(f)| - 1..])) else Lost
  {
    hide ParseFrontend;
    hide Join;
    match f
    case Atsc(_, _, _) => AtscFrontend(f, fs);
    case Dvbc(_, _, _, _, _) => DvbcFrontend(f, fs);
    case Dvbs(_, _, _, _, _, _) => DvbsFrontend(f, fs);
    case Dvbt(_, _, _, _, _, _, _, _, _) => DvbtFrontend(f, fs);
  }

  lemma FieldsColonless(fs: seq<string>)
    requires forall k :: 0 <= k < |fs| ==> LegalChars(fs[k])
    ensures Colonless(fs)
  {
  }

  lemma FrequencyField(f: Frontend)
    ensures FrontendFields(f) != [] && FrontendFields(f)[0] == PrintInt(ToSigned(if f.Dvbs? then f.frequency / 1000 else f.frequency))
  {
    hide PrintInt;
    hide PrintSetting;
  }

  /** The fields of a legal channel. */
  lemma FieldsAre(c: Channel)
    requires Legal(c)
    ensures var all, n := Fields(c), |FrontendFields(c.frontend)|;
      && |all| == n + 4 && all[0] == c.name && FieldsFrom(c.frontend, all[2..])
      && all[1] == FrontendFields(c.frontend)[0]
      && all[n + 1] == PrintInt(c.video) && all[n + 2] == PrintInt(c.audio) && all[n + 3] == PrintInt(c.service)
      && forall k :: 0 <= k < |all| ==> LegalChars(all[k])
  {
    hide FrontendFields;
    hide PrintInt;
    hide Neutral;
    hide LegalChars;
    var all, own, pids := Fields(c), FrontendFields(c.frontend), Pids(c);
    FrontendChars(c.frontend);
    FrequencyField(c.frontend);
    IntField(c.video);
    IntField(c.audio);
    IntField(c.service);
    assert forall k :: 0 <= k < |all| ==> all[k] == if k == 0 then c.name else if k <= |own| then own[k - 1] else pids[k - 1 - |own|];
    var fs := all[2..];
    assert fs[..|own| - 1] == own[1..];
    assert forall k :: 0 <= k < |fs| ==> fs[k] == all[k + 2];
    FieldsColonless(all);
  }

  /** The steps of a line put together; `at` are the texts they start from. */
  lemma BodySteps(c: Channel, freq: i32, kept: bool, at: seq<string>)
    requires |at| == 7 && TakeName(at[0]) == Got(c.name, at[1]) && TakeInt(at[1]) == Got(freq, at[2])
    requires ParseFrontend(at[2], ToUnsigned(freq)) == if kept then Got(c.frontend, at[3]) else Lost
    requires TakeInt(at[3]) == Got(c.video, at[4]) && TakeInt(at[4]) == Got(c.audio, at[5]) && TakeInt(at[5]) == Got(c.service, at[6])
    ensures ParseBody(at[0]) == if kept then Some(c) else None
  {
    hide TakeName;
    hide TakeInt;
    hide ParseFrontend;
    hide ToUnsigned;
  }

  lemma TakeNameOf(fs: seq<string>)
    requires fs != [] && Colonless(fs) && |fs[0]| <= 127
    ensures TakeName(Join(fs)) == Got(fs[0], Join(fs[1..]))
  {
    TakeField(fs);
  }

  /** The fields in front of the frontend's own, and those behind them. */
  lemma OuterFields(c: Channel, freq: i32)
    requires Legal(c) && Fields(c)[1] == PrintInt(freq)
    ensures var all, n := Fields(c), |FrontendFields(c.frontend)|;
      && |all| == n + 4 && TakeName(Join(all)) == Got(c.name, Join(all[1..])) && TakeInt(Join(all[1..])) == Got(freq, Join(all[2..]))
      && TakeInt(Join(all[n + 1..])) == Got(c.video, Join(all[n + 2..])) && TakeInt(Join(all[n + 2..])) == Got(c.audio, Join(all[n + 3..]))
      && TakeInt(Join(all[n + 3..])) == Got(c.service, Join(all[n + 4..]))
  {
    hide Join;
    hide FrontendFields;
    hide PrintInt;
    hide TakeInt;
    hide FieldsFrom;
    hide LegalChars;
    hide TakeName;
    var all, n := Fields(c), |FrontendFields(c.frontend)|;
    FieldsAre(c);
    FieldsColonless(all);
    hide Fields;
    hide Colonless;
    TakeNameOf(all);
    TakeIntAt(all, 1, freq);
    TakeIntAt(all, n + 1, c.video);
    TakeIntAt(all, n + 2, c.audio);
    TakeIntAt(all, n + 3, c.service);
  }

  lemma BodyRoundTrip(c: Channel)
    requires Legal(c)
    ensures ParseBody(Join(Fields(c))) == if Recognised(c.frontend) then Some(c.(frontend := Restored(c.frontend))) else None
  {
    hide Join;
    hide Fields;
    hide FrontendFields;
    hide PrintInt;
    hide TakeInt;
    hide TakeName;
    hide ParseFrontend;
    hide ParseBody;
    hide FieldsFrom;
    hide ToSigned;
    hide ToUnsigned;
    hide LegalChars;
    hide Recognised;
    hide Restored;
    var all, f := Fields(c), c.frontend;
    var n, freq: u32 := |FrontendFields(f)|, if f.Dvbs? then f.frequency / 1000 else f.frequency;
    FieldsAre(c);
    FrequencyField(f);
    SignsCancel(freq);
    OuterFields(c, ToSigned(freq));
    FrontendRoundTrip(f, all[2..], freq);
    assert all[2..][n - 1..] == all[n + 1..];
    BodySteps(c.(frontend := Restored(f)), ToSigned(freq), Recognised(f),
      [Join(all), Join(all[1..]), Join(all[2..]), Join(all[n + 1..]), Join(all[n + 2..]), Join(all[n + 3..]), Join(all[n + 4..])]);
  }

  /** The fields of a legal channel with another text in place of the last. */
  lemma OtherLastField(c: Channel, x: string)
    requires Legal(c) && LegalChars(x) && Neutral(x)
    ensures var was, n := Fields(c), |FrontendFields(c.frontend)|;
      |was| == n + 4 && var all := was[n + 3 := x];
      && all[0] == c.name && FieldsFrom(c.frontend, all[2..]) && all[1] == FrontendFields(c.frontend)[0]
      && all[n + 1] == PrintInt(c.video) && all[n + 2] == PrintInt(c.audio) && Colonless(all)
  {
    hide FrontendFields;
    hide PrintInt;
    hide Neutral;
    hide Fields;
    FieldsAre(c);
    var was, n := Fields(c), |FrontendFields(c.frontend)|;
    var all := was[n + 3 := x];
    FieldsColonless(all);
    assert all[2..][..n - 1] == was[2..][..n - 1];
    assert forall k :: 0 <= k < |all| - 2 ==> all[2..][k] == if k == n + 1 then x else was[2..][k];
  }

  lemma LastIs(fs: seq<string>, k: nat)
    requires Colonless(fs) && k + 1 == |fs|
    ensures TakeInt(Join(fs[k..])) == match ScanInt(fs[k]) case Some(v) => Got(v, "") case None => Lost
  {
    TakeField(fs[k..]);
    assert fs[k..][1..] == [];
    hide ScanInt;
  }

  /** The steps of a line with any text where the service identifier belongs. */
  lemma OtherBodySteps(c: Channel, freq: i32, kept: bool, x: string, at: seq<string>)
    requires |at| == 6 && TakeName(at[0]) == Got(c.name, at[1]) && TakeInt(at[1]) == Got(freq, at[2])
    requires ParseFrontend(at[2], ToUnsigned(freq)) == if kept then Got(c.frontend, at[3]) else Lost
    requires TakeInt(at[3]) == Got(c.video, at[4]) && TakeInt(at[4]) == Got(c.audio, at[5])
    requires TakeInt(at[5]) == match ScanInt(x) case Some(v) => Got(v, "") case None => Lost
    ensures ParseBody(at[0]) == if kept then Some(c.(service := if ScanInt(x).Some? then ScanInt(x).value else 0)) else None
  {
    hide TakeName;
    hide TakeInt;
    hide ParseFrontend;
    hide ToUnsigned;
    hide ScanInt;
  }

  /** A line whose last field is no number, or empty, is a channel with service 0; every other field must be right. */
  lemma LastFieldOptional(c: Channel, x: string)
    requires Legal(c) && LegalChars(x) && Neutral(x)
    ensures Fields(c) != [] && var all := Fields(c)[|Fields(c)| - 1 := x];
      ParseBody(Join(all)) ==
      if Recognised(c.frontend) then
        Some(c.(frontend := Restored(c.frontend), service := if ScanInt(x).Some? then ScanInt(x).value else 0))
      else None
  {
    hide Join;
    hide Fields;
    hide FrontendFields;
    hide PrintInt;
    hide TakeInt;
    hide TakeName;
    hide ParseFrontend;
    hide ParseBody;
    hide FieldsFrom;
    hide ToSigned;
    hide ToUnsigned;
    hide LegalChars;
    hide Neutral;
    hide Recognised;
    hide Restored;
    hide ScanInt;
    var f := c.frontend;
    var n, freq: u32 := |FrontendFields(f)|, if f.Dvbs? then f.frequency / 1000 else f.frequency;
    OtherLastField(c, x);
    var all := Fields(c)[n + 3 := x];
    hide Colonless;
    FrequencyField(f);
    SignsCancel(freq);
    TakeNameOf(all);
    TakeIntAt(all, 1, ToSigned(freq));
    FrontendRoundTrip(f, all[2..], freq);
    assert all[2..][n - 1..] == all[n + 1..];
    TakeIntAt(all, n + 1, c.video);
    TakeIntAt(all, n + 2, c.audio);
    LastIs(all, n + 3);
    OtherBodySteps(c.(frontend := Restored(f)), ToSigned(freq), Recognised(f), x,
      [Join(all), Join(all[1..]), Join(all[2..]), Join(all[n + 1..]), Join(all[n + 2..]), Join(all[n + 3..])]);
  }

  /** A saved line is one line, and parses to the channel as a file keeps it, or is skipped if its
      settings are not told apart again. */
  lemma LineRoundTrip(c: Channel)
    requires Legal(c)
    ensures ParseLine(SaveLine(c)) == if Recognised(c.frontend) then Some(c.(frontend := Restored(c.frontend))) else None
    ensures forall i :: 0 <= i < |SaveLine(c)| ==> (SaveLine(c)[i] == '\n' <==> i == |SaveLine(c)| - 1)
  {
    hide Fields;
    hide ParseBody;
    FieldsAre(c);
    JoinChars(Fields(c));
    UncommentBefore(Join(Fields(c)), "\n");
    BodyRoundTrip(c);
  }

  // ---------------------------------------------------------------- files

  /** getline: the length of the first line, newline included. */
  function LineLength(text: string): (n: nat)
    requires text != ""
    ensures 1 <= n <= |text| && (forall i :: 0 <= i < n - 1 ==> text[i] != '\n') && (text[n - 1] == '\n' || n == |text|)
  {
    if |text| == 1 || text[0] == '\n' then 1 else 1 + LineLength(text[1..])
  }

  /** The channels handed to the callback of dvbcfg_zapchannel_parse. */
  function ParseFile(text: string): seq<Channel>
    decreases |text|
  {
    if text == "" then [] else
      var n := LineLength(text);
      match ParseLine(text[..n])
      case None => ParseFile(text[n..])
      case Some(c) => [c] + ParseFile(text[n..])
  }

  /** What dvbcfg_zapchannel_save writes for the channels its callback supplies. */
  function SaveFile(cs: seq<Channel>): string {
    if cs == [] then "" else SaveLine(cs[0]) + SaveFile(cs[1..])
  }

  function Kept(cs: seq<Channel>): seq<Channel> {
    if cs == [] then []
    else (if Recognised(cs[0].frontend) then [cs[0].(frontend := Restored(cs[0].frontend))] else []) + Kept(cs[1..])
  }

  /** Everything about the frontend is in its line. */
  predicate Exact(f: Frontend) {
    && Recognised(f)
    && match f
       case Atsc(_, inversion, _) => inversion == INVERSION_AUTO
       case Dvbc(_, _, _, _, _) => true
       case Dvbs(freq, inversion, rate, fec, polarization, _) =>
         freq % 1000 == 0 && rate % 1000 == 0 && inversion == INVERSION_AUTO && fec == FEC_AUTO && Polarization(polarization)
       case Dvbt(_, _, _, _, _, _, _, _, _) => true
  }

  lemma ExactMeans(f: Frontend)
    requires f.Dvbs? ==> Polarization(ToLower(f.polarization))
    ensures Exact(f) <==> Recognised(f) && Restored(f) == f
  {
  }

  lemma {:induction false} KeptMeans(cs: seq<Channel>)
    requires forall c :: c in cs ==> Legal(c)
    ensures |Kept(cs)| <= |cs|
    ensures Kept(cs) == cs <==> forall c :: c in cs ==> Exact(c.frontend)
  {
    if cs != [] {
      var k := Kept(cs[1..]);
      assert Legal(cs[0]);
      KeptMeans(cs[1..]);
      ExactMeans(cs[0].frontend);
      assert cs == [cs[0]] + cs[1..];
      if Kept(cs) == cs {
        assert Kept(cs)[0] == cs[0] && Kept(cs)[1..] == cs[1..];
      }
    }
  }

  lemma LineLengthIs(line: string, tail: string)
    requires line != "" && forall i :: 0 <= i < |line| ==> (line[i] == '\n' <==> i == |line| - 1)
    ensures LineLength(line + tail) == |line|
  {
    var n := LineLength(line + tail);
    assert (line + tail)[|line| - 1] == '\n';
  }

  /** Saving any legal channels and parsing the file gives those whose settings are told apart again, as
      a file keeps them and in order; it gives the same list exactly when every channel is exact. */
  lemma {:induction false} FileRoundTrip(cs: seq<Channel>)
    requires forall c :: c in cs ==> Legal(c)
    ensures ParseFile(SaveFile(cs)) == Kept(cs)
    ensures ParseFile(SaveFile(cs)) == cs <==> forall c :: c in cs ==> Exact(c.frontend)
  {
    if cs != [] {
      var line, tail := SaveLine(cs[0]), SaveFile(cs[1..]);
      FileRoundTrip(cs[1..]);
      LineRoundTrip(cs[0]);
      LineLengthIs(line, tail);
      assert (line + tail)[..|line|] == line && (line + tail)[|line|..] == tail;
    }
    KeptMeans(cs);
  }

  /** The two gaps of the format: an ATSC channel with QAM is taken for a DVB-S one, and a DVB-T channel
      whose constellation is found automatically has no name to print; both are skipped when parsed. */
  lemma GapsAreSkipped(name: string, freq: u32)
    requires |name| <= 127 && LegalChars(name)
    ensures ParseFile(SaveFile([Channel(name, 1, 2, 3, Atsc(freq, INVERSION_AUTO, 0))])) == []
    ensures ParseFile(SaveFile([Channel(name, 1, 2, 3, Dvbt(freq, 2, 3, 9, 9, 6, 2, 4, 4))])) == []
  {
    FileRoundTrip([Channel(name, 1, 2, 3, Atsc(freq, INVERSION_AUTO, 0))]);
    FileRoundTrip([Channel(name, 1, 2, 3, Dvbt(freq, 2, 3, 9, 9, 6, 2, 4, 4))]);
  }
}
