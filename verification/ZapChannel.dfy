/** The lines of a channel file, as lib/libdvbcfg/dvbcfg_zapchannel.c prints and parses them. */
module ZapChannel {
  import opened Bytes
  import opened ZapText

  // ---------------------------------------------------------------- settings

  datatype Setting = Setting(name: string, value: nat)

  const INVERSIONS := [Setting("INVERSION_ON", 1), Setting("INVERSION_OFF", 0), Setting("INVERSION_AUTO", 2)]
  const FECS := [
    Setting("FEC_1_2", 1), Setting("FEC_2_3", 2), Setting("FEC_3_4", 3), Setting("FEC_4_5", 4), Setting("FEC_5_6", 5),
    Setting("FEC_6_7", 6), Setting("FEC_7_8", 7), Setting("FEC_8_9", 8), Setting("FEC_AUTO", 9), Setting("FEC_NONE", 0)]
  const DVBC_MODULATIONS := [
    Setting("QAM_16", 0), Setting("QAM_32", 1), Setting("QAM_64", 2), Setting("QAM_128", 3), Setting("QAM_256", 4), Setting("QAM_AUTO", 5)]
  const BANDWIDTHS := [
    Setting("BANDWIDTH_6_MHZ", 2), Setting("BANDWIDTH_7_MHZ", 1), Setting("BANDWIDTH_8_MHZ", 0), Setting("BANDWIDTH_AUTO", 3)]
  const CONSTELLATIONS := [
    Setting("QAM_16", 1), Setting("QAM_32", 2), Setting("QAM_64", 3), Setting("QAM_128", 4), Setting("QAM_256", 5), Setting("QPSK", 0)]
  const TRANSMISSION_MODES := [
    Setting("TRANSMISSION_MODE_2K", 0), Setting("TRANSMISSION_MODE_8K", 1), Setting("TRANSMISSION_MODE_AUTO", 2)]
  const GUARD_INTERVALS := [
    Setting("GUARD_INTERVAL_1_32", 0), Setting("GUARD_INTERVAL_1_16", 1), Setting("GUARD_INTERVAL_1_8", 2),
    Setting("GUARD_INTERVAL_1_4", 3), Setting("GUARD_INTERVAL_AUTO", 4)]
  const HIERARCHIES := [
    Setting("HIERARCHY_1", 1), Setting("HIERARCHY_2", 2), Setting("HIERARCHY_4", 3), Setting("HIERARCHY_AUTO", 4), Setting("HIERARCHY_NONE", 0)]
  const ATSC_MODULATIONS := [Setting("8VSB", 2), Setting("16VSB", 3), Setting("QAM_64", 0), Setting("QAM_256", 1)]

  const INVERSION_AUTO := 2
  const FEC_AUTO := 9

  /** dvbcfg_lookup_setting; None stands for the null pointer. */
  function NameOf(value: nat, t: seq<Setting>): Option<string> {
    if t == [] then None else if t[0].value == value then Some(t[0].name) else NameOf(value, t[1..])
  }

  /** The search of dvbcfg_parse_setting. */
  function ValueOf(name: string, t: seq<Setting>): Option<nat> {
    if t == [] then None else if t[0].name == name then Some(t[0].value) else ValueOf(name, t[1..])
  }

  /** What the C library prints for a null pointer under `%s`. */
  const NULL_TEXT := "(null)"

  function PrintSetting(value: nat, t: seq<Setting>): string {
    match NameOf(value, t)
    case Some(name) => name
    case None => NULL_TEXT
  }

  // ---------------------------------------------------------------- channels

  /** The parameters that belong to each frontend type. */
  datatype Frontend =
    | Atsc(frequency: u32, inversion: nat, modulation: nat)
    | Dvbc(frequency: u32, inversion: nat, symbolRate: u32, fec: nat, modulation: nat)
    | Dvbs(frequency: u32, inversion: nat, symbolRate: u32, fec: nat, polarization: char, diseqc: i32)
    | Dvbt(frequency: u32, inversion: nat, bandwidth: nat, fecHigh: nat, fecLow: nat, constellation: nat,
           transmission: nat, guard: nat, hierarchy: nat)

  datatype Channel = Channel(name: string, video: i32, audio: i32, service: i32, frontend: Frontend)

  function ToLower(c: char): char { if 'A' <= c <= 'Z' then c - 'A' + 'a' else c }

  function FrontendFields(f: Frontend): seq<string> {
    match f
    case Atsc(freq, _, modulation) => [PrintInt(ToSigned(freq)), PrintSetting(modulation, ATSC_MODULATIONS)]
    case Dvbc(freq, inversion, rate, fec, modulation) =>
      [PrintInt(ToSigned(freq)), PrintSetting(inversion, INVERSIONS), PrintInt(ToSigned(rate)), PrintSetting(fec, FECS),
       PrintSetting(modulation, DVBC_MODULATIONS)]
    case Dvbs(freq, _, rate, _, polarization, diseqc) =>
      [PrintInt(ToSigned(freq / 1000)), [ToLower(polarization)], PrintInt(diseqc), PrintInt(ToSigned(rate / 1000))]
    case Dvbt(freq, inversion, bandwidth, high, low, constellation, transmission, guard, hierarchy) =>
      [PrintInt(ToSigned(freq)), PrintSetting(inversion, INVERSIONS), PrintSetting(bandwidth, BANDWIDTHS), PrintSetting(high, FECS),
       PrintSetting(low, FECS), PrintSetting(constellation, CONSTELLATIONS), PrintSetting(transmission, TRANSMISSION_MODES),
       PrintSetting(guard, GUARD_INTERVALS), PrintSetting(hierarchy, HIERARCHIES)]
  }

  function Pids(c: Channel): seq<string> { [PrintInt(c.video), PrintInt(c.audio), PrintInt(c.service)] }

  function Fields(c: Channel): seq<string> { [c.name] + FrontendFields(c.frontend) + Pids(c) }

  /** One turn of the loop of dvbcfg_zapchannel_save. */
  function SaveLine(c: Channel): string { Join(Fields(c)) + "\n" }

  // ---------------------------------------------------------------- parsing

  /** A value and the text behind its field; Lost stands for the cursor set to null. */
  datatype Got<+T> = Got(value: T, rest: string) | Lost

  /** dvbcfg_parse_int, dvbcfg_parse_char, dvbcfg_parse_setting and dvbcfg_parse_string */
  function TakeInt(s: string): Got<i32> {
    match ScanInt(Field(s))
    case Some(n) => Got(n, Rest(s))
    case None => Lost
  }

  function TakeChar(s: string): Got<char> { if Field(s) == "" then Lost else Got(Field(s)[0], Rest(s)) }

  function TakeSetting(s: string, t: seq<Setting>): Got<nat> {
    match ValueOf(Field(s), t)
    case Some(v) => Got(v, Rest(s))
    case None => Lost
  }

  function TakeInversion(s: string): Got<nat> { TakeSetting(s, INVERSIONS) }

  function TakeFec(s: string): Got<nat> { TakeSetting(s, FECS) }

  function TakeBandwidth(s: string): Got<nat> { TakeSetting(s, BANDWIDTHS) }

  function TakeConstellation(s: string): Got<nat> { TakeSetting(s, CONSTELLATIONS) }

  function TakeTransmissionMode(s: string): Got<nat> { TakeSetting(s, TRANSMISSION_MODES) }

  function TakeGuardInterval(s: string): Got<nat> { TakeSetting(s, GUARD_INTERVALS) }

  function TakeHierarchy(s: string): Got<nat> { TakeSetting(s, HIERARCHIES) }

  function TakeDvbcModulation(s: string): Got<nat> { TakeSetting(s, DVBC_MODULATIONS) }

  function TakeName(s: string): Got<string> { if |Field(s)| + 1 > 128 then Lost else Got(Field(s), Rest(s)) }

  datatype Kind = ATSC | DVBC | DVBS | DVBT

  /** The type the rest of the line looks like. */
  function KindOf(s: string): Kind {
    if Contains(s, ":FEC_") then if Contains(s, ":HIERARCHY_") then DVBT else DVBC
    else if Contains(s, "VSB:") || Contains(s, ":QAM_") then ATSC else DVBS
  }

  function ParseAtsc(s: string, freq: u32): Got<Frontend> {
    match TakeSetting(s, ATSC_MODULATIONS)
    case Lost => Lost
    case Got(modulation, s1) => Got(Atsc(freq, INVERSION_AUTO, modulation), s1)
  }

  function ParseDvbc(s: string, freq: u32): Got<Frontend> {
    match TakeInversion(s) case Lost => Lost case Got(inversion, s1) =>
    match TakeInt(s1) case Lost => Lost case Got(rate, s2) =>
    match TakeFec(s2) case Lost => Lost case Got(fec, s3) =>
    match TakeDvbcModulation(s3) case Lost => Lost case Got(modulation, s4) =>
    Got(Dvbc(freq, inversion, ToUnsigned(rate), fec, modulation), s4)
  }

  predicate Polarization(c: char) { c == 'h' || c == 'v' || c == 'l' || c == 'r' }

  function ParseDvbs(s: string, freq: u32): Got<Frontend> {
    match TakeChar(s) case Lost => Lost case Got(c, s1) =>
    if !Polarization(ToLower(c)) then Lost else
    match TakeInt(s1) case Lost => Lost case Got(diseqc, s2) =>
    match TakeInt(s2) case Lost => Lost case Got(rate, s3) =>
    Got(Dvbs(ToUnsigned(freq * 1000), INVERSION_AUTO, ToUnsigned(rate * 1000), FEC_AUTO, ToLower(c), diseqc), s3)
  }

  function ParseDvbt(s: string, freq: u32): Got<Frontend> {
    match TakeInversion(s) case Lost => Lost case Got(inversion, s1) =>
    match TakeBandwidth(s1) case Lost => Lost case Got(bandwidth, s2) =>
    match TakeFec(s2) case Lost => Lost case Got(high, s3) =>
    match TakeFec(s3) case Lost => Lost case Got(low, s4) =>
    match TakeConstellation(s4) case Lost => Lost case Got(constellation, s5) =>
    match TakeTransmissionMode(s5) case Lost => Lost case Got(transmission, s6) =>
    match TakeGuardInterval(s6) case Lost => Lost case Got(guard, s7) =>
    match TakeHierarchy(s7) case Lost => Lost case Got(hierarchy, s8) =>
    Got(Dvbt(freq, inversion, bandwidth, high, low, constellation, transmission, guard, hierarchy), s8)
  }

  function ParseFrontend(s: string, freq: u32): Got<Frontend> {
    match KindOf(s)
    case ATSC => ParseAtsc(s, freq)
    case DVBC => ParseDvbc(s, freq)
    case DVBS => ParseDvbs(s, freq)
    case DVBT => ParseDvbt(s, freq)
  }

  /** A line without its newline and comment; None if it is skipped. */
  function ParseBody(s: string): Option<Channel> {
    match TakeName(s) case Lost => None case Got(name, s1) =>
    match TakeInt(s1) case Lost => None case Got(freq, s2) =>
    match ParseFrontend(s2, ToUnsigned(freq)) case Lost => None case Got(frontend, s3) =>
    match TakeInt(s3) case Lost => None case Got(video, s4) =>
    match TakeInt(s4) case Lost => None case Got(audio, s5) =>
    Some(Channel(name, video, audio, if TakeInt(s5).Lost? then 0 else TakeInt(s5).value, frontend))
  }

  predicate Ends(c: char) { c == '\0' || c == '\n' || c == '#' }

  function Uncomment(line: string): (s: string)
    ensures |s| <= |line| && s == line[..|s|] && (|s| < |line| ==> Ends(line[|s|])) && forall i :: 0 <= i < |s| ==> !Ends(s[i])
  {
    if line == "" || Ends(line[0]) then "" else [line[0]] + Uncomment(line[1..])
  }

  function ParseLine(line: string): Option<Channel> { ParseBody(Uncomment(line)) }
}
