/** The section tracker of lib/libucsi/section.h: psi_table_state_reset and section_ext_useful. */
module PsiTable {

  type u5 = n: int | 0 <= n < 0x20 witness 0
  type u8 = n: int | 0 <= n < 0x100 witness 0

  /** The fields of struct section_ext that matter here. */
  datatype Header = Header(version: u5, number: u8, last: u8)

  /** struct psi_table_state */
  datatype State = State(version: u8, next: nat, complete: bool, newTable: bool)

  /** psi_table_state_reset sets the version only; the other fields are whatever they were. */
  predicate Reset(t: State) { t.version == 0xFF }

  /** section_ext_useful */
  function Useful(t: State, s: Header): (State, bool) {
    if s.version == t.version && t.complete then (t, false)
    else if s.version != t.version && s.number != 0 then (t, false)
    else if s.version == t.version && s.number != t.next then (t, false)
    else
      var next := (if s.version != t.version then 0 else t.next) + 1;
      var complete := s.last < next || (s.version == t.version && t.complete);
      (State(s.version, next, complete, s.version != t.version), true)
  }

  datatype Accepted = Accepted(section: Header, newTable: bool)

  /** What is accepted from a sequence of sections, with the new_table flag of each, and the state
      that is left. */
  function Track(t: State, sections: seq<Header>): (State, seq<Accepted>)
    decreases |sections|
  {
    if sections == [] then (t, []) else
      var (t', ok) := Useful(t, sections[0]);
      var (last, rest) := Track(t', sections[1..]);
      (last, (if ok then [Accepted(sections[0], t'.newTable)] else []) + rest)
  }

  /** `a` may be accepted directly after `before`. */
  predicate Follows(before: Header, a: Accepted) {
    if a.newTable then a.section.number == 0 && a.section.version != before.version
    else a.section.version == before.version && a.section.number == before.number + 1 && before.number < before.last
  }

  /** The state right after `s` was accepted. */
  predicate After(t: State, s: Header) {
    t.version == s.version && t.next == s.number + 1 && (t.complete <==> s.last <= s.number)
  }

  lemma {:induction false} TrackFollows(t: State, before: Header, sections: seq<Header>)
    requires After(t, before)
    ensures var acc := Track(t, sections).1;
            && (acc != [] ==> Follows(before, acc[0]))
            && forall k :: 0 < k < |acc| ==> Follows(acc[k - 1].section, acc[k])
    decreases |sections|
  {
    if sections != [] {
      var (t', ok) := Useful(t, sections[0]);
      TrackFollows(t', if ok then sections[0] else before, sections[1..]);
      var rest := Track(t', sections[1..]).1;
      var acc := Track(t, sections).1;
      if ok {
        forall k | 1 < k < |acc| ensures Follows(acc[k - 1].section, acc[k]) { assert Follows(rest[k - 2].section, rest[k - 1]); }
      } else {
        assert acc == rest;
      }
    }
  }

  /** From a reset state the first section accepted is number 0 and starts a table, and each later
      one is the next number of the same version or number 0 of another version. */
  lemma {:induction false} TrackFromReset(t: State, sections: seq<Header>)
    requires Reset(t)
    ensures var acc := Track(t, sections).1;
            && (acc != [] ==> acc[0].newTable && acc[0].section.number == 0)
            && forall k :: 0 < k < |acc| ==> Follows(acc[k - 1].section, acc[k])
    decreases |sections|
  {
    if sections != [] {
      var (t', ok) := Useful(t, sections[0]);
      var rest := Track(t', sections[1..]).1;
      var acc := Track(t, sections).1;
      if ok {
        TrackFollows(t', sections[0], sections[1..]);
        forall k | 1 < k < |acc| ensures Follows(acc[k - 1].section, acc[k]) { assert Follows(rest[k - 2].section, rest[k - 1]); }
      } else {
        TrackFromReset(t', sections[1..]);
        assert acc == rest;
      }
    }
  }

  /** Between two new_table events the accepted sections share one version, are numbered 0, 1, 2
      and so on without a gap, and none comes after a section that completed the table. */
  lemma {:induction false} Numbered(t: State, sections: seq<Header>, j: nat, k: nat)
    requires Reset(t) && j <= k < |Track(t, sections).1|
    requires var acc := Track(t, sections).1; acc[j].newTable && forall m :: j < m <= k ==> !acc[m].newTable
    ensures var acc := Track(t, sections).1;
            && acc[k].section.version == acc[j].section.version
            && acc[k].section.number == k - j
            && (j < k ==> acc[k - 1].section.number < acc[k - 1].section.last)
  {
    TrackFromReset(t, sections);
    assert j > 0 ==> Follows(Track(t, sections).1[j - 1].section, Track(t, sections).1[j]);
    if j < k { Numbered(t, sections, j, k - 1); }
  }

  /** The sections `from` to `last` of one version, in order. */
  function InOrder(version: u5, last: u8, from: nat): seq<Header>
    requires from <= last + 1
    decreases last + 1 - from
  {
    if from == last + 1 then [] else [Header(version, from, last)] + InOrder(version, last, from + 1)
  }

  /** Sections that arrive in order are all accepted and complete the table; then nothing of that
      version is accepted any more. */
  lemma {:induction false} InOrderCompletes(t: State, version: u5, last: u8, from: nat)
    requires from <= last
    requires if from == 0 then t.version != version else t.version == version && t.next == from && !t.complete
    ensures var (after, acc) := Track(t, InOrder(version, last, from));
            && |acc| == last + 1 - from
            && (forall i :: 0 <= i < |acc| ==> acc[i].section == Header(version, from + i, last))
            && after.version == version && after.complete
            && forall s: Header :: s.version == version ==> !Useful(after, s).1
    decreases last - from
  {
    var sections := InOrder(version, last, from);
    var t' := Useful(t, sections[0]).0;
    assert sections[1..] == InOrder(version, last, from + 1);
    if from < last {
      InOrderCompletes(t', version, last, from + 1);
    }
  }

  /** The state as section_ext_useful changes it in place. */
  class PsiTableState {
    var version: u8
    var next: nat
    var complete: bool
    var newTable: bool

    ghost function Model(): State
      reads this
    {
      State(version, next, complete, newTable)
    }

    /** psi_table_state_reset */
    method ResetState()
      modifies this`version
      ensures Reset(Model()) && next == old(next) && complete == old(complete) && newTable == old(newTable)
    {
      version := 0xFF;
    }

    /** section_ext_useful */
    method CheckUseful(s: Header) returns (useful: bool)
      modifies this
      ensures (Model(), useful) == Useful(old(Model()), s)
    {
      if s.version == version && complete { return false; }
      if s.version != version {
        if s.number != 0 { return false; }
        next := 0;
        complete := false;
        version := s.version;
        newTable := true;
      } else if s.number == next {
        newTable := false;
      } else {
        return false;
      }
      next := next + 1;
      if s.last < next { complete := true; }
      return true;
    }
  }
}
