/** Any number of flag settings in a row. */
module VbnvRuns {
  import opened VbnvRecords
  import opened VbnvFields
  import opened VbnvLog

  /** Entry `param` of the table is set to `value`. */
  datatype Setting = Setting(param: nat, value: bv8)

  predicate Known(sets: seq<Setting>) {
    forall t :: 0 <= t < |sets| ==> sets[t].param < |PARAM_TABLE|
  }

  function Step(log: Log, s: Setting): (after: Log)
    requires log != [] && s.param < |PARAM_TABLE|
    ensures |after| == |log|
  {
    TableFits(s.param);
    SetField(log, PARAM_TABLE[s.param], s.value)
  }

  function Run(log: Log, sets: seq<Setting>): (after: Log)
    requires log != [] && Known(sets)
    ensures |after| == |log|
  {
    if sets == [] then log else Step(Run(log, sets[..|sets| - 1]), sets[|sets| - 1])
  }

  // ----- the flags as a plain table -----

  function FlagValue(log: Log, i: nat): bv8
    requires log != [] && i < |PARAM_TABLE|
  {
    TableFits(i);
    Field(log, PARAM_TABLE[i])
  }

  function Flags(log: Log): (r: seq<bv8>)
    requires log != []
    ensures |r| == |PARAM_TABLE|
  {
    seq(|PARAM_TABLE|, i requires 0 <= i < |PARAM_TABLE| => FlagValue(log, i))
  }

  /** What the settings do to a table of flags. */
  function PlainRun(flags: seq<bv8>, sets: seq<Setting>): (r: seq<bv8>)
    requires |flags| == |PARAM_TABLE| && Known(sets)
    ensures |r| == |flags|
  {
    if sets == [] then flags
    else
      var last := sets[|sets| - 1];
      PlainRun(flags, sets[..|sets| - 1])[last.param := last.value & PARAM_TABLE[last.param].mask]
  }

  lemma {:induction false} StepIsPlain(log: Log, s: Setting)
    requires log != [] && Contiguous(log) && s.param < |PARAM_TABLE|
    ensures Contiguous(Step(log, s)) && IsSealed(Newest(Step(log, s)))
    ensures Flags(Step(log, s)) == Flags(log)[s.param := s.value & PARAM_TABLE[s.param].mask]
  {
    SetFieldLaws(log, s.param, s.value);
    hide SetField, Field, Fits;
    forall i | 0 <= i < |PARAM_TABLE|
      ensures FlagValue(Step(log, s), i) == Flags(log)[s.param := s.value & PARAM_TABLE[s.param].mask][i]
    {
    }
  }

  /** The log behaves as a plain table of flags, whether records were overwritten, appended or erased on the way. */
  lemma {:induction false} RunIsPlain(log: Log, sets: seq<Setting>)
    requires log != [] && Contiguous(log) && Known(sets)
    ensures Contiguous(Run(log, sets)) && Flags(Run(log, sets)) == PlainRun(Flags(log), sets)
    ensures sets != [] ==> IsSealed(Newest(Run(log, sets)))
  {
    if sets != [] {
      RunIsPlain(log, sets[..|sets| - 1]);
      StepIsPlain(Run(log, sets[..|sets| - 1]), sets[|sets| - 1]);
    }
  }

  /** Position of the last setting of flag `i`, if any. */
  ghost predicate LastSetAt(sets: seq<Setting>, i: nat, t: nat) {
    t < |sets| && sets[t].param == i && forall u :: t < u < |sets| ==> sets[u].param != i
  }

  ghost predicate NeverSet(sets: seq<Setting>, i: nat) {
    forall t :: 0 <= t < |sets| ==> sets[t].param != i
  }

  lemma {:induction false} PlainLast(flags: seq<bv8>, sets: seq<Setting>, i: nat, t: nat)
    requires |flags| == |PARAM_TABLE| && Known(sets) && i < |flags| && LastSetAt(sets, i, t)
    ensures PlainRun(flags, sets)[i] == sets[t].value & PARAM_TABLE[i].mask
  {
    hide PARAM_TABLE;
    var n := |sets| - 1;
    if t < n {
      assert sets[n].param != i;
      assert LastSetAt(sets[..n], i, t);
      PlainLast(flags, sets[..n], i, t);
    }
  }

  lemma {:induction false} PlainNever(flags: seq<bv8>, sets: seq<Setting>, i: nat)
    requires |flags| == |PARAM_TABLE| && Known(sets) && i < |flags| && NeverSet(sets, i)
    ensures PlainRun(flags, sets)[i] == flags[i]
  {
    hide PARAM_TABLE;
    if sets != [] {
      var n := |sets| - 1;
      assert sets[n].param != i;
      assert NeverSet(sets[..n], i);
      PlainNever(flags, sets[..n], i);
    }
  }

  /** Every flag reads the value last given to it, masked, or what it was before the run. */
  lemma {:induction false} LastSettingWins(log: Log, sets: seq<Setting>, i: nat, t: nat)
    requires log != [] && Contiguous(log) && Known(sets) && i < |PARAM_TABLE|
    ensures LastSetAt(sets, i, t) ==> FlagValue(Run(log, sets), i) == sets[t].value & PARAM_TABLE[i].mask
    ensures NeverSet(sets, i) ==> FlagValue(Run(log, sets), i) == FlagValue(log, i)
  {
    RunIsPlain(log, sets);
    assert FlagValue(Run(log, sets), i) == Flags(Run(log, sets))[i];
    assert FlagValue(log, i) == Flags(log)[i];
    hide Run, PlainRun, Flags, FlagValue, PARAM_TABLE;
    if LastSetAt(sets, i, t) {
      PlainLast(Flags(log), sets, i, t);
    }
    if NeverSet(sets, i) {
      PlainNever(Flags(log), sets, i);
    }
  }

  // ----- wear -----

  /** Step `t` of the run erases the section. */
  ghost predicate ErasesAt(log: Log, sets: seq<Setting>, t: nat)
    requires log != [] && Known(sets)
  {
    t < |sets| && (TableFits(sets[t].param);
      var before := Run(log, sets[..t]);
      NeedsErase(before, Changed(Newest(before), PARAM_TABLE[sets[t].param], sets[t].value)))
  }

  lemma {:induction false} StepUses(log: Log, s: Setting)
    requires log != [] && Contiguous(log) && s.param < |PARAM_TABLE|
    ensures Fits(PARAM_TABLE[s.param])
    ensures var new' := Changed(Newest(log), PARAM_TABLE[s.param], s.value);
            && Used(Step(log, s)) <= Used(log) + 1
            && (NeedsErase(log, new') ==> Used(log) == |log| && Used(Step(log, s)) == 1)
  {
    TableFits(s.param);
    var p := PARAM_TABLE[s.param];
    var new' := Changed(Newest(log), p, s.value);
    SealedIsSealed(Newest(log)[p.offset := WriteBits(Newest(log)[p.offset], p, s.value)]);
    SealedIsNotEmpty(new');
    AppendLaws(log, new');
  }

  lemma {:induction false} RunPrefix(log: Log, sets: seq<Setting>, t: nat)
    requires log != [] && Known(sets) && t < |sets|
    ensures Run(log, sets[..t + 1]) == Step(Run(log, sets[..t]), sets[t])
  {
    assert sets[..t + 1][..t] == sets[..t];
  }

  /** `n` steps use at most `n` more records. */
  lemma {:induction false} UseGrowsSlowly(log: Log, sets: seq<Setting>, t: nat, u: nat)
    requires log != [] && Contiguous(log) && Known(sets) && t <= u <= |sets|
    ensures Used(Run(log, sets[..u])) <= Used(Run(log, sets[..t])) + (u - t)
  {
    if t < u {
      UseGrowsSlowly(log, sets, t, u - 1);
      RunPrefix(log, sets, u - 1);
      RunIsPlain(log, sets[..u - 1]);
      StepUses(Run(log, sets[..u - 1]), sets[u - 1]);
    }
  }

  /** Between two erases there are at least as many writes as the section has records, less one. */
  lemma {:induction false} ErasesAreFarApart(log: Log, sets: seq<Setting>, t: nat, u: nat)
    requires log != [] && Contiguous(log) && Known(sets) && t < u < |sets|
    requires ErasesAt(log, sets, t) && ErasesAt(log, sets, u)
    ensures u - t - 1 >= |log| - 1
  {
    RunIsPlain(log, sets[..t]);
    RunIsPlain(log, sets[..u]);
    RunPrefix(log, sets, t);
    StepUses(Run(log, sets[..t]), sets[t]);
    UseGrowsSlowly(log, sets, t + 1, u);
    StepUses(Run(log, sets[..u]), sets[u]);
  }
}
