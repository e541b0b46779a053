/** The per-column vertical-merge state machine of the body renderer
    (Reporter/Tools/NPOIExportTool.cs, lines 389-414), and a reference plan that
    says, entry by entry, what it does to a column.

    Each run-length entry `v` counts the rows of one group INCLUDING its anchor
    row. The machine decrements the current entry in place (the list is the
    caller's) before it merges, so the region it adds spans `v - 1` further rows. */
module MergeMachine {
  import opened ExportModels

  /** What the machine decides for one cell: whether the cell value is written
      (`write`), and, when `span > 0`, that a vertical region starts at this row
      and covers `span` further rows. */
  datatype Effect = Effect(write: bool, span: int)

  datatype StepResult = StepResult(info: MergeInfo, runs: seq<int>, effect: Effect)

  /** Every column starts with no merge in progress, pointer 0 and counter 0. */
  const Init := MergeInfo(false, 0, 0)

  /** One row of one column: the machine's decision and its new state, with the
      run-length list as the machine leaves it. */
  function Step(m: MergeInfo, runs: seq<int>): (r: StepResult)
    ensures |r.runs| == |runs|
    ensures r.info.pointer == m.pointer || r.info.pointer == m.pointer + 1
    ensures m.pointer >= |runs| ==> r == StepResult(m, runs, Effect(true, 0))
  {
    if m.pointer < |runs| then
      var p := m.pointer;
      if !m.state && m.counter < runs[p] then
        // a new group becomes active: shorten its entry by the anchor row, merge the rest
        var runs' := runs[p := runs[p] - 1];
        var c := runs'[p];
        var e := Effect(true, if c > 0 then c else 0);
        if c <= 0 then StepResult(MergeInfo(false, p + 1, c - 1), runs', e)
        else StepResult(MergeInfo(true, p, c - 1), runs', e)
      else
        // inside a group: the cell is suppressed while the counter is positive
        var write := !(m.counter > 0);
        if m.counter <= 0 then StepResult(MergeInfo(false, p + 1, m.counter - 1), runs, Effect(write, 0))
        else StepResult(MergeInfo(m.state, p, m.counter - 1), runs, Effect(write, 0))
    else
      StepResult(m, runs, Effect(true, 0))
  }

  /** The machine run over the first `n` rows of one column, alone: final
      state, final list and the decision for each row. */
  function Run(runs: seq<int>, n: nat): (r: (MergeInfo, seq<int>, seq<Effect>))
    ensures |r.2| == n && |r.1| == |runs|
  {
    if n == 0 then (Init, runs, [])
    else
      var (m, rs, es) := Run(runs, n - 1);
      var s := Step(m, rs);
      (s.info, s.runs, es + [s.effect])
  }

  // ---------------------------------------------------------------------------
  // The reference plan

  /** Rows an entry occupies: its value, but at least one row. */
  function Occupied(v: int): (k: nat)
    ensures k >= 1 && k >= v
    ensures v >= 1 ==> k == v
  {
    if v <= 1 then 1 else v
  }

  /** The decisions for the rows of one group of `v` rows: the anchor writes
      its value and starts the only region (when there is more than one row),
      the rows strictly inside are suppressed, and the last row writes again. */
  function GroupEffects(v: int): (r: seq<Effect>)
    ensures |r| == Occupied(v)
    ensures forall k | 0 <= k < |r| :: r[k].write <==> (k == 0 || k == |r| - 1)
    ensures forall k | 0 <= k < |r| :: r[k].span == (if k == 0 && v > 1 then v - 1 else 0)
  {
    if v <= 1 then [Effect(true, 0)]
    else [Effect(true, v - 1)] + seq(v - 2, _ => Effect(false, 0)) + [Effect(true, 0)]
  }

  /** The decision for row `i` of a column whose list is `runs`: the groups
      follow one another; once the list is used up every cell is written. */
  function PlanEffect(runs: seq<int>, i: nat): Effect
    decreases |runs|
  {
    if runs == [] then Effect(true, 0)
    else if i < Occupied(runs[0]) then GroupEffects(runs[0])[i]
    else PlanEffect(runs[1..], i - Occupied(runs[0]))
  }

  /** The row at which entry `p` becomes active. */
  function Start(runs: seq<int>, p: nat): nat
    requires p <= |runs|
  {
    if p == 0 then 0 else Start(runs, p - 1) + Occupied(runs[p - 1])
  }

  /** The counter value the machine holds when entry `p` becomes current. */
  function EntryCounter(runs: seq<int>, p: nat): int
    requires p <= |runs|
  {
    if p == 0 then 0
    else
      var c := EntryCounter(runs, p - 1);
      var v := runs[p - 1];
      if c < v then (if v >= 2 then -1 else v - 2) else c - 1
  }

  /** What entry `p` holds once its group has started: one less when the
      machine activated it (always, for a positive entry). */
  function AfterRender(runs: seq<int>, p: nat): int
    requires p < |runs|
  {
    if EntryCounter(runs, p) < runs[p] then runs[p] - 1 else runs[p]
  }

  /** The list after `n` rows: every entry whose group has started holds its
      rendered value, the others are as the caller gave them. */
  function Rendered(runs: seq<int>, n: nat): (r: seq<int>)
    ensures |r| == |runs|
  {
    seq(|runs|, j requires 0 <= j < |runs| => if Start(runs, j) < n then AfterRender(runs, j) else runs[j])
  }

  // ---------------------------------------------------------------------------
  // Lemmas about the plan

  lemma {:induction false} EntryCounterNonPositive(runs: seq<int>, p: nat)
    requires p <= |runs|
    ensures EntryCounter(runs, p) <= 0
  {
    if p > 0 { EntryCounterNonPositive(runs, p - 1); }
  }

  /** A positive entry is always decremented once its group starts. */
  lemma PositiveEntryDecremented(runs: seq<int>, p: nat)
    requires p < |runs| && runs[p] >= 1
    ensures AfterRender(runs, p) == runs[p] - 1
  {
    EntryCounterNonPositive(runs, p);
  }

  lemma {:induction false} StartMonotone(runs: seq<int>, p: nat, q: nat)
    requires p <= q <= |runs|
    ensures Start(runs, p) + (q - p) <= Start(runs, q)
    decreases q
  {
    if p < q { StartMonotone(runs, p, q - 1); }
  }

  lemma {:induction false} StartShift(runs: seq<int>, p: nat)
    requires 1 <= p <= |runs|
    ensures Start(runs, p) == Occupied(runs[0]) + Start(runs[1..], p - 1)
  {
    if p > 1 { StartShift(runs, p - 1); }
  }

  /** Row `i` inside the rows of entry `p` follows that entry's group. */
  lemma {:induction false} PlanEffectAt(runs: seq<int>, p: nat, i: nat)
    requires p < |runs|
    requires Start(runs, p) <= i < Start(runs, p) + Occupied(runs[p])
    ensures PlanEffect(runs, i) == GroupEffects(runs[p])[i - Start(runs, p)]
    decreases p
  {
    if p > 0 {
      StartShift(runs, p);
      PlanEffectAt(runs[1..], p - 1, i - Occupied(runs[0]));
    }
  }

  /** Past the rows of every entry, each cell is written and nothing merges. */
  lemma {:induction false} PlanEffectBeyond(runs: seq<int>, i: nat)
    requires Start(runs, |runs|) <= i
    ensures PlanEffect(runs, i) == Effect(true, 0)
    decreases |runs|
  {
    if runs != [] {
      StartShift(runs, |runs|);
      PlanEffectBeyond(runs[1..], i - Occupied(runs[0]));
    }
  }

  /** Entry `p` yields exactly one region, at its first row, of `v - 1` further
      rows, when `v > 1`, and none otherwise; its rows are written at the first
      and the last row only. */
  lemma EntryRegion(runs: seq<int>, p: nat)
    requires p < |runs|
    ensures Start(runs, p + 1) == Start(runs, p) + Occupied(runs[p])
    ensures forall i | Start(runs, p) <= i < Start(runs, p + 1) ::
      PlanEffect(runs, i).span > 0 <==> (i == Start(runs, p) && runs[p] > 1)
    ensures runs[p] > 1 ==> PlanEffect(runs, Start(runs, p)).span == runs[p] - 1
    ensures forall i | Start(runs, p) <= i < Start(runs, p + 1) ::
      PlanEffect(runs, i).write <==> (i == Start(runs, p) || i == Start(runs, p + 1) - 1)
  {
    forall i | Start(runs, p) <= i < Start(runs, p + 1)
      ensures PlanEffect(runs, i) == GroupEffects(runs[p])[i - Start(runs, p)]
    {
      PlanEffectAt(runs, p, i);
    }
    if runs[p] > 1 { PlanEffectAt(runs, p, Start(runs, p)); }
  }

  // ---------------------------------------------------------------------------
  // The machine follows the plan

  /** The state of the machine after `n` rows, in terms of the plan. */
  ghost predicate Tracks(runs: seq<int>, m: MergeInfo, rs: seq<int>, n: nat) {
    var p := m.pointer;
    && p <= |runs| && |rs| == |runs|
    && Start(runs, p) <= n
    && (p < |runs| ==> n < Start(runs, p) + Occupied(runs[p]))
    && rs == Rendered(runs, n)
    && (!m.state && p < |runs| ==> n == Start(runs, p) && m.counter == EntryCounter(runs, p))
    && (m.state ==> p < |runs| && runs[p] >= 2 && Start(runs, p) < n
                    && m.counter == runs[p] - 1 - (n - Start(runs, p)))
  }

  lemma {:induction false} StepTracksExhausted(runs: seq<int>, m: MergeInfo, rs: seq<int>, n: nat)
    requires Tracks(runs, m, rs, n) && m.pointer == |runs|
    ensures Tracks(runs, Step(m, rs).info, Step(m, rs).runs, n + 1)
    ensures Step(m, rs).effect == PlanEffect(runs, n)
  {
    PlanEffectBeyond(runs, n);
    forall j | 0 <= j < |runs| ensures Start(runs, j) < n {
      StartMonotone(runs, j + 1, |runs|);
    }
    assert Rendered(runs, n + 1) == Rendered(runs, n);
  }

  /** Within entry `p`'s rows, the earlier entries have started and the
      later ones have not. */
  lemma OtherStarts(runs: seq<int>, p: nat, n: nat, j: nat)
    requires p < |runs| && Start(runs, p) <= n < Start(runs, p) + Occupied(runs[p])
    requires j < |runs| && j != p
    ensures j < p ==> Start(runs, j) < n
    ensures j > p ==> Start(runs, j) > n
  {
    if j < p {
      EarlierStarted(runs, j, p);
    } else {
      LaterNotStarted(runs, p, j);
    }
  }

  lemma EarlierStarted(runs: seq<int>, j: nat, p: nat)
    requires j < p <= |runs|
    ensures Start(runs, j) < Start(runs, p)
  {
    StartMonotone(runs, j + 1, p);
  }

  lemma {:induction false} LaterNotStarted(runs: seq<int>, p: nat, j: nat)
    requires p < j <= |runs|
    ensures Start(runs, p) + Occupied(runs[p]) <= Start(runs, j)
    decreases j
  {
    if j == p + 1 {
      StartNext(runs, p);
    } else {
      LaterNotStarted(runs, p, j - 1);
      StartNext(runs, j - 1);
    }
  }

  lemma StartNext(runs: seq<int>, p: nat)
    requires p < |runs|
    ensures Start(runs, p + 1) == Start(runs, p) + Occupied(runs[p])
  {
  }

  /** The first row of entry `p` renders entry `p`, and nothing else. */
  lemma RenderedFirst(runs: seq<int>, p: nat, n: nat)
    requires p < |runs| && Start(runs, p) == n
    ensures Rendered(runs, n + 1) == Rendered(runs, n)[p := AfterRender(runs, p)]
  {
    var before, after := Rendered(runs, n), Rendered(runs, n + 1);
    forall j | 0 <= j < |runs| ensures after[j] == before[p := AfterRender(runs, p)][j] {
      if j != p {
        OtherStarts(runs, p, n, j);
      }
    }
  }

  /** The later rows of entry `p` render nothing. */
  lemma RenderedInside(runs: seq<int>, p: nat, n: nat)
    requires p < |runs| && Start(runs, p) < n < Start(runs, p) + Occupied(runs[p])
    ensures Rendered(runs, n + 1) == Rendered(runs, n)
  {
    var before, after := Rendered(runs, n), Rendered(runs, n + 1);
    forall j | 0 <= j < |runs| ensures after[j] == before[j] {
      if j != p {
        OtherStarts(runs, p, n, j);
      }
    }
  }

  lemma {:induction false} StepTracksIdle(runs: seq<int>, m: MergeInfo, rs: seq<int>, n: nat)
    requires Tracks(runs, m, rs, n) && m.pointer < |runs| && !m.state
    ensures Tracks(runs, Step(m, rs).info, Step(m, rs).runs, n + 1)
    ensures Step(m, rs).effect == PlanEffect(runs, n)
  {
    var p := m.pointer;
    var v := runs[p];
    PlanEffectAt(runs, p, n);
    EntryCounterNonPositive(runs, p);
    RenderedFirst(runs, p, n);
    assert rs[p] == v;
    assert Start(runs, p + 1) == n + Occupied(v);
    var s := Step(m, rs);
    if m.counter < v {
      assert s.runs == rs[p := v - 1];
      assert s.info == if v >= 2 then MergeInfo(true, p, v - 2) else MergeInfo(false, p + 1, v - 2);
    } else {
      assert s.runs == rs && s.info == MergeInfo(false, p + 1, m.counter - 1);
    }
  }

  lemma {:induction false} StepTracksActive(runs: seq<int>, m: MergeInfo, rs: seq<int>, n: nat)
    requires Tracks(runs, m, rs, n) && m.state
    ensures Tracks(runs, Step(m, rs).info, Step(m, rs).runs, n + 1)
    ensures Step(m, rs).effect == PlanEffect(runs, n)
  {
    var p := m.pointer;
    PlanEffectAt(runs, p, n);
    EntryCounterNonPositive(runs, p);
    RenderedInside(runs, p, n);
    var s := Step(m, rs);
    assert s.runs == rs;
    if m.counter <= 0 {
      assert s.info == MergeInfo(false, p + 1, m.counter - 1);
      assert s.effect == Effect(true, 0);
    } else {
      assert s.info == MergeInfo(true, p, m.counter - 1);
      assert s.effect == Effect(false, 0);
    }
  }

  lemma StepTracks(runs: seq<int>, m: MergeInfo, rs: seq<int>, n: nat)
    requires Tracks(runs, m, rs, n)
    ensures Tracks(runs, Step(m, rs).info, Step(m, rs).runs, n + 1)
    ensures Step(m, rs).effect == PlanEffect(runs, n)
  {
    if m.pointer == |runs| {
      StepTracksExhausted(runs, m, rs, n);
    } else if m.state {
      StepTracksActive(runs, m, rs, n);
    } else {
      StepTracksIdle(runs, m, rs, n);
    }
  }

  lemma {:induction false} RunTracks(runs: seq<int>, n: nat)
    ensures Tracks(runs, Run(runs, n).0, Run(runs, n).1, n)
    ensures forall i | 0 <= i < n :: Run(runs, n).2[i] == PlanEffect(runs, i)
  {
    if n > 0 {
      RunTracks(runs, n - 1);
      var (m, rs, es) := Run(runs, n - 1);
      StepTracks(runs, m, rs, n - 1);
      var e := Step(m, rs).effect;
      assert Run(runs, n).2 == es + [e];
      forall i | 0 <= i < n ensures (es + [e])[i] == PlanEffect(runs, i) {
        if i < n - 1 {
          assert (es + [e])[i] == es[i];
        }
      }
    }
  }

  /** Run alone over `n` rows, a column's machine makes exactly the plan's
      decisions; its pointer has passed exactly the entries whose rows are all
      done (it advances once per entry); every entry whose group has started
      holds its rendered value, the others are untouched. */
  lemma MachineFollowsPlan(runs: seq<int>, n: nat)
    ensures forall i | 0 <= i < n :: Run(runs, n).2[i] == PlanEffect(runs, i)
    ensures Run(runs, n).0.pointer <= |runs|
    ensures Start(runs, Run(runs, n).0.pointer) <= n
    ensures Run(runs, n).0.pointer < |runs| ==> n < Start(runs, Run(runs, n).0.pointer + 1)
    ensures Run(runs, n).1 == Rendered(runs, n)
  {
    RunTracks(runs, n);
  }

  /** Once every entry's rows are done the column no longer merges: the
      machine stays put and writes every cell. */
  lemma ExhaustedColumnIsInert(runs: seq<int>, n: nat)
    requires Start(runs, |runs|) <= n
    ensures Run(runs, n).0.pointer == |runs|
    ensures Step(Run(runs, n).0, Run(runs, n).1) == StepResult(Run(runs, n).0, Run(runs, n).1, Effect(true, 0))
  {
    RunTracks(runs, n);
    var p := Run(runs, n).0.pointer;
    if p < |runs| {
      StartMonotone(runs, p + 1, |runs|);
    }
  }
}
