/**
  `main`: ask for a selection, load and filter the table, compute the four
  statistics, page through the raw rows, then restart only if the answer to
  "Would you like to restart?" is `yes` in any case. The whole console input
  is the stream `answers`; running out of it ends the run.
 */
module Session {
  import opened Wrappers
  import opened Text
  import opened Tables
  import opened Prompts
  import opened Loading
  import opened Stats
  import opened Paging

  /** What ended a run early: `load_data` raised, or a `mode()[0]` found no value. */
  datatype Crash = LoadFailed(error: LoadError) | StatsFailed(missing: Missing)

  /** One completed pass of the loop: the selection, the filtered table, its statistics and the pages shown. */
  datatype Cycle = Cycle(selection: Selection, rows: seq<Trip>, report: Report, pages: seq<seq<Trip>>)

  datatype Outcome = Finished | InputExhausted | Crashed(crash: Crash)

  /** The passes completed, and how the run ended. */
  datatype Transcript = Transcript(cycles: seq<Cycle>, outcome: Outcome)

  /**
    What a completed pass guarantees: a valid selection of a city with a
    file, the table `load_data` returns for it (non-empty, a subsequence of
    the city's file), the statistics `Describe` computes on that table, and
    pages of five rows.
   */
  predicate Completed(c: Cycle, files: map<string, seq<Trip>>)
  {
    && IsValid(c.selection)
    && c.selection.city != "all"
    && c.selection.city in CityData
    && CityData[c.selection.city] in files
    && LoadData(c.selection.city, c.selection.month, c.selection.day, files) == Success(c.rows)
    && c.rows != []
    && IsSubsequence(c.rows, files[CityData[c.selection.city]])
    && Describe(c.selection.city, c.rows) == Success(c.report)
    && c.report.totalDuration == TotalDuration(c.rows)
    && forall k :: 0 <= k < |c.pages| ==> c.pages[k] == Page(c.rows, PageSize * k)
  }

  /** The first `n` pages of the table. */
  function Pages(rows: seq<Trip>, n: nat): (r: seq<seq<Trip>>)
    ensures |r| == n
    ensures forall k :: 0 <= k < n ==> r[k] == Page(rows, PageSize * k)
  {
    seq(n, k requires 0 <= k => Page(rows, PageSize * k))
  }

  /** One pass of the loop body up to the restart question. */
  datatype Pass = Halted(outcome: Outcome) | Shown(cycle: Cycle, stop: nat)

  /**
    One pass from `answers[pos]`: the prompts, loading, statistics and paging.
    `stop` is the position of the answer that ended the paging.
   */
  function OnePass(answers: seq<string>, pos: nat, files: map<string, seq<Trip>>): (r: Pass)
    requires pos <= |answers|
    ensures r.Shown? ==> pos < r.stop <= |answers|
    ensures r.Halted? ==> r.outcome != Finished
  {
    match Filters(answers, pos)
    case None => Halted(InputExhausted)
    case Some(Asked(selection, afterFilters)) =>
      match LoadData(selection.city, selection.month, selection.day, files)
      case Failure(e) => Halted(Crashed(LoadFailed(e)))
      case Success(rows) =>
        match Describe(selection.city, rows)
        case Failure(m) => Halted(Crashed(StatsFailed(m)))
        case Success(report) =>
          var shown := YesRun(answers, afterFilters);
          Shown(Cycle(selection, rows, report, Pages(rows, shown)), afterFilters + shown)
  }

  /**
    A completed pass meets `Completed`. A load failure after validation can
    only be the city `all` (no `CITY_DATA` entry) or a missing file: a
    validated month is always on the month list.
   */
  lemma OnePassGuarantees(answers: seq<string>, pos: nat, files: map<string, seq<Trip>>)
    requires pos <= |answers|
    ensures var r := OnePass(answers, pos, files);
      && (r.Shown? ==> Completed(r.cycle, files))
      && (r.Halted? && r.outcome.Crashed? && r.outcome.crash.LoadFailed? ==>
            r.outcome.crash.error == UnknownCity("all") || r.outcome.crash.error.MissingFile?)
  {
    var asked := Filters(answers, pos);
    if asked.Some? {
      var selection := asked.value.selection;
      var loaded := LoadData(selection.city, selection.month, selection.day, files);
      MonthListIsMonthsAndAll(selection.month);
      CityWithoutFile(selection.city);
      if loaded.Success? {
        var rows := loaded.value;
        FilterIsSubsequence(files[CityData[selection.city]], selection.month, selection.day);
        var described := Describe(selection.city, rows);
        if described.Success? {
          var shown := YesRun(answers, asked.value.next);
          var cycle := Cycle(selection, rows, described.value, Pages(rows, shown));
          ghost var r := OnePass(answers, pos, files);
          assert r.Shown? && r.cycle.selection == selection && r.cycle.rows == rows;
          assert r.cycle.report == described.value;
          assert r.cycle.pages == Pages(rows, shown);
        }
      }
    }
  }

  /**
    The pages of a completed pass are what the answers asked for: one page
    per `yes` answered just before the pass stopped, after the three
    prompts, and the answer it stopped at is not `yes`.
   */
  lemma OnePassPaging(answers: seq<string>, pos: nat, files: map<string, seq<Trip>>)
    requires pos <= |answers|
    ensures var r := OnePass(answers, pos, files);
      r.Shown? ==>
        && pos + 3 + |r.cycle.pages| <= r.stop
        && (forall j :: r.stop - |r.cycle.pages| <= j < r.stop ==> IsYes(answers[j]))
        && (r.stop < |answers| ==> !IsYes(answers[r.stop]))
  {
    var asked := Filters(answers, pos);
    if asked.Some? {
      var shown := YesRun(answers, asked.value.next);
      var r := OnePass(answers, pos, files);
      if r.Shown? {
        assert r.stop == asked.value.next + shown && |r.cycle.pages| == shown;
      }
    }
  }

  /**
    What the restart loop needs of a pass function `step`: it is defined
    from every position of the stream, a shown pass ends strictly later and
    inside the stream, and a halted pass never reports a normal finish.
   */
  ghost predicate IsPassFunction(answers: seq<string>, step: nat --> Pass)
  {
    forall p: nat :: p <= |answers| ==>
      && step.requires(p)
      && (step(p).Shown? ==> p < step(p).stop <= |answers|)
      && (step(p).Halted? ==> step(p).outcome != Finished)
  }

  /**
    The `while True` loop of `main` from `answers[pos]` on, with the loop
    body given as `step`: passes repeat while the restart answer is `yes`.
   */
  function Loop(answers: seq<string>, pos: nat, step: nat --> Pass): (r: Transcript)
    requires pos <= |answers|
    requires IsPassFunction(answers, step)
    ensures r.outcome == Finished ==> r.cycles != []
    decreases |answers| - pos
  {
    match step(pos)
    case Halted(outcome) => Transcript([], outcome)
    case Shown(cycle, stop) =>
      if stop + 1 >= |answers| then Transcript([cycle], InputExhausted)
      else if !IsYes(answers[stop + 1]) then Transcript([cycle], Finished)
      else
        var rest := Loop(answers, stop + 2, step);
        Transcript([cycle] + rest.cycles, rest.outcome)
  }

  /** One unfolding of `Loop`, stated in terms of the pass it starts with. */
  lemma LoopStep(answers: seq<string>, pos: nat, step: nat --> Pass, pass: Pass)
    requires pos <= |answers|
    requires IsPassFunction(answers, step)
    requires pass == step(pos)
    ensures pass.Halted? ==> Loop(answers, pos, step) == Transcript([], pass.outcome)
    ensures pass.Shown? && pass.stop + 1 >= |answers| ==>
      Loop(answers, pos, step) == Transcript([pass.cycle], InputExhausted)
    ensures pass.Shown? && pass.stop + 1 < |answers| && !IsYes(answers[pass.stop + 1]) ==>
      Loop(answers, pos, step) == Transcript([pass.cycle], Finished)
    ensures pass.Shown? && pass.stop + 1 < |answers| && IsYes(answers[pass.stop + 1]) ==>
      Loop(answers, pos, step).cycles == [pass.cycle] + Loop(answers, pass.stop + 2, step).cycles &&
      Loop(answers, pos, step).outcome == Loop(answers, pass.stop + 2, step).outcome
  {
  }

  /**
    Every cycle of a run is the cycle of some pass started inside the
    stream, and a run that ends in a crash ends with the crash of some pass.
   */
  lemma {:induction false} LoopCycles(answers: seq<string>, pos: nat, step: nat --> Pass)
    requires pos <= |answers|
    requires IsPassFunction(answers, step)
    ensures var r := Loop(answers, pos, step);
      forall i :: 0 <= i < |r.cycles| ==>
        exists p: nat :: pos <= p <= |answers| && step(p).Shown? && step(p).cycle == r.cycles[i]
    ensures var r := Loop(answers, pos, step);
      r.outcome.Crashed? ==> exists p: nat :: pos <= p <= |answers| && step(p) == Halted(r.outcome)
    decreases |answers| - pos
  {
    var r := Loop(answers, pos, step);
    LoopStep(answers, pos, step, step(pos));
    if step(pos).Shown? && step(pos).stop + 1 < |answers| && IsYes(answers[step(pos).stop + 1]) {
      var next := step(pos).stop + 2;
      LoopCycles(answers, next, step);
      var rest := Loop(answers, next, step);
      forall i | 0 <= i < |r.cycles|
        ensures exists p: nat :: pos <= p <= |answers| && step(p).Shown? && step(p).cycle == r.cycles[i]
      {
        if i == 0 {
          assert step(pos).cycle == r.cycles[i];
        } else {
          assert r.cycles[i] == rest.cycles[i - 1];
        }
      }
    } else if step(pos).Shown? {
      assert step(pos).cycle == r.cycles[0];
    }
  }

  /** The loop body of `main()` up to the restart question, as a pass function. */
  function Step(answers: seq<string>, files: map<string, seq<Trip>>): (step: nat --> Pass)
    ensures IsPassFunction(answers, step)
    ensures forall p: nat :: p <= |answers| ==> step.requires(p) && step(p) == OnePass(answers, p, files)
  {
    (p: nat) requires p <= |answers| => OnePass(answers, p, files)
  }

  /** The run of `main` from `answers[pos]` on. */
  function Sessions(answers: seq<string>, pos: nat, files: map<string, seq<Trip>>): (r: Transcript)
    requires pos <= |answers|
  {
    Loop(answers, pos, Step(answers, files))
  }

  /**
    Every pass of a run is a completed one, and the only load failures that
    can end a run are the city `all` and a missing file.
   */
  lemma SessionsGuarantees(answers: seq<string>, pos: nat, files: map<string, seq<Trip>>)
    requires pos <= |answers|
    ensures var r := Sessions(answers, pos, files);
      && (forall i :: 0 <= i < |r.cycles| ==> Completed(r.cycles[i], files))
      && (r.outcome.Crashed? && r.outcome.crash.LoadFailed? ==>
            r.outcome.crash.error == UnknownCity("all") || r.outcome.crash.error.MissingFile?)
  {
    var step := Step(answers, files);
    var r := Loop(answers, pos, step);
    LoopCycles(answers, pos, step);
    forall i | 0 <= i < |r.cycles| ensures Completed(r.cycles[i], files) {
      var p: nat :| pos <= p <= |answers| && step(p).Shown? && step(p).cycle == r.cycles[i];
      OnePassGuarantees(answers, p, files);
    }
    if r.outcome.Crashed? {
      var p: nat :| pos <= p <= |answers| && step(p) == Halted(r.outcome);
      OnePassGuarantees(answers, p, files);
    }
  }

  /** The loop body of `main()` up to the restart question. */
  method RunPass(answers: seq<string>, pos: nat, files: map<string, seq<Trip>>) returns (r: Pass)
    requires pos <= |answers|
    ensures r == OnePass(answers, pos, files)
  {
    var asked := GetFilters(answers, pos);
    if asked.None? {
      return Halted(InputExhausted);
    }
    var selection := asked.value.selection;
    var loaded := LoadData(selection.city, selection.month, selection.day, files);
    if loaded.Failure? {
      return Halted(Crashed(LoadFailed(loaded.error)));
    }
    var rows := loaded.value;
    var described := Describe(selection.city, rows);
    if described.Failure? {
      return Halted(Crashed(StatsFailed(described.error)));
    }
    var pages := RawData(rows, answers, asked.value.next);
    assert pages == Pages(rows, YesRun(answers, asked.value.next));
    r := Shown(Cycle(selection, rows, described.value, pages), asked.value.next + |pages|);
    ghost var expected := OnePass(answers, pos, files);
    assert expected.Shown? && expected.stop == r.stop;
    assert expected.cycle.selection == selection;
    assert expected.cycle.rows == rows;
    assert expected.cycle.report == described.value;
    assert expected.cycle.pages == pages;
  }

  /** `RunPass` seen through the pass function it computes. */
  method NextPass(answers: seq<string>, pos: nat, files: map<string, seq<Trip>>, ghost step: nat --> Pass)
    returns (r: Pass)
    requires pos <= |answers|
    requires IsPassFunction(answers, step)
    requires forall p: nat {:trigger OnePass(answers, p, files)} :: p <= |answers| ==> step(p) == OnePass(answers, p, files)
    ensures r == step(pos)
  {
    r := RunPass(answers, pos, files);
  }

  /**
    The `while True` loop of `main()`, run with `RunPass` as its body; `step`
    is the pass function the body computes.
   */
  method RestartLoop(answers: seq<string>, files: map<string, seq<Trip>>, ghost step: nat --> Pass)
    returns (t: Transcript)
    requires IsPassFunction(answers, step)
    requires forall p: nat {:trigger OnePass(answers, p, files)} :: p <= |answers| ==> step(p) == OnePass(answers, p, files)
    ensures t == Loop(answers, 0, step)
  {
    ghost var whole := Loop(answers, 0, step);
    var cycles: seq<Cycle> := [];
    var pos := 0;
    while true
      invariant pos <= |answers|
      invariant whole.cycles == cycles + Loop(answers, pos, step).cycles
      invariant whole.outcome == Loop(answers, pos, step).outcome
      decreases |answers| - pos
    {
      ghost var now := Loop(answers, pos, step);
      var pass := NextPass(answers, pos, files, step);
      LoopStep(answers, pos, step, pass);
      if pass.Halted? {
        return Transcript(cycles, pass.outcome);
      }
      ghost var before := cycles;
      cycles := cycles + [pass.cycle];
      if pass.stop + 1 >= |answers| {
        assert cycles == before + now.cycles;
        return Transcript(cycles, InputExhausted);
      }
      var restart := answers[pass.stop + 1];
      if !IsYes(restart) {
        assert cycles == before + now.cycles;
        return Transcript(cycles, Finished);
      }
      pos := pass.stop + 2;
    }
  }

  /** `main()`: passes repeat while the answer to the restart question is `yes`. */
  method MainLoop(answers: seq<string>, files: map<string, seq<Trip>>) returns (t: Transcript)
    ensures t == Sessions(answers, 0, files)
  {
    t := RestartLoop(answers, files, Step(answers, files));
  }
}
