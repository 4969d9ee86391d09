/** Calls of one session that overlap: each reads the log, runs its tool and its ingest window, and
    puts its log record at moments of its own, with no lock but the one around the window. */
module Overlap {
  import opened Core
  import opened Ingest
  import opened Stores
  import opened ToolLog
  import opened Serial
  import opened Accounting
  import opened Calls

  /** How far a call has come. It has been suppressed if the record it logs is a duplicate's. */
  datatype Stage =
    | Asking                                // has not looked for a duplicate yet
    | Cleared                               // found none
    | Logging(record: CallRecord)           // about to put its record
    | Over(logged: Option<CallRecord>)      // has put it, or was rejected and puts none

  /** `order` lists the calls that have ingested, in the order of their windows. */
  datatype Flight = Flight(state: State, stages: seq<Stage>, order: seq<nat>)

  /** What a call ingests, if its tool returns something valid. */
  function JobFrom(c: Call): Job {
    Job(c.tool, if c.outcome.Returned? && Validated(c.outcome.raw, c.many).Ok? then
          Validated(c.outcome.raw, c.many).value else [])
  }

  /** The tool, the validation and the window, which the lock keeps to itself. */
  ghost function Served(f: Flight, c: Call, i: nat): Flight
    requires i < |f.stages|
  {
    if c.outcome.ToolRaised? then f.(stages := f.stages[i := Logging(ErrorRecord(c))])
    else
      var job := JobFrom(c);
      var b := Build(LoadState(f.state.store), job);
      if Validated(c.outcome.raw, c.many).Err? || b.error.Some? then f.(stages := f.stages[i := Over(None)])
      else Flight(f.state.(store := Persist(f.state.store, b.nodes, b.edges)),
                  f.stages[i := Logging(SuccessRecord(c, job.items, b))], f.order + [i])
  }

  /** Call `i` makes its next step. */
  ghost function Proceed(cs: seq<Call>, f: Flight, i: nat): Flight {
    if i >= |cs| || i >= |f.stages| then f
    else match f.stages[i]
      case Asking =>
        f.(stages := f.stages[i := if IsSuppressed(f.state, cs[i]) then Logging(DuplicateRecord(cs[i])) else Cleared])
      case Cleared => Served(f, cs[i], i)
      case Logging(r) =>
        f.(state := f.state.(log := Logged(f.state.log, r)), stages := f.stages[i := Over(Some(r))])
      case Over(_) => f
  }

  /** After any schedule of the calls `cs`. */
  ghost function InFlight(s: State, cs: seq<Call>, schedule: seq<nat>): (f: Flight)
    ensures |f.stages| == |cs|
  {
    if schedule == [] then Flight(s, seq(|cs|, _ => Asking), [])
    else Proceed(cs, InFlight(s, cs, schedule[..|schedule| - 1]), schedule[|schedule| - 1])
  }

  // ----- What the log says -----------------------------------------------------------------------

  /** This call of the pair has put the record of a success. */
  ghost predicate LoggedSuccess(c: Call, st: Stage, tool: string, args: string) {
    SamePair(c, tool, args) && st.Over? && st.logged.Some? && Succeeded(st.logged.value)
  }

  ghost predicate SomeLogged(cs: seq<Call>, f: Flight, tool: string, args: string)
    requires |f.stages| == |cs|
  {
    exists j :: 0 <= j < |cs| && LoggedSuccess(cs[j], f.stages[j], tool, args)
  }

  ghost predicate IsRecordOf(c: Call, r: CallRecord) {
    r.tool == c.tool && r.args == c.args && r.at == c.at
  }

  ghost predicate StageOk(c: Call, st: Stage) {
    match st
    case Logging(r) => IsRecordOf(c, r)
    case Over(logged) => logged.Some? ==> IsRecordOf(c, logged.value)
    case _ => true
  }

  /** The log holds what it held and the records of the calls that have put theirs. */
  ghost predicate LogInv(s: State, cs: seq<Call>, f: Flight) {
    && |f.stages| == |cs|
    && (forall j | 0 <= j < |cs| :: StageOk(cs[j], f.stages[j]))
    && (forall k | k in f.state.log ::
          k in s.log || exists j :: 0 <= j < |cs| && f.stages[j].Over? && k == LogKey(cs[j].at, cs[j].tool))
    && (forall tool, args :: Matched(f.state.log, tool, args) <==>
          Matched(s.log, tool, args) || SomeLogged(cs, f, tool, args))
  }

  lemma StageStaysOk(cs: seq<Call>, f: Flight, i: nat)
    requires |f.stages| == |cs| && i < |cs| && StageOk(cs[i], f.stages[i])
    ensures StageOk(cs[i], Proceed(cs, f, i).stages[i])
  {
    hide Build, LoadState, Validated, Summary, IsSuppressed;
  }

  /** A step that puts no record leaves what the log says, and which calls have put theirs. */
  lemma QuietProceed(cs: seq<Call>, f: Flight, i: nat, tool: string, args: string)
    requires |f.stages| == |cs| && i < |cs| && !f.stages[i].Logging?
    ensures Proceed(cs, f, i).state.log == f.state.log
    ensures SomeLogged(cs, Proceed(cs, f, i), tool, args) <==> SomeLogged(cs, f, tool, args)
  {
    hide Build, LoadState, Validated, Succeeded, IsSuppressed;
    var f' := Proceed(cs, f, i);
    forall j | 0 <= j < |cs|
      ensures LoggedSuccess(cs[j], f'.stages[j], tool, args) <==> LoggedSuccess(cs[j], f.stages[j], tool, args)
    {
    }
  }

  lemma RecordPut(s: State, cs: seq<Call>, f: Flight, i: nat, tool: string, args: string)
    requires LogInv(s, cs, f) && DistinctKeys(s.log, cs) && i < |cs| && f.stages[i].Logging?
    ensures Matched(Proceed(cs, f, i).state.log, tool, args) <==>
            Matched(s.log, tool, args) || SomeLogged(cs, Proceed(cs, f, i), tool, args)
  {
    hide Matched, Succeeded;
    var r, f' := f.stages[i].record, Proceed(cs, f, i);
    assert StageOk(cs[i], f.stages[i]);
    LogsOneMore(f.state.log, r, tool, args);
    forall j | 0 <= j < |cs| && j != i
      ensures LoggedSuccess(cs[j], f'.stages[j], tool, args) <==> LoggedSuccess(cs[j], f.stages[j], tool, args)
    {
    }
    assert LoggedSuccess(cs[i], f'.stages[i], tool, args) <==> r.tool == tool && r.args == args && Succeeded(r);
  }

  lemma ProceedKeepsLog(s: State, cs: seq<Call>, f: Flight, i: nat)
    requires LogInv(s, cs, f) && DistinctKeys(s.log, cs)
    ensures LogInv(s, cs, Proceed(cs, f, i))
  {
    if i < |cs| {
      var f' := Proceed(cs, f, i);
      StageStaysOk(cs, f, i);
      forall tool, args
        ensures Matched(f'.state.log, tool, args) <==> Matched(s.log, tool, args) || SomeLogged(cs, f', tool, args)
      {
        if f.stages[i].Logging? {
          RecordPut(s, cs, f, i, tool, args);
        } else {
          QuietProceed(cs, f, i, tool, args);
        }
      }
      KeysKept(s, cs, f, i);
    }
  }

  lemma KeysKept(s: State, cs: seq<Call>, f: Flight, i: nat)
    requires LogInv(s, cs, f) && i < |cs|
    ensures forall k | k in Proceed(cs, f, i).state.log ::
              k in s.log || exists j :: 0 <= j < |cs| && Proceed(cs, f, i).stages[j].Over? &&
                                        k == LogKey(cs[j].at, cs[j].tool)
    ensures forall j | 0 <= j < |cs| && j != i :: Proceed(cs, f, i).stages[j] == f.stages[j]
  {
    hide Build, LoadState, Validated, Matched, IsSuppressed;
    var f' := Proceed(cs, f, i);
    assert StageOk(cs[i], f.stages[i]);
    forall k | k in f'.state.log && k !in s.log
      ensures exists j :: 0 <= j < |cs| && f'.stages[j].Over? && k == LogKey(cs[j].at, cs[j].tool)
    {
      if k in f.state.log {
        var j :| 0 <= j < |cs| && f.stages[j].Over? && k == LogKey(cs[j].at, cs[j].tool);
        assert f'.stages[j].Over?;
      } else {
        assert f'.stages[i].Over? && k == LogKey(cs[i].at, cs[i].tool);
      }
    }
  }

  lemma {:induction false} AlwaysLogInv(s: State, cs: seq<Call>, schedule: seq<nat>)
    requires DistinctKeys(s.log, cs)
    ensures LogInv(s, cs, InFlight(s, cs, schedule))
  {
    if schedule != [] {
      AlwaysLogInv(s, cs, schedule[..|schedule| - 1]);
      ProceedKeepsLog(s, cs, InFlight(s, cs, schedule[..|schedule| - 1]), schedule[|schedule| - 1]);
    }
  }

  // ----- Suppression -----------------------------------------------------------------------------

  lemma InFlightSnoc(s: State, cs: seq<Call>, schedule: seq<nat>, i: nat)
    ensures InFlight(s, cs, schedule + [i]) == Proceed(cs, InFlight(s, cs, schedule), i)
  {
    assert (schedule + [i])[..|schedule|] == schedule;
  }

  /** However calls overlap: one is suppressed if and only if it is under SKIP or CACHE and, before it
      read the log, a success of its tool and arguments had been put there, in this run or earlier. */
  lemma SuppressedIffLogged(s: State, cs: seq<Call>, schedule: seq<nat>, i: nat)
    requires DistinctKeys(s.log, cs) && i < |cs|
    requires InFlight(s, cs, schedule).stages[i].Asking?
    ensures InFlight(s, cs, schedule + [i]).stages[i] == Logging(DuplicateRecord(cs[i]))
       <==> cs[i].policy != Always &&
            (Matched(s.log, cs[i].tool, cs[i].args) ||
             SomeLogged(cs, InFlight(s, cs, schedule), cs[i].tool, cs[i].args))
  {
    AlwaysLogInv(s, cs, schedule);
    InFlightSnoc(s, cs, schedule, i);
  }

  // ----- What overlapping calls ingest -----------------------------------------------------------

  /** The call has ingested, whether or not it has put its record yet. */
  predicate HasIngested(st: Stage) {
    match st
    case Logging(r) => Succeeded(r)
    case Over(logged) => logged.Some? && Succeeded(logged.value)
    case _ => false
  }

  function JobsFrom(cs: seq<Call>, order: seq<nat>): seq<Job>
    requires forall k | 0 <= k < |order| :: order[k] < |cs|
  {
    seq(|order|, k requires 0 <= k < |order| => JobFrom(cs[order[k]]))
  }

  ghost predicate StoreTold(s: State, cs: seq<Call>, f: Flight) {
    && |f.stages| == |cs|
    && (forall k | 0 <= k < |f.order| :: f.order[k] < |cs|)
    && (forall j, k | 0 <= j < k < |f.order| :: f.order[j] != f.order[k])
    && (forall j | 0 <= j < |cs| :: j in f.order <==> HasIngested(f.stages[j]))
    && f.state.store == SerialStore(s.store, JobsFrom(cs, f.order))
  }

  /** Only the record of a success reads as one. */
  lemma RecordsTell(c: Call)
    ensures !Succeeded(DuplicateRecord(c)) && !Succeeded(ErrorRecord(c))
    ensures forall items, b :: Succeeded(SuccessRecord(c, items, b))
  {
    hide Summary;
  }

  /** A step either ingests the call's job, or leaves the store and who has ingested. */
  lemma ProceedIngests(cs: seq<Call>, f: Flight, i: nat)
    requires |f.stages| == |cs| && i < |cs|
    ensures var f' := Proceed(cs, f, i);
            && |f'.stages| == |cs| && (forall j | 0 <= j < |cs| && j != i :: f'.stages[j] == f.stages[j])
            && if !HasIngested(f.stages[i]) && HasIngested(f'.stages[i]) then
                 f'.order == f.order + [i] && f'.state.store == Ingested(f.state.store, JobFrom(cs[i]))
               else
                 && HasIngested(f'.stages[i]) == HasIngested(f.stages[i])
                 && f'.order == f.order && f'.state.store == f.state.store
  {
    hide Build, LoadState, Validated, IsSuppressed, Persist, JobFrom, Logged, Succeeded, DuplicateRecord, ErrorRecord,
         SuccessRecord;
    RecordsTell(cs[i]);
  }

  lemma ProceedTells(s: State, cs: seq<Call>, f: Flight, i: nat)
    requires StoreTold(s, cs, f) && i < |cs|
    ensures StoreTold(s, cs, Proceed(cs, f, i))
  {
    hide Proceed, SerialStore, Ingested, HasIngested, JobFrom;
    var f' := Proceed(cs, f, i);
    ProceedIngests(cs, f, i);
    if !HasIngested(f.stages[i]) && HasIngested(f'.stages[i]) {
      assert JobsFrom(cs, f'.order) == JobsFrom(cs, f.order) + [JobFrom(cs[i])];
      SerialSnoc(s.store, JobsFrom(cs, f.order), JobFrom(cs[i]));
      assert forall j :: j in f'.order <==> j in f.order || j == i;
    }
  }

  /** However calls overlap, the nodes and edges are those of the calls that have ingested, each once,
      one after another in the order of their windows: suppressed, raising and rejected calls leave
      no trace in them. */
  lemma {:induction false} OverlappingRunIsSerial(s: State, cs: seq<Call>, schedule: seq<nat>)
    ensures StoreTold(s, cs, InFlight(s, cs, schedule))
  {
    if schedule == [] {
      assert JobsFrom(cs, []) == [];
    } else {
      var init, i := schedule[..|schedule| - 1], schedule[|schedule| - 1];
      OverlappingRunIsSerial(s, cs, init);
      if i < |cs| {
        ProceedTells(s, cs, InFlight(s, cs, init), i);
      }
    }
  }

  /** This call was suppressed, or will be when it asks. */
  predicate StaysOut(c: Call, st: Stage) {
    st == Asking || st == Logging(DuplicateRecord(c)) || st == Over(Some(DuplicateRecord(c)))
  }

  lemma StillOut(s: State, cs: seq<Call>, f: Flight, i: nat, j: nat, n: nat)
    requires LogInv(s, cs, f) && i < |cs| && j < |cs| && cs[j].policy != Always
    requires LoggedSuccess(cs[i], f.stages[i], cs[j].tool, cs[j].args) && StaysOut(cs[j], f.stages[j])
    ensures LoggedSuccess(cs[i], Proceed(cs, f, n).stages[i], cs[j].tool, cs[j].args)
    ensures StaysOut(cs[j], Proceed(cs, f, n).stages[j])
  {
    hide Build, LoadState, Validated, Matched, Persist, Succeeded, SuccessRecord, ErrorRecord, DuplicateRecord, JobFrom,
         Logged, StageOk;
    assert SomeLogged(cs, f, cs[j].tool, cs[j].args);
    assert f.stages[j].Asking? ==> IsSuppressed(f.state, cs[j]);
  }

  /** A call under SKIP or CACHE can ingest a second time what a call of its pair has ingested only if
      it read the log before that call had put its record. */
  lemma IngestsAgainOnlyIfEarly(s: State, cs: seq<Call>, schedule: seq<nat>, more: seq<nat>, i: nat, j: nat)
    requires DistinctKeys(s.log, cs) && i < |cs| && j < |cs| && cs[j].policy != Always
    requires InFlight(s, cs, schedule).stages[j].Asking?
    requires LoggedSuccess(cs[i], InFlight(s, cs, schedule).stages[i], cs[j].tool, cs[j].args)
    ensures j !in InFlight(s, cs, schedule + more).order
  {
    hide InFlight, LoggedSuccess, SerialStore, Succeeded;
    OutForGood(s, cs, schedule, more, i, j);
    OverlappingRunIsSerial(s, cs, schedule + more);
    OutHasNotIngested(cs[j], InFlight(s, cs, schedule + more).stages[j]);
  }

  lemma OutHasNotIngested(c: Call, st: Stage)
    requires StaysOut(c, st)
    ensures !HasIngested(st)
  {
  }

  lemma {:induction false} OutForGood(s: State, cs: seq<Call>, schedule: seq<nat>, more: seq<nat>, i: nat, j: nat)
    requires DistinctKeys(s.log, cs) && i < |cs| && j < |cs| && cs[j].policy != Always
    requires InFlight(s, cs, schedule).stages[j].Asking?
    requires LoggedSuccess(cs[i], InFlight(s, cs, schedule).stages[i], cs[j].tool, cs[j].args)
    ensures StaysOut(cs[j], InFlight(s, cs, schedule + more).stages[j])
    ensures LoggedSuccess(cs[i], InFlight(s, cs, schedule + more).stages[i], cs[j].tool, cs[j].args)
    decreases |more|
  {
    hide Proceed, LoggedSuccess, DistinctKeys, LogInv;
    if more == [] {
      assert schedule + more == schedule;
    } else {
      var init, n := more[..|more| - 1], more[|more| - 1];
      OutForGood(s, cs, schedule, init, i, j);
      AlwaysLogInv(s, cs, schedule + init);
      StillOut(s, cs, InFlight(s, cs, schedule + init), i, j, n);
      InFlightSnoc(s, cs, schedule + init, n);
      assert schedule + more == schedule + init + [n];
    }
  }

  // ----- One call at a time ----------------------------------------------------------------------

  /** A call left to itself does what `Next` says. */
  lemma AloneIsNext(cs: seq<Call>, f: Flight, i: nat)
    requires |f.stages| == |cs| && i < |cs| && f.stages[i].Asking?
    ensures var f' := Proceed(cs, Proceed(cs, Proceed(cs, f, i), i), i);
            && f'.state == Next(f.state, cs[i]) && |f'.stages| == |cs|
            && forall j | 0 <= j < |cs| && j != i :: f'.stages[j] == f.stages[j]
  {
    hide Build, LoadState, Validated, Matched, Persist, Summary;
  }

  function OneByOne(n: nat): seq<nat> {
    if n == 0 then [] else OneByOne(n - 1) + [n - 1, n - 1, n - 1]
  }

  /** Calls that do not overlap do what the sequential model says. */
  lemma {:induction false} OneByOneIsRun(s: State, cs: seq<Call>, n: nat)
    requires n <= |cs|
    ensures InFlight(s, cs, OneByOne(n)).state == Run(s, cs[..n])
    ensures forall j | n <= j < |cs| :: InFlight(s, cs, OneByOne(n)).stages[j].Asking?
  {
    hide Proceed, Next;
    if n > 0 {
      var f, i, before := InFlight(s, cs, OneByOne(n - 1)), n - 1, OneByOne(n - 1);
      OneByOneIsRun(s, cs, n - 1);
      AloneIsNext(cs, f, i);
      InFlightSnoc(s, cs, before, i);
      InFlightSnoc(s, cs, before + [i], i);
      InFlightSnoc(s, cs, before + [i] + [i], i);
      assert OneByOne(n) == before + [i] + [i] + [i];
      assert cs[..n][..i] == cs[..i];
    }
  }

  // ----- Two calls that overlap ------------------------------------------------------------------

  /** This call would ingest something, whatever the store. */
  ghost predicate Sound(c: Call) {
    && c.outcome.Returned? && Validated(c.outcome.raw, c.many).Ok?
    && forall x | x in JobFound(JobFrom(c).items) :: !Fails(x)
  }

  lemma AskingClears(cs: seq<Call>, f: Flight, i: nat)
    requires |f.stages| == |cs| && i < |cs| && f.stages[i].Asking? && !Matched(f.state.log, cs[i].tool, cs[i].args)
    ensures Proceed(cs, f, i) == f.(stages := f.stages[i := Cleared])
  {
  }

  lemma ClearedIngests(cs: seq<Call>, f: Flight, i: nat)
    requires |f.stages| == |cs| && i < |cs| && f.stages[i].Cleared? && Sound(cs[i])
    ensures var f' := Proceed(cs, f, i);
            && |f'.stages| == |cs| && f'.order == f.order + [i]
            && forall j | 0 <= j < |cs| && j != i :: f'.stages[j] == f.stages[j]
  {
    hide Build, LoadState, Validated, Persist, Summary;
    IngestAccounts(LoadState(f.state.store), JobFrom(cs[i]));
  }

  lemma BothProceed(cs: seq<Call>, f: Flight)
    requires |cs| == 2 && f.stages == [Asking, Asking] && f.order == [] && Sound(cs[0]) && Sound(cs[1])
    requires SamePair(cs[0], cs[1].tool, cs[1].args) && !Matched(f.state.log, cs[0].tool, cs[0].args)
    ensures Proceed(cs, Proceed(cs, Proceed(cs, Proceed(cs, f, 0), 1), 0), 1).order == [0, 1]
  {
    hide Proceed, Sound, Matched;
    AskingClears(cs, f, 0);
    AskingClears(cs, Proceed(cs, f, 0), 1);
    var asked := Proceed(cs, Proceed(cs, f, 0), 1);
    ClearedIngests(cs, asked, 0);
    ClearedIngests(cs, Proceed(cs, asked, 0), 1);
  }

  lemma FourSteps(s: State, cs: seq<Call>, a: nat, b: nat, c: nat, d: nat)
    ensures InFlight(s, cs, [a, b, c, d]) ==
            Proceed(cs, Proceed(cs, Proceed(cs, Proceed(cs, InFlight(s, cs, []), a), b), c), d)
  {
    hide Proceed, InFlight;
    InFlightSnoc(s, cs, [], a);
    InFlightSnoc(s, cs, [a], b);
    InFlightSnoc(s, cs, [a, b], c);
    InFlightSnoc(s, cs, [a, b, c], d);
    assert [] + [a] == [a] && [a] + [b] == [a, b] && [a, b] + [c] == [a, b, c] && [a, b, c] + [d] == [a, b, c, d];
  }

  /** Any two such calls of one pair that both read the log before either has put its record both
      ingest, under SKIP and CACHE too: the check for duplicates is not part of the window. */
  lemma BothIngest(s: State, c: Call, d: Call)
    requires SamePair(c, d.tool, d.args) && Sound(c) && Sound(d) && !Matched(s.log, c.tool, c.args)
    ensures var f := InFlight(s, [c, d], [0, 1, 0, 1]);
            f.order == [0, 1] && f.state.store == SerialStore(s.store, [JobFrom(c), JobFrom(d)])
  {
    hide Proceed, Sound, Matched, SerialStore;
    var cs := [c, d];
    assert InFlight(s, cs, []) == Flight(s, [Asking, Asking], []);
    BothProceed(cs, InFlight(s, cs, []));
    FourSteps(s, cs, 0, 1, 0, 1);
    hide InFlight;
    OverlappingRunIsSerial(s, cs, [0, 1, 0, 1]);
    assert JobsFrom(cs, [0, 1]) == [JobFrom(c), JobFrom(d)];
  }
}
