/** One decorated tool call: duplicate check, the tool itself, validation, the ingest, the log. */
module Calls {
  import opened Core
  import opened Scans
  import opened Ingest
  import opened Stores
  import opened KeyValue
  import opened ToolLog
  import opened Occurrences
  import opened Answers
  import opened Protocol
  import opened Serial
  import opened Conservation

  datatype Policy = Always | Skip | Cache

  /** One raw value as validation sees it, with the readings an ingest of it would take. */
  datatype RawItem = Instance(item: Item) | Parsed(item: Item) | Invalid

  /** What the tool returned: how it reads as one item, and its elements if it is a list. */
  datatype Raw = Raw(whole: RawItem, elements: Option<seq<RawItem>>)

  datatype ToolOutcome = ToolRaised | Returned(raw: Raw)

  /** A call, and what the tool would do if it were run. `at` is the time of its log record. */
  datatype Call = Call(tool: string, args: string, many: bool, policy: Policy, outcome: ToolOutcome, at: int)

  datatype CallError = NotAList | BadItem(index: nat) | ExtractionFailed(error: Error)

  datatype Result<T> = Ok(value: T) | Err(error: CallError)

  datatype Reply = Suppressed(at: int) | Raised | Rejected(error: CallError) | Answered(result: IngestResult)

  // ----- Validation ----------------------------------------------------------------------------

  function FirstInvalid(xs: seq<RawItem>): (i: nat)
    ensures i <= |xs| && (i < |xs| ==> xs[i].Invalid?) && forall j | 0 <= j < i :: !xs[j].Invalid?
  {
    if xs == [] || xs[0].Invalid? then 0 else 1 + FirstInvalid(xs[1..])
  }

  function RawItems(raw: Raw, many: bool): Option<seq<RawItem>> {
    if many then raw.elements else Some([raw.whole])
  }

  function ItemsOf(xs: seq<RawItem>): seq<Item>
    requires forall j | 0 <= j < |xs| :: !xs[j].Invalid?
  {
    seq(|xs|, j requires 0 <= j < |xs| => xs[j].item)
  }

  function Validated(raw: Raw, many: bool): Result<seq<Item>> {
    match RawItems(raw, many)
    case None => Err(NotAList)
    case Some(xs) =>
      var i := FirstInvalid(xs);
      if i < |xs| then Err(BadItem(i)) else Ok(ItemsOf(xs))
  }

  /** The `j`-th value to be validated: of the list a tool returns under `many`, else all it returned. */
  ghost predicate Validates(raw: Raw, many: bool, j: int, x: RawItem) {
    if many then raw.elements.Some? && 0 <= j < |raw.elements.value| && x == raw.elements.value[j]
    else j == 0 && x == raw.whole
  }

  /** No item is valid before the `j`-th, which is not. */
  ghost predicate IsFirstInvalid(raw: Raw, many: bool, j: nat) {
    Validates(raw, many, j, Invalid) && forall i | 0 <= i < j :: !Validates(raw, many, i, Invalid)
  }

  /** What validation has to come to. */
  ghost predicate RightlyValidated(raw: Raw, many: bool, r: Result<seq<Item>>) {
    && (r == Err(NotAList) <==> many && raw.elements.None?)
    && (forall j :: r == Err(BadItem(j)) <==> IsFirstInvalid(raw, many, j))
    && (r.Err? ==> r.error.NotAList? || r.error.BadItem?)
    && (r.Ok? ==>
          && |r.value| == (if many && raw.elements.Some? then |raw.elements.value| else 1)
          && forall j, x | Validates(raw, many, j, x) :: 0 <= j < |r.value| && !x.Invalid? && r.value[j] == x.item)
  }

  lemma ValidatedRightly(raw: Raw, many: bool)
    ensures RightlyValidated(raw, many, Validated(raw, many))
  {
    var r := Validated(raw, many);
    if RawItems(raw, many).Some? {
      var xs := RawItems(raw, many).value;
      forall j ensures 0 <= j < |xs| ==> Validates(raw, many, j, xs[j]) {
      }
      forall j, x | Validates(raw, many, j, x) ensures 0 <= j < |xs| && x == xs[j] {
      }
    }
  }

  /** Every item must be valid; the first that is not is the one reported. */
  method Validate(raw: Raw, many: bool) returns (r: Result<seq<Item>>)
    ensures RightlyValidated(raw, many, r)
    ensures r == Validated(raw, many)
  {
    hide RightlyValidated;
    ValidatedRightly(raw, many);
    var rawItems := if many then raw.elements else Some([raw.whole]);
    if rawItems.None? {
      return Err(NotAList);
    }
    var xs := rawItems.value;
    var out: seq<Item> := [];
    for i := 0 to |xs|
      invariant forall j | 0 <= j < i :: !xs[j].Invalid?
      invariant out == ItemsOf(xs[..i])
    {
      match xs[i]
      case Instance(item) => out := out + [item];
      case Parsed(item) => out := out + [item];
      case Invalid => return Err(BadItem(i));
    }
    assert xs[..|xs|] == xs;
    r := Ok(out);
  }

  // ----- One call, as a function on the session's state ----------------------------------------

  datatype State = State(store: Store, log: Log)

  ghost predicate IsSuppressed(s: State, c: Call) {
    c.policy != Always && Matched(s.log, c.tool, c.args)
  }

  function DuplicateRecord(c: Call): CallRecord {
    CallRecord(c.tool, c.args, c.at, None, if c.policy.Skip? then "duplicate (skipped)" else "duplicate (cached)")
  }

  function ErrorRecord(c: Call): CallRecord {
    CallRecord(c.tool, c.args, c.at, None, "error: tool raised")
  }

  function SuccessRecord(c: Call, items: seq<Item>, b: Built): CallRecord {
    CallRecord(c.tool, c.args, c.at, if items == [] then None else Some(items[0].event),
               Summary(|b.created|, |b.linked|, |b.edges|))
  }

  /** The job the call would ingest, when the tool runs and what it returns is valid. */
  ghost function JobOf(s: State, c: Call): Option<Job> {
    if IsSuppressed(s, c) || c.outcome.ToolRaised? then None
    else
      match Validated(c.outcome.raw, c.many)
      case Err(_) => None
      case Ok(items) => Some(Job(c.tool, items))
  }

  ghost predicate Ingests(s: State, c: Call) {
    JobOf(s, c).Some? && Build(LoadState(s.store), JobOf(s, c).value).error.None?
  }

  ghost function Next(s: State, c: Call): State {
    if IsSuppressed(s, c) then s.(log := Logged(s.log, DuplicateRecord(c)))
    else if c.outcome.ToolRaised? then s.(log := Logged(s.log, ErrorRecord(c)))
    else if !Ingests(s, c) then s
    else
      var job := JobOf(s, c).value;
      var b := Build(LoadState(s.store), job);
      State(Persist(s.store, b.nodes, b.edges), Logged(s.log, SuccessRecord(c, job.items, b)))
  }

  /** All or nothing: a call whose tool ran is ingested exactly when everything it returned is valid
      and no value in any item, at any depth, is refused or fails to normalize; otherwise the nodes,
      the edges and the log stay as they were. */
  lemma IngestsOrNothing(s: State, c: Call)
    requires !IsSuppressed(s, c) && c.outcome.Returned?
    ensures Ingests(s, c)
       <==> match Validated(c.outcome.raw, c.many)
            case Err(_) => false
            case Ok(items) => AllAcceptable(items)
    ensures !Ingests(s, c) ==> Next(s, c) == s
  {
    if JobOf(s, c).Some? {
      FailureIsFirst(s.store, JobOf(s, c).value);
    }
  }

  // ----- What the caller is told -----------------------------------------------------------------

  /** The log holds a success of the pair at this time, and none later. */
  ghost predicate IsLatestSuccess(log: Log, tool: string, args: string, at: int) {
    && (exists k :: k in log && Matches(log[k], tool, args) && log[k].at == at)
    && (forall k | k in log && Matches(log[k], tool, args) :: log[k].at <= at)
  }

  /** The reply that a call has to get: the time of the latest success if it is suppressed, the error
      of its validation, the error of the first value that ends the extraction, or the summary of
      what was ingested. */
  ghost predicate RightReply(s: State, c: Call, reply: Reply) {
    if IsSuppressed(s, c) then reply.Suppressed? && IsLatestSuccess(s.log, c.tool, c.args, reply.at)
    else if c.outcome.ToolRaised? then reply.Raised?
    else
      match Validated(c.outcome.raw, c.many)
      case Err(e) => reply == Rejected(e)
      case Ok(items) =>
        if AllAcceptable(items) then reply.Answered? && RightSummary(s.store, items, reply.result)
        else reply.Rejected? && reply.error.ExtractionFailed? && ItemsFailFirst(items, reply.error.error)
  }

  lemma FailureIsFirst(s: Store, job: Job)
    ensures Build(LoadState(s), job).error.None? <==> AllAcceptable(job.items)
    ensures Build(LoadState(s), job).error.Some? ==> ItemsFailFirst(job.items, Build(LoadState(s), job).error.value)
  {
    IngestReports(s, job, IngestResult([], 0, 0, 0, []));
    ItemsError(job.items);
  }

  lemma SuppressedEnds(s: State, c: Call, r: CallRecord)
    requires IsSuppressed(s, c) && r.Key() in s.log && s.log[r.Key()] == r && Matches(r, c.tool, c.args)
    requires forall k | k in s.log && Matches(s.log[k], c.tool, c.args) :: s.log[k].at <= r.at
    ensures Next(s, c) == s.(log := Logged(s.log, DuplicateRecord(c))) && !Ingests(s, c)
    ensures RightReply(s, c, Suppressed(r.at))
  {
  }

  lemma RaisedEnds(s: State, c: Call)
    requires !IsSuppressed(s, c) && c.outcome.ToolRaised?
    ensures Next(s, c) == s.(log := Logged(s.log, ErrorRecord(c))) && !Ingests(s, c)
    ensures RightReply(s, c, Reply.Raised)
  {
  }

  lemma InvalidEnds(s: State, c: Call, e: CallError)
    requires !IsSuppressed(s, c) && c.outcome.Returned? && Validated(c.outcome.raw, c.many) == Err(e)
    ensures Next(s, c) == s && !Ingests(s, c) && RightReply(s, c, Rejected(e))
  {
  }

  /** A window passed by valid items, and the summary that came of it. */
  lemma WindowEnds(s: State, c: Call, items: seq<Item>, r: IngestResult)
    requires !IsSuppressed(s, c) && c.outcome.Returned? && Validated(c.outcome.raw, c.many) == Ok(items)
    ensures var b := Build(LoadState(s.store), Job(c.tool, items));
            && (b.error.Some? ==> Next(s, c) == s && !Ingests(s, c)
                                  && RightReply(s, c, Rejected(ExtractionFailed(b.error.value))))
            && (b.error.None? ==>
                  && Ingests(s, c)
                  && Next(s, c) == State(Persist(s.store, b.nodes, b.edges), Logged(s.log, SuccessRecord(c, items, b)))
                  && (r.Summarises(b, items) ==> RightReply(s, c, Answered(r))))
  {
    hide Build, LoadState, Persist, RightSummary, AllAcceptable, ItemsFailFirst, IngestResult.Summarises, SuccessRecord;
    FailureIsFirst(s.store, Job(c.tool, items));
    IngestReports(s.store, Job(c.tool, items), r);
  }

  /** On a well-formed store to which the events are new, the `newNodes` of an answer is the number of
      facts that the store gained. */
  lemma AnswerCountsGain(names: Naming, s: State, c: Call, r: IngestResult)
    requires RightReply(s, c, Answered(r)) && JobOf(s, c).Some?
    requires NamedStore(names, s.store) && JobOk(names, JobOf(s, c).value) && FreshFor(s.store, JobOf(s, c).value)
    ensures |FactIds(Next(s, c).store.nodes)| == |FactIds(s.store.nodes)| + r.newNodes
  {
    var job := JobOf(s, c).value;
    ItemsError(job.items);
    OneIngestCounts(names, s.store, job);
    NewCountIsNewKeys(names, s.store, job);
    OneCallStores(s, c);
  }

  // ----- The wrapper ---------------------------------------------------------------------------

  function FirstEvent(result: IngestResult): Option<EventId> {
    if result.eventIds == [] then None else Some(result.eventIds[0])
  }

  /** The session's namespaces: the sharded graph and the log. */
  class Session {
    const kv: KvStore
    const calls: ToolCallLog

    constructor (kv: KvStore, calls: ToolCallLog)
      ensures this.kv == kv && this.calls == calls
    {
      this.kv, this.calls := kv, calls;
    }

    ghost predicate Valid()
      reads kv, calls
    {
      kv.Valid() && calls.Valid()
    }

    ghost function View(): State
      reads kv, calls
    {
      State(kv.View(), calls.calls)
    }

    /** Every search sees everything that is stored. */
    ghost predicate WithinScan()
      reads kv, calls
    {
      |kv.nodes| <= SCAN_LIMIT && |kv.edges| <= SCAN_LIMIT && |calls.calls| <= SCAN_LIMIT
    }

    /** The read-modify-write window: load, build, persist. A failure leaves the store alone. */
    method IngestWindow(job: Job) returns (result: IngestResult, err: Option<Error>, ghost loaded: Store)
      requires Valid()
      modifies kv
      ensures Valid()
      ensures Part(loaded.nodes, old(kv.nodes)) && Part(loaded.edges, old(kv.edges))
      ensures old(|kv.nodes| <= SCAN_LIMIT && |kv.edges| <= SCAN_LIMIT) ==> loaded == old(kv.View())
      ensures err.Some? ==> kv.View() == old(kv.View())
      ensures Honest(old(kv.nodes)) ==>
                var b := Build(LoadState(loaded), job);
                && err == b.error
                && (err.None? ==> kv.View() == Persist(old(kv.View()), b.nodes, b.edges))
                && (err.None? ==> result.Summarises(b, job.items))
    {
      var graph;
      graph, loaded := kv.LoadGraph();
      var payload;
      payload, result, err := BuildPayload(graph, job);
      if err.None? {
        kv.PersistDelta(payload.nodes, payload.edges);
      }
    }

    /** The synchronous wrapper. Whatever raises before the window's writes leaves every namespace
        as it was, and the tool itself raising only adds its log record. */
    method SyncCall(c: Call) returns (reply: Reply)
      requires Valid()
      modifies kv, calls
      ensures Valid()
      ensures reply.Rejected? ==> View() == old(View())
      ensures reply.Suppressed? || reply.Raised? ==> kv.View() == old(kv.View())
      ensures old(WithinScan() && Honest(kv.nodes)) ==>
                && View() == Next(old(View()), c) && RightReply(old(View()), c, reply)
                && (reply.Suppressed? <==> IsSuppressed(old(View()), c))
                && (reply.Answered? <==> Ingests(old(View()), c))
      ensures c.policy.Always? ==> !reply.Suppressed?
      ensures reply.Suppressed? ==>
                calls.calls == old(calls.calls)[LogKey(c.at, c.tool) := CallRecord(c.tool, c.args, c.at, None,
                    if c.policy.Skip? then "duplicate (skipped)" else "duplicate (cached)")]
      ensures reply.Raised? ==>
                calls.calls == old(calls.calls)[LogKey(c.at, c.tool) := CallRecord(c.tool, c.args, c.at, None,
                    "error: tool raised")]
      ensures reply.Answered? ==>
                var r := reply.result;
                calls.calls == old(calls.calls)[LogKey(c.at, c.tool) := CallRecord(c.tool, c.args, c.at,
                    if r.eventIds == [] then None else Some(r.eventIds[0]),
                    Summary(r.newNodes, r.linkedNodes, r.newEdges))]
    {
      hide Matched, Build, LoadState, Persist, Honest, Summary, RightlyValidated, Next, RightReply, Ingests, Validated;
      ghost var s := View();
      if c.policy != Always {
        var last := calls.FindDuplicate(c.tool, c.args);
        if last.Some? {
          if |calls.calls| <= SCAN_LIMIT {
            SuppressedEnds(s, c, last.value);
          }
          calls.PersistToolCall(DuplicateRecord(c));
          return Suppressed(last.value.at);
        }
      }
      match c.outcome
      case ToolRaised =>
        if WithinScan() {
          RaisedEnds(s, c);
        }
        calls.PersistToolCall(ErrorRecord(c));
        reply := Reply.Raised;
      case Returned(raw) =>
        var items := Validate(raw, c.many);
        if items.Err? {
          if WithinScan() {
            InvalidEnds(s, c, items.error);
          }
          return Rejected(items.error);
        }
        var result, err;
        ghost var loaded;
        ghost var within := WithinScan();
        result, err, loaded := IngestWindow(Job(c.tool, items.value));
        if within {
          WindowEnds(s, c, items.value, result);
        }
        if err.Some? {
          return Rejected(ExtractionFailed(err.value));
        }
        calls.PersistToolCall(CallRecord(c.tool, c.args, c.at, FirstEvent(result),
                                         Summary(result.newNodes, result.linkedNodes, result.newEdges)));
        reply := Answered(result);
    }
  }

  // ----- Whole runs ----------------------------------------------------------------------------

  ghost function Run(s: State, cs: seq<Call>): State {
    if cs == [] then s else Next(Run(s, cs[..|cs| - 1]), cs[|cs| - 1])
  }

  /** The state the i-th call finds. */
  ghost function Before(s: State, cs: seq<Call>, i: nat): State
    requires i <= |cs|
  {
    Run(s, cs[..i])
  }

  ghost predicate SamePair(c: Call, tool: string, args: string) {
    c.tool == tool && c.args == args
  }

  /** Log keys are used once: no two calls of a tool are logged at the same instant. */
  ghost predicate DistinctKeys(log: Log, cs: seq<Call>) {
    && (forall i, j | 0 <= i < j < |cs| :: LogKey(cs[i].at, cs[i].tool) != LogKey(cs[j].at, cs[j].tool))
    && (forall i | 0 <= i < |cs| :: LogKey(cs[i].at, cs[i].tool) !in log)
  }

  ghost predicate IngestedEarlier(s: State, cs: seq<Call>, i: nat, tool: string, args: string)
    requires i <= |cs|
  {
    exists j | 0 <= j < i :: SamePair(cs[j], tool, args) && Ingests(Before(s, cs, j), cs[j])
  }

  lemma StepOfRun(s: State, cs: seq<Call>, i: nat)
    requires i < |cs|
    ensures Before(s, cs, i + 1) == Next(Before(s, cs, i), cs[i])
  {
    assert cs[..i + 1][..i] == cs[..i];
  }

  lemma {:induction false} KeysOfRun(s: State, cs: seq<Call>, i: nat)
    requires i <= |cs|
    ensures forall k | k in Before(s, cs, i).log ::
            k in s.log || exists j :: 0 <= j < i && k == LogKey(cs[j].at, cs[j].tool)
  {
    if i > 0 {
      StepOfRun(s, cs, i - 1);
      KeysOfRun(s, cs, i - 1);
    }
  }

  lemma FreshKey(s: State, cs: seq<Call>, i: nat)
    requires i < |cs| && DistinctKeys(s.log, cs)
    ensures LogKey(cs[i].at, cs[i].tool) !in Before(s, cs, i).log
  {
    KeysOfRun(s, cs, i);
  }

  /** What one call does to the log, when its key is new. */
  lemma CallLogs(s: State, c: Call, tool: string, args: string)
    requires LogKey(c.at, c.tool) !in s.log
    ensures Matched(Next(s, c).log, tool, args) <==>
            Matched(s.log, tool, args) || (SamePair(c, tool, args) && Ingests(s, c))
  {
    hide Matched, Matches, Build, LoadState, Persist, Validated;
    if IsSuppressed(s, c) {
      LogsOneMore(s.log, DuplicateRecord(c), tool, args);
    } else if c.outcome.ToolRaised? {
      LogsOneMore(s.log, ErrorRecord(c), tool, args);
    } else if Ingests(s, c) {
      var items := JobOf(s, c).value.items;
      LogsOneMore(s.log, SuccessRecord(c, items, Build(LoadState(s.store), JobOf(s, c).value)), tool, args);
    }
  }

  lemma LogsOneMore(log: Log, r: CallRecord, tool: string, args: string)
    requires r.Key() !in log
    ensures Matched(Logged(log, r), tool, args) <==>
            Matched(log, tool, args) || (r.tool == tool && r.args == args && Succeeded(r))
  {
    var more := Logged(log, r);
    assert forall k | k in log :: k in more && more[k] == log[k];
    assert r.Key() in more && more[r.Key()] == r;
  }

  lemma NothingRun(s: State, cs: seq<Call>)
    ensures Before(s, cs, 0) == s
  {
  }

  lemma {:induction false} MatchedInRun(s: State, cs: seq<Call>, i: nat, tool: string, args: string)
    requires i <= |cs| && DistinctKeys(s.log, cs)
    ensures Matched(Before(s, cs, i).log, tool, args) <==>
            Matched(s.log, tool, args) || IngestedEarlier(s, cs, i, tool, args)
  {
    hide Run, Next, Ingests, Matched, IsSuppressed;
    if i == 0 {
      NothingRun(s, cs);
    } else {
      MatchedInRun(s, cs, i - 1, tool, args);
      StepOfRun(s, cs, i - 1);
      FreshKey(s, cs, i - 1);
      CallLogs(Before(s, cs, i - 1), cs[i - 1], tool, args);
    }
  }

  /** In any run, a call is suppressed exactly when it is under SKIP or CACHE and an earlier call of the
      same tool and arguments ingested, in this run or before it: duplicate and error records never
      suppress anything. A suppressed call adds one log record and leaves nodes and edges alone. */
  lemma SuppressionIsExact(s: State, cs: seq<Call>, i: nat)
    requires i < |cs| && DistinctKeys(s.log, cs)
    ensures IsSuppressed(Before(s, cs, i), cs[i])
       <==> cs[i].policy != Always &&
            (Matched(s.log, cs[i].tool, cs[i].args) || IngestedEarlier(s, cs, i, cs[i].tool, cs[i].args))
    ensures IsSuppressed(Before(s, cs, i), cs[i]) ==>
              && !Ingests(Before(s, cs, i), cs[i])
              && Before(s, cs, i + 1).store == Before(s, cs, i).store
              && |Before(s, cs, i + 1).log| == |Before(s, cs, i).log| + 1
  {
    MatchedInRun(s, cs, i, cs[i].tool, cs[i].args);
    StepOfRun(s, cs, i);
    FreshKey(s, cs, i);
    var log, r := Before(s, cs, i).log, DuplicateRecord(cs[i]);
    assert |Logged(log, r)| == |log| + 1;
  }

  /** Once a pair has ingested, every later call of it under SKIP or CACHE is suppressed. */
  lemma IngestsAtMostOnce(s: State, cs: seq<Call>, i: nat, j: nat)
    requires i < j < |cs| && DistinctKeys(s.log, cs)
    requires SamePair(cs[i], cs[j].tool, cs[j].args) && cs[j].policy != Always && Ingests(Before(s, cs, i), cs[i])
    ensures IsSuppressed(Before(s, cs, j), cs[j]) && !Ingests(Before(s, cs, j), cs[j])
  {
    SuppressionIsExact(s, cs, j);
  }

  /** The jobs of the calls whose tool ran and returned something valid. */
  ghost function Executed(s: State, cs: seq<Call>): seq<Job> {
    if cs == [] then []
    else
      var init, c := cs[..|cs| - 1], cs[|cs| - 1];
      var job := JobOf(Run(s, init), c);
      Executed(s, init) + if job.Some? then [job.value] else []
  }

  lemma OneCallStores(s: State, c: Call)
    ensures Next(s, c).store == match JobOf(s, c) case None => s.store case Some(job) => Ingested(s.store, job)
  {
  }

  /** The nodes and edges after a run are those of the executed jobs ingested one after another:
      suppressed, raising and rejected calls leave no trace in them. */
  lemma {:induction false} RunIsSerial(s: State, cs: seq<Call>)
    ensures Run(s, cs).store == SerialStore(s.store, Executed(s, cs))
  {
    if cs != [] {
      var init, c := cs[..|cs| - 1], cs[|cs| - 1];
      RunIsSerial(s, init);
      var mid, jobs := Run(s, init), Executed(s, init);
      OneCallStores(mid, c);
      match JobOf(mid, c)
      case None => assert Executed(s, cs) == jobs;
      case Some(job) =>
        assert Executed(s, cs) == jobs + [job];
        SerialSnoc(s.store, jobs, job);
    }
  }
}
