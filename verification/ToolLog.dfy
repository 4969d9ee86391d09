/** The audit log of tool calls, and the search for an earlier successful one. */
module ToolLog {
  import opened Core
  import opened KeyValue

  datatype LogKey = LogKey(at: int, tool: string)

  datatype CallRecord = CallRecord(tool: string, args: string, at: int, event: Option<EventId>, summary: string) {
    function Key(): LogKey {
      LogKey(at, tool)
    }
  }

  type Log = map<LogKey, CallRecord>

  function Logged(log: Log, r: CallRecord): Log {
    log[r.Key() := r]
  }

  /** Records of suppressed or failed calls are recognised by how their summary starts. */
  predicate Succeeded(r: CallRecord) {
    !("duplicate" <= r.summary) && !("error" <= r.summary)
  }

  predicate Matches(r: CallRecord, tool: string, args: string) {
    r.tool == tool && r.args == args && Succeeded(r)
  }

  ghost predicate Matched(log: Log, tool: string, args: string) {
    exists k :: k in log && Matches(log[k], tool, args)
  }

  ghost predicate KeyedLog(log: Log) {
    forall k | k in log :: log[k].Key() == k
  }

  // ----- The text of a successful summary ------------------------------------------------------

  function Decimal(n: nat): string {
    (if n < 10 then "" else Decimal(n / 10)) + [(n % 10) as char + '0']
  }

  /** What a decimal text stands for. */
  function Numeral(s: string): int {
    if s == "" then 0 else 10 * Numeral(s[..|s| - 1]) + (s[|s| - 1] as int - '0' as int)
  }

  lemma {:induction false} DecimalReads(n: nat)
    ensures Numeral(Decimal(n)) == n && Decimal(n) != ""
    ensures forall c | c in Decimal(n) :: '0' <= c <= '9'
  {
    if n >= 10 {
      DecimalReads(n / 10);
    }
    var s := Decimal(n);
    assert s[..|s| - 1] == if n < 10 then "" else Decimal(n / 10);
    assert s[|s| - 1] as int - '0' as int == n % 10;
  }

  function CountOf(n: nat, word: string): (s: string)
    ensures s != "" && s[0] == '+'
  {
    "+" + Decimal(n) + " " + word
  }

  /** Somewhere in the text this number stands before this word. */
  ghost predicate Says(s: string, n: nat, word: string) {
    exists before, after :: s == before + ("+" + Decimal(n) + " " + word) + after
  }

  /** It says each count with its word, and never reads as a duplicate or an error. */
  function Summary(newNodes: nat, linkedNodes: nat, newEdges: nat): (s: string)
    ensures !("duplicate" <= s) && !("error" <= s)
    ensures Says(s, newNodes, "nodes") && Says(s, linkedNodes, "linked") && Says(s, newEdges, "edges")
  {
    var s := CountOf(newNodes, "nodes") + ", " + CountOf(linkedNodes, "linked") + ", " + CountOf(newEdges, "edges");
    assert s[0] == '+';
    SummarySays(newNodes, linkedNodes, newEdges);
    s
  }

  lemma SummarySays(newNodes: nat, linkedNodes: nat, newEdges: nat)
    ensures var s := CountOf(newNodes, "nodes") + ", " + CountOf(linkedNodes, "linked") + ", " +
                CountOf(newEdges, "edges");
            Says(s, newNodes, "nodes") && Says(s, linkedNodes, "linked") && Says(s, newEdges, "edges")
  {
    hide CountOf, Says;
    var n, l, e := CountOf(newNodes, "nodes"), CountOf(linkedNodes, "linked"), CountOf(newEdges, "edges");
    SaysCount("", newNodes, "nodes", ", " + l + ", " + e);
    SaysCount(n + ", ", linkedNodes, "linked", ", " + e);
    SaysCount(n + ", " + l + ", ", newEdges, "edges", "");
    Regrouped(n, l, e);
  }

  lemma Regrouped(n: string, l: string, e: string)
    ensures n + ", " + l + ", " + e == "" + n + (", " + l + ", " + e)
    ensures n + ", " + l + ", " + e == (n + ", ") + l + (", " + e)
    ensures n + ", " + l + ", " + e == (n + ", " + l + ", ") + e + ""
  {
  }

  lemma SaysCount(before: string, n: nat, word: string, after: string)
    ensures Says(before + CountOf(n, word) + after, n, word)
  {
  }

  // ----- Order of time -------------------------------------------------------------------------

  predicate ByTime(rs: seq<CallRecord>) {
    forall i, j | 0 <= i < j < |rs| :: rs[i].at <= rs[j].at
  }

  /** A stable insertion: after every record of the same time. */
  function InsertByTime(rs: seq<CallRecord>, r: CallRecord): seq<CallRecord> {
    if rs == [] || rs[|rs| - 1].at <= r.at then rs + [r]
    else InsertByTime(rs[..|rs| - 1], r) + [rs[|rs| - 1]]
  }

  function SortByTime(rs: seq<CallRecord>): seq<CallRecord> {
    if rs == [] then [] else InsertByTime(SortByTime(rs[..|rs| - 1]), rs[|rs| - 1])
  }

  lemma {:induction false} InsertKeepsAll(rs: seq<CallRecord>, r: CallRecord)
    ensures multiset(InsertByTime(rs, r)) == multiset(rs) + multiset{r}
  {
    if rs != [] && rs[|rs| - 1].at > r.at {
      InsertKeepsAll(rs[..|rs| - 1], r);
      assert rs == rs[..|rs| - 1] + [rs[|rs| - 1]];
    }
  }

  lemma {:induction false} InsertSorts(rs: seq<CallRecord>, r: CallRecord)
    requires ByTime(rs)
    ensures ByTime(InsertByTime(rs, r))
  {
    if rs != [] && rs[|rs| - 1].at > r.at {
      var init, last := rs[..|rs| - 1], rs[|rs| - 1];
      InsertSorts(init, r);
      InsertKeepsAll(init, r);
      var q := InsertByTime(init, r);
      forall i | 0 <= i < |q| ensures q[i].at <= last.at {
        assert q[i] in multiset(q);
        assert q[i] in init || q[i] == r;
      }
    }
  }

  lemma {:induction false} SortSorts(rs: seq<CallRecord>)
    ensures ByTime(SortByTime(rs)) && multiset(SortByTime(rs)) == multiset(rs)
  {
    if rs != [] {
      var init, last := rs[..|rs| - 1], rs[|rs| - 1];
      assert rs == init + [last];
      SortSorts(init);
      InsertSorts(SortByTime(init), last);
      InsertKeepsAll(SortByTime(init), last);
    }
  }

  // ----- The search ----------------------------------------------------------------------------

  ghost predicate IsLast(records: seq<CallRecord>, r: CallRecord, tool: string, args: string) {
    exists i :: 0 <= i < |records| && records[i] == r && NoneAfter(records, i, tool, args)
  }

  predicate NoneAfter(records: seq<CallRecord>, i: nat, tool: string, args: string) {
    forall j | i < j < |records| :: !Matches(records[j], tool, args)
  }

  /** The last successful record of the same tool and arguments, if any. */
  method LastMatching(records: seq<CallRecord>, tool: string, args: string) returns (r: Option<CallRecord>)
    ensures r.None? ==> forall x | x in records :: !Matches(x, tool, args)
    ensures r.Some? ==> Matches(r.value, tool, args) && IsLast(records, r.value, tool, args)
  {
    for i := |records| downto 0
      invariant forall j | i <= j < |records| :: !Matches(records[j], tool, args)
    {
      if Matches(records[i], tool, args) {
        return Some(records[i]);
      }
    }
    r := None;
  }

  /** The tool-call namespace of one session. */
  class ToolCallLog {
    var calls: Log

    constructor ()
      ensures Valid() && calls == map[]
    {
      calls := map[];
    }

    ghost predicate Valid()
      reads this
    {
      KeyedLog(calls)
    }

    method PersistToolCall(r: CallRecord)
      requires Valid()
      modifies this
      ensures Valid() && calls == Logged(old(calls), r)
    {
      calls := calls[r.Key() := r];
    }

    /** Up to the scan limit of the records, in order of time. */
    method LoadToolCalls() returns (records: seq<CallRecord>)
      requires Valid()
      ensures ByTime(records) && forall r | r in records :: r.Key() in calls && calls[r.Key()] == r
      ensures |calls| <= SCAN_LIMIT ==> forall k | k in calls :: calls[k] in records
    {
      records := [];
      var left := calls.Keys;
      while left != {} && |records| < SCAN_LIMIT
        invariant left <= calls.Keys && |records| + |left| == |calls.Keys|
        invariant forall r | r in records :: r.Key() in calls && calls[r.Key()] == r
        invariant forall k | k in calls.Keys - left :: calls[k] in records
        decreases left
      {
        var k :| k in left;
        left := left - {k};
        records := records + [calls[k]];
      }
      assert |calls| == |calls.Keys|;
      assert left != {} ==> |left| > 0;
      SortSorts(records);
      ghost var found := multiset(records);
      records := SortByTime(records);
      assert forall r :: r in records <==> r in found;
    }

    /** Within the scan limit a duplicate is found exactly when the log holds a successful call of
        the same tool and arguments, and the one reported is the latest of them. */
    method FindDuplicate(tool: string, args: string) returns (r: Option<CallRecord>)
      requires Valid()
      ensures r.Some? ==> r.value.Key() in calls && calls[r.value.Key()] == r.value && Matches(r.value, tool, args)
      ensures |calls| <= SCAN_LIMIT ==>
                && (r.Some? <==> Matched(calls, tool, args))
                && (r.Some? ==> forall k | k in calls && Matches(calls[k], tool, args) :: calls[k].at <= r.value.at)
    {
      var records := LoadToolCalls();
      r := LastMatching(records, tool, args);
      if r.Some? {
        assert calls[r.value.Key()] == r.value;
        ghost var i :| 0 <= i < |records| && records[i] == r.value && NoneAfter(records, i, tool, args);
        forall k | k in calls && Matches(calls[k], tool, args) && calls[k] in records
          ensures calls[k].at <= r.value.at
        {
          var j :| 0 <= j < |records| && records[j] == calls[k];
          assert j <= i;
        }
      }
    }
  }
}
