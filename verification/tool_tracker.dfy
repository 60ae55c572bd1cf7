/** The shared tool-call tracker (backend/models/sharedToolCalls.js): a
    bounded buffer of the most recent tool calls with monotonic ids, polled by
    id and pruned by age.  The clock (`Date.now()`) is a parameter, the call
    arguments are their opaque JSON text, and the log line is left out. */
module ToolCallTracker {
  import opened Js
  import opened Seqs

  /** Only the newest this many calls are kept. */
  const Capacity := 50

  /** `clearOldToolCalls` default age limit, in milliseconds. */
  const DefaultMaxAge := 60000

  datatype ToolCall = ToolCall(id: nat, toolName: string, args: string, userReturn: JsValue, timestamp: int)

  datatype Tracker = Tracker(toolCalls: seq<ToolCall>, lastId: nat)

  /** Buffered ids increase strictly along the buffer. */
  predicate Ascending(calls: seq<ToolCall>) {
    forall i, j :: 0 <= i < j < |calls| ==> calls[i].id < calls[j].id
  }

  /** What every reachable tracker satisfies: at most `Capacity` calls, in
      ascending id order, every id issued (between 1 and `lastId`). */
  predicate Valid(t: Tracker) {
    && |t.toolCalls| <= Capacity
    && Ascending(t.toolCalls)
    && forall i :: 0 <= i < |t.toolCalls| ==> 1 <= t.toolCalls[i].id <= t.lastId
  }

  /** `new ToolCallTracker()` */
  function NewTracker(): (t: Tracker)
    ensures Valid(t) && t.toolCalls == [] && t.lastId == 0
  {
    Tracker([], 0)
  }

  /** `addToolCall(toolName, args, userReturn)` at time `now`: the new tracker and the id returned. */
  function AddToolCall(t: Tracker, toolName: string, args: string, userReturn: JsValue, now: int): (r: (Tracker, nat))
    ensures r.1 == t.lastId + 1 && r.0.lastId == r.1
    ensures var calls := r.0.toolCalls;
            && |calls| == (if |t.toolCalls| < Capacity then |t.toolCalls| + 1 else Capacity)
            && calls[|calls| - 1] == ToolCall(r.1, toolName, args, userReturn, now)
            && forall i :: 0 <= i < |calls| - 1 ==> calls[i] == t.toolCalls[|t.toolCalls| - (|calls| - 1) + i]
    ensures |t.toolCalls| <= Capacity ==> |r.0.toolCalls| <= Capacity
  {
    var id := t.lastId + 1;
    var calls := t.toolCalls + [ToolCall(id, toolName, args, userReturn, now)];
    var kept := if |calls| > Capacity then calls[|calls| - Capacity..] else calls;
    (Tracker(kept, id), id)
  }

  function After(k: int): ToolCall -> bool {
    (c: ToolCall) => c.id > k
  }

  /** `getNewToolCalls(lastId = 0)`: the buffered calls with a larger id, in buffer order. */
  function GetNewToolCalls(t: Tracker, lastId: Option<int>): (r: seq<ToolCall>)
    ensures var k := if lastId.Some? then lastId.value else 0;
            forall c :: c in r <==> c in t.toolCalls && c.id > k
    ensures IsSubsequence(r, t.toolCalls)
  {
    var k := if lastId.Some? then lastId.value else 0;
    FilterIsSubsequence(t.toolCalls, After(k));
    Filter(t.toolCalls, After(k))
  }

  function YoungerThan(cutoff: int): ToolCall -> bool {
    (c: ToolCall) => c.timestamp > cutoff
  }

  /** `clearOldToolCalls(olderThan = 60000)` at time `now`: keeps the calls stamped after `now - olderThan`. */
  function ClearOldToolCalls(t: Tracker, olderThan: Option<int>, now: int): (r: Tracker)
    ensures r.lastId == t.lastId
    ensures var age := if olderThan.Some? then olderThan.value else DefaultMaxAge;
            forall c :: c in r.toolCalls <==> c in t.toolCalls && c.timestamp > now - age
    ensures IsSubsequence(r.toolCalls, t.toolCalls)
  {
    var age := if olderThan.Some? then olderThan.value else DefaultMaxAge;
    FilterIsSubsequence(t.toolCalls, YoungerThan(now - age));
    Tracker(Filter(t.toolCalls, YoungerThan(now - age)), t.lastId)
  }

  /** Adding keeps the tracker valid. */
  lemma AddKeepsValid(t: Tracker, toolName: string, args: string, userReturn: JsValue, now: int)
    requires Valid(t)
    ensures Valid(AddToolCall(t, toolName, args, userReturn, now).0)
  {
    var t' := AddToolCall(t, toolName, args, userReturn, now).0;
    var calls := t'.toolCalls;
    var d := |t.toolCalls| - (|calls| - 1);
    forall i, j | 0 <= i < j < |calls|
      ensures calls[i].id < calls[j].id
    {
      assert calls[i] == t.toolCalls[d + i];
      if j < |calls| - 1 {
        assert calls[j] == t.toolCalls[d + j];
      }
    }
    forall i | 0 <= i < |calls|
      ensures 1 <= calls[i].id <= t'.lastId
    {
      if i < |calls| - 1 {
        assert calls[i] == t.toolCalls[d + i];
      }
    }
  }

  /** The id handed out is not held by any call already buffered. */
  lemma AddIssuesFreshId(t: Tracker, toolName: string, args: string, userReturn: JsValue, now: int)
    requires Valid(t)
    ensures forall c :: c in t.toolCalls ==> c.id != AddToolCall(t, toolName, args, userReturn, now).1
  {
  }

  /** Polling with the default id 0 returns the whole buffer. */
  lemma PollFromZero(t: Tracker)
    requires Valid(t)
    ensures GetNewToolCalls(t, None) == t.toolCalls
  {
    FilterKeepsAll(t.toolCalls, After(0));
  }

  /** Polling from the last id handed out (or later) returns nothing. */
  lemma PollFromLastId(t: Tracker, k: int)
    requires Valid(t) && k >= t.lastId
    ensures GetNewToolCalls(t, Some(k)) == []
  {
    FilterDropsAll(t.toolCalls, After(k));
  }

  /** Polling from the id current before an add returns exactly the call just added. */
  lemma PollAfterAdd(t: Tracker, toolName: string, args: string, userReturn: JsValue, now: int)
    requires Valid(t)
    ensures var (t', id) := AddToolCall(t, toolName, args, userReturn, now);
            GetNewToolCalls(t', Some(t.lastId)) == [ToolCall(id, toolName, args, userReturn, now)]
  {
    var (t', id) := AddToolCall(t, toolName, args, userReturn, now);
    var c := ToolCall(id, toolName, args, userReturn, now);
    var calls := t'.toolCalls;
    var older := calls[..|calls| - 1];
    assert calls == older + [c];
    var d := |t.toolCalls| - (|calls| - 1);
    forall i | 0 <= i < |older|
      ensures !After(t.lastId)(older[i])
    {
      assert older[i] == t.toolCalls[d + i];
    }
    FilterDropsAll(older, After(t.lastId));
    FilterAppend(older, [c], After(t.lastId));
  }

  /** Under ascending ids the new calls are a suffix of the buffer. */
  lemma {:induction false} AscendingFilterIsSuffix(calls: seq<ToolCall>, k: int)
    requires Ascending(calls)
    ensures var r := Filter(calls, After(k));
            r == calls[|calls| - |r|..]
  {
    if |calls| > 0 {
      if calls[0].id > k {
        FilterKeepsAll(calls, After(k));
      } else {
        AscendingFilterIsSuffix(calls[1..], k);
      }
    }
  }

  /** A poll returns a suffix of the buffer: everything from the first call newer than the id. */
  lemma PollIsSuffix(t: Tracker, lastId: Option<int>)
    requires Valid(t)
    ensures var r := GetNewToolCalls(t, lastId);
            r == t.toolCalls[|t.toolCalls| - |r|..]
  {
    AscendingFilterIsSuffix(t.toolCalls, if lastId.Some? then lastId.value else 0);
  }

  lemma {:induction false} FilterAscending(calls: seq<ToolCall>, keep: ToolCall -> bool)
    requires Ascending(calls)
    ensures Ascending(Filter(calls, keep))
  {
    if |calls| > 0 {
      FilterAscending(calls[1..], keep);
      var rest := Filter(calls[1..], keep);
      if keep(calls[0]) {
        forall j | 0 <= j < |rest|
          ensures calls[0].id < rest[j].id
        {
          assert rest[j] in calls[1..];
        }
      }
    }
  }

  /** Pruning keeps the tracker valid and never touches `lastId`, so ids are never reused. */
  lemma ClearKeepsValid(t: Tracker, olderThan: Option<int>, now: int)
    requires Valid(t)
    ensures Valid(ClearOldToolCalls(t, olderThan, now))
  {
    var age := if olderThan.Some? then olderThan.value else DefaultMaxAge;
    var kept := Filter(t.toolCalls, YoungerThan(now - age));
    FilterAscending(t.toolCalls, YoungerThan(now - age));
    IssuedIdsKept(t.toolCalls, kept, t.lastId);
  }

  /** Calls drawn from a buffer of issued ids carry issued ids. */
  lemma IssuedIdsKept(calls: seq<ToolCall>, kept: seq<ToolCall>, lastId: nat)
    requires forall i :: 0 <= i < |calls| ==> 1 <= calls[i].id <= lastId
    requires forall c :: c in kept ==> c in calls
    ensures forall i :: 0 <= i < |kept| ==> 1 <= kept[i].id <= lastId
  {
    forall i | 0 <= i < |kept|
      ensures 1 <= kept[i].id <= lastId
    {
      assert kept[i] in calls;
    }
  }
}
