/** The activity log: the newest entries, appending an entry, and clearing the log. */
module ActionLogs {
  import opened Wrappers
  import opened Schema
  import opened Seqs
  import opened Store

  /** `limit || 20`: an absent or zero limit means twenty entries. */
  function EffectiveLimit(limit: Option<nat>): (r: nat)
    ensures r > 0
    ensures limit.Some? && limit.value > 0 ==> r == limit.value
    ensures limit.None? || limit.value == 0 ==> r == 20
  {
    match limit
    case Some(n) => if n != 0 then n else 20
    case None => 20
  }

  function NewestFirstKey(e: LogEntry): int { -e.timestamp }

  /**
    A descending scan of the `by_timestamp` index: latest timestamp first and,
    among equal timestamps, the entry created last first.
   */
  function NewestFirst(logs: seq<LogEntry>): (r: seq<LogEntry>)
    ensures |r| == |logs|
    ensures multiset(r) == multiset(logs)
    ensures forall i, j :: 0 <= i < j < |r| ==> r[i].timestamp >= r[j].timestamp
  {
    var result := SortBy(Reverse(logs), NewestFirstKey);
    ReverseMultiset(logs);
    assert forall i, j :: 0 <= i < j < |result| ==> NewestFirstKey(result[i]) <= NewestFirstKey(result[j]);
    result
  }

  /** `actionLogs.list`: the first `limit || 20` entries of the newest-first scan. */
  function List(logs: seq<LogEntry>, limit: Option<nat>): (r: seq<LogEntry>)
    ensures |r| == if EffectiveLimit(limit) < |logs| then EffectiveLimit(limit) else |logs|
    ensures forall i, j :: 0 <= i < j < |r| ==> r[i].timestamp >= r[j].timestamp
  {
    Take(NewestFirst(logs), EffectiveLimit(limit))
  }

  /**
    The list is drawn from the log, and no entry left out of it is newer than
    any entry in it.
   */
  lemma ListKeepsNewest(logs: seq<LogEntry>, limit: Option<nat>)
    ensures multiset(List(logs, limit)) <= multiset(logs)
    ensures forall e, x :: e in multiset(logs) - multiset(List(logs, limit)) && x in List(logs, limit) ==> x.timestamp >= e.timestamp
  {
    var s := NewestFirst(logs);
    var r := List(logs, limit);
    assert r == s[..|r|];
    PrefixDominates(s, |r|, Timestamp);
  }

  function Timestamp(e: LogEntry): int { e.timestamp }

  function HasTimestamp(ts: int): LogEntry -> bool {
    (e: LogEntry) => e.timestamp == ts
  }

  lemma {:induction false} FilterReverse<T>(s: seq<T>, p: T -> bool)
    ensures Filter(Reverse(s), p) == Reverse(Filter(s, p))
  {
    if s != [] {
      FilterReverse(s[1..], p);
      FilterAppend(Reverse(s[1..]), [s[0]], p);
      FilterCons(s[0], [], p);
      assert [s[0]] + [] == [s[0]];
      if p(s[0]) {
        assert Filter(s, p) == [s[0]] + Filter(s[1..], p);
        assert Reverse(Filter(s, p))[..|Filter(s[1..], p)|] == Reverse(Filter(s[1..], p));
        assert Reverse(Filter(s, p)) == Reverse(Filter(s[1..], p)) + [s[0]];
      } else {
        assert Filter(s, p) == Filter(s[1..], p);
      }
    }
  }

  /** Entries with the same timestamp come out newest-created first. */
  lemma NewestFirstTies(logs: seq<LogEntry>, ts: int)
    ensures Filter(NewestFirst(logs), HasTimestamp(ts)) == Reverse(Filter(logs, HasTimestamp(ts)))
  {
    SortByStable(Reverse(logs), NewestFirstKey, HasTimestamp(ts), -ts);
    FilterReverse(logs, HasTimestamp(ts));
  }

  /** `actionLogs.log`: appends an entry stamped with the current time. */
  method Log(db: Store, projectId: Option<Id>, taskId: Option<Id>, action: string, description: string, now: int)
    returns (id: Id)
    requires db.Valid()
    modifies db
    ensures db.Valid()
    ensures id == old(db.nextId) && db.nextId == id + 1
    ensures db.logs == old(db.logs) + [LogEntry(id, projectId, taskId, action, description, now)]
    ensures db.projects == old(db.projects) && db.tasks == old(db.tasks) && db.subtasks == old(db.subtasks)
  {
    id := db.InsertLog(LogEntry(0, projectId, taskId, action, description, now));
  }

  /** `actionLogs.clear`: deletes every entry, one at a time, in collection order. */
  method Clear(db: Store)
    requires db.Valid()
    modifies db
    ensures db.Valid()
    ensures db.logs == []
    ensures db.projects == old(db.projects) && db.tasks == old(db.tasks) && db.subtasks == old(db.subtasks)
    ensures db.nextId == old(db.nextId)
  {
    var snapshot := db.logs;
    var k := 0;
    while k < |snapshot|
      invariant 0 <= k <= |snapshot|
      invariant db.Valid()
      invariant db.logs == snapshot[k..]
      invariant db.projects == old(db.projects) && db.tasks == old(db.tasks) && db.subtasks == old(db.subtasks)
      invariant db.nextId == old(db.nextId)
    {
      assert IndexWhere(db.logs, LogHasId(snapshot[k].id)) == Some(0);
      db.DeleteLog(snapshot[k].id);
      assert snapshot[k..][1..] == snapshot[k + 1..];
      k := k + 1;
    }
  }
}
