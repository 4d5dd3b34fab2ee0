/** The in-memory task repository as a state machine over values: the map of
    tasks keyed by id plus the id counter, and one transition per repository
    operation. The class `Repository.MemoryRepository` is proved to follow
    these transitions; the lemmas here state what they promise. */
module TaskStore {
  import opened Wrappers
  import opened Entity
  import opened Sorting

  /** The repository's fields: `tasks` and `seq`. */
  datatype Store = Store(tasks: map<int, Task>, counter: int)

  /** What a single-task operation leaves behind and returns. */
  datatype Reply = Reply(store: Store, task: Task, err: Option<Error>)

  /** What a batch removal leaves behind and returns (`[]` for Go's nil slice). */
  datatype BatchReply = BatchReply(store: Store, removed: seq<Task>, err: Option<Error>)

  /** Every stored task sits under its own id, and every id was issued by the
      counter. Insert, Update and the removals keep this; a map preloaded with
      `WithTasks` may break it. */
  ghost predicate Valid(s: Store) {
    && s.counter >= 0
    && forall k :: k in s.tasks ==> s.tasks[k].id == k && 0 <= k < s.counter
  }

  /** `m` keeps some of the entries of `base`, unchanged. */
  ghost predicate SubMap(m: map<int, Task>, base: map<int, Task>) {
    forall k :: k in m ==> k in base && m[k] == base[k]
  }

  /** The fields Update compares: an update that changes none of them is a no-op. */
  predicate SameContent(stored: Task, candidate: Task) {
    && stored.name == candidate.name
    && stored.statusId == candidate.statusId
    && stored.description == candidate.description
  }

  /** Insert: the task gets the current counter as id and `now` as both
      timestamps, and is stored under that id whether or not it is taken. */
  function InsertStep(s: Store, task: Task, now: Time): (r: Reply)
    ensures r.err == None && r.store.counter == s.counter + 1
    ensures r.task == task.(id := s.counter, createdAt := now, updatedAt := now)
    ensures r.store.tasks.Keys == s.tasks.Keys + {s.counter} && r.store.tasks[s.counter] == r.task
    ensures forall k :: k in s.tasks && k != s.counter ==> r.store.tasks[k] == s.tasks[k]
    ensures Valid(s) ==> s.counter !in s.tasks && Valid(r.store)
  {
    var stored := task.(id := s.counter, updatedAt := now, createdAt := now);
    Reply(Store(s.tasks[s.counter := stored], s.counter + 1), stored, None)
  }

  /** Update: not found, a no-op, or a replacement that keeps the stored
      creation time, stamps `now` and hands back the previous record. */
  function UpdateStep(s: Store, task: Task, now: Time): (r: Reply)
    ensures r.store.counter == s.counter
    ensures task.id !in s.tasks ==> r == Reply(s, ZeroTask, Some(NotFound))
    ensures task.id in s.tasks && SameContent(s.tasks[task.id], task) ==>
              r == Reply(s, ZeroTask, Some(NotModified))
    ensures r.err == None <==> task.id in s.tasks && !SameContent(s.tasks[task.id], task)
    ensures r.err == None ==>
              && r.task == s.tasks[task.id]
              && r.store.tasks.Keys == s.tasks.Keys
              && r.store.tasks[task.id] == task.(createdAt := r.task.createdAt, updatedAt := now)
              && forall k :: k in s.tasks && k != task.id ==> r.store.tasks[k] == s.tasks[k]
    ensures Valid(s) ==> Valid(r.store)
  {
    if task.id !in s.tasks then Reply(s, ZeroTask, Some(NotFound))
    else
      var old_ := s.tasks[task.id];
      if SameContent(old_, task) then Reply(s, ZeroTask, Some(NotModified))
      else
        var stored := task.(updatedAt := now, createdAt := old_.createdAt);
        Reply(Store(s.tasks[task.id := stored], s.counter), old_, None)
  }

  /** RemoveById: deletes exactly that key and returns what it held. */
  function RemoveStep(s: Store, id: int): (r: Reply)
    ensures r.store.counter == s.counter
    ensures r.err == None <==> id in s.tasks
    ensures r.err == None ==> r.task == s.tasks[id] && r.store.tasks == s.tasks - {id}
    ensures r.err != None ==> r == Reply(s, ZeroTask, Some(NotFound))
  {
    if id !in s.tasks then Reply(s, ZeroTask, Some(NotFound))
    else Reply(Store(s.tasks - {id}, s.counter), s.tasks[id], None)
  }

  /** The outcome of a batch whose first removals returned `done`, given the
      outcome of the rest of the batch: an error discards every result. */
  function After(done: seq<Task>, rest: BatchReply): BatchReply {
    if rest.err.Some? then BatchReply(rest.store, [], rest.err)
    else BatchReply(rest.store, done + rest.removed, None)
  }

  /** RemoveByIds: removes in input order and stops at the first id that is
      missing, keeping the removals made before it. */
  function RemoveAllStep(s: Store, ids: seq<int>): (r: BatchReply)
    ensures r.store.counter == s.counter
    ensures SubMap(r.store.tasks, s.tasks)
    ensures r.err.Some? ==> r.err == Some(NotFound) && r.removed == []
    ensures r.err.None? ==> |r.removed| == |ids|
    decreases |ids|
  {
    if ids == [] then BatchReply(s, [], None)
    else
      var first := RemoveStep(s, ids[0]);
      if first.err.Some? then BatchReply(first.store, [], first.err)
      else After([first.task], RemoveAllStep(first.store, ids[1..]))
  }

  function Elems(s: seq<int>): set<int> {
    set x | x in s
  }

  /** How many ids a batch removes before it meets one that is missing. */
  function FirstMiss(m: map<int, Task>, ids: seq<int>): (n: nat)
    ensures n <= |ids|
  {
    if ids == [] || ids[0] !in m then 0 else 1 + FirstMiss(m - {ids[0]}, ids[1..])
  }

  /** A batch removal deletes exactly the ids before the first miss, and
      succeeds, returning the removed records in input order, exactly when
      there is no miss. A repeated id counts as missing the second time. */
  lemma {:induction false} RemoveAllStopsAtFirstMiss(s: Store, ids: seq<int>)
    ensures var r := RemoveAllStep(s, ids);
            var n := FirstMiss(s.tasks, ids);
            && r.store == Store(s.tasks - Elems(ids[..n]), s.counter)
            && (r.err == None <==> n == |ids|)
            && (r.err == None ==> forall i :: 0 <= i < |ids| ==>
                                    ids[i] in s.tasks && r.removed[i] == s.tasks[ids[i]])
    decreases |ids|
  {
    if ids == [] || ids[0] !in s.tasks {
      assert ids[..0] == [];
      assert s.tasks - Elems([]) == s.tasks;
    } else {
      var s' := Store(s.tasks - {ids[0]}, s.counter);
      var rest := RemoveAllStep(s', ids[1..]);
      assert RemoveAllStep(s, ids) == After([s.tasks[ids[0]]], rest);
      RemoveAllStopsAtFirstMiss(s', ids[1..]);
      var n' := FirstMiss(s'.tasks, ids[1..]);
      assert FirstMiss(s.tasks, ids) == 1 + n';
      RemoveFirstThenRest(s.tasks, ids, n');
      if rest.err == None {
        forall i | 0 < i < |ids|
          ensures ids[i] in s.tasks && RemoveAllStep(s, ids).removed[i] == s.tasks[ids[i]]
        {
          assert ids[1..][i - 1] == ids[i];
        }
      }
    }
  }

  /** Removing the first id and then the next `n` is removing the first
      `1 + n`. */
  lemma RemoveFirstThenRest(m: map<int, Task>, ids: seq<int>, n: nat)
    requires n < |ids|
    ensures m - Elems(ids[..1 + n]) == (m - {ids[0]}) - Elems(ids[1..][..n])
  {
    assert ids[..1 + n] == [ids[0]] + ids[1..][..n];
    assert Elems(ids[..1 + n]) == {ids[0]} + Elems(ids[1..][..n]);
  }

  /** The operations of the repository that change it. */
  datatype Op =
    | Insert(task: Task, now: Time)
    | Update(task: Task, now: Time)
    | RemoveById(id: int)
    | RemoveByIds(ids: seq<int>)

  function Step(s: Store, op: Op): Store {
    match op
    case Insert(task, now) => InsertStep(s, task, now).store
    case Update(task, now) => UpdateStep(s, task, now).store
    case RemoveById(id) => RemoveStep(s, id).store
    case RemoveByIds(ids) => RemoveAllStep(s, ids).store
  }

  /** The store after a sequence of operations. */
  function Run(s: Store, ops: seq<Op>): Store
    decreases |ops|
  {
    if ops == [] then s else Run(Step(s, ops[0]), ops[1..])
  }

  /** Running two sequences one after the other is running their
      concatenation, so the lemmas below apply to any suffix of a run. */
  lemma {:induction false} RunAppend(s: Store, a: seq<Op>, b: seq<Op>)
    ensures Run(s, a + b) == Run(Run(s, a), b)
    decreases |a|
  {
    if a == [] {
      assert a + b == b;
    } else {
      assert (a + b)[1..] == a[1..] + b;
      RunAppend(Step(s, a[0]), a[1..], b);
    }
  }

  /** The ids the inserts of `ops` assign, in order. */
  function Issued(s: Store, ops: seq<Op>): seq<int>
    decreases |ops|
  {
    if ops == [] then []
    else (if ops[0].Insert? then [s.counter] else []) + Issued(Step(s, ops[0]), ops[1..])
  }

  function InsertCount(ops: seq<Op>): nat {
    if ops == [] then 0 else (if ops[0].Insert? then 1 else 0) + InsertCount(ops[1..])
  }

  /** The counter moves only on Insert, by exactly one: removals never give
      an id back. */
  lemma {:induction false} CounterCountsInserts(s: Store, ops: seq<Op>)
    ensures Run(s, ops).counter == s.counter + InsertCount(ops)
    decreases |ops|
  {
    if ops != [] {
      CounterCountsInserts(Step(s, ops[0]), ops[1..]);
    }
  }

  /** Every id lies in `[lo, hi)`. */
  predicate InRange(ids: seq<int>, lo: int, hi: int) {
    forall i :: 0 <= i < |ids| ==> lo <= ids[i] < hi
  }

  /** Ids are never reused: whatever is removed in between, the inserts of
      `ops` assign strictly increasing ids, all at least the counter at the
      start and below the counter at the end. */
  lemma {:induction false} IdsNeverReused(s: Store, ops: seq<Op>)
    ensures StrictlySorted(Issued(s, ops))
    ensures InRange(Issued(s, ops), s.counter, Run(s, ops).counter)
    decreases |ops|
  {
    if ops != [] {
      var s' := Step(s, ops[0]);
      StepCounter(s, ops[0]);
      IdsNeverReused(s', ops[1..]);
      CounterCountsInserts(s', ops[1..]);
      var rest := Issued(s', ops[1..]);
      assert Run(s, ops) == Run(s', ops[1..]);
      if ops[0].Insert? {
        assert Issued(s, ops) == [s.counter] + rest;
        PrependBelow(s.counter, rest, Run(s, ops).counter);
      } else {
        assert Issued(s, ops) == rest;
      }
    }
  }

  /** An id below every id of a strictly ascending run extends it. */
  lemma PrependBelow(x: int, ids: seq<int>, hi: int)
    requires StrictlySorted(ids) && InRange(ids, x + 1, hi) && x < hi
    ensures StrictlySorted([x] + ids) && InRange([x] + ids, x, hi)
  {
    var r := [x] + ids;
    forall i | 0 < i < |r| ensures r[i] == ids[i - 1] {
    }
  }

  /** One operation moves the counter by one on Insert and leaves it
      otherwise. */
  lemma StepCounter(s: Store, op: Op)
    ensures Step(s, op).counter == s.counter + (if op.Insert? then 1 else 0)
  {
  }

  /** Every operation keeps the store valid. */
  lemma StepKeepsValid(s: Store, op: Op)
    requires Valid(s)
    ensures Valid(Step(s, op))
  {
  }

  /** One step never brings an id the counter has passed back and never
      changes the creation time of a task stored under it. */
  lemma StepKeepsCreation(s: Store, op: Op, id: int)
    requires id < s.counter && id in Step(s, op).tasks
    ensures id in s.tasks && Step(s, op).tasks[id].createdAt == s.tasks[id].createdAt
  {
  }

  /** For an id below the counter the life cycle is Present, Present',
      Absent, and no further: a task stored under such an id after any
      sequence of operations was stored under it before, with the same
      creation time. Ids at or above the counter are the ones `Insert` will
      hand out, and a task preloaded there is overwritten by it. */
  lemma {:induction false} CreationTimeIsStable(s: Store, ops: seq<Op>, id: int)
    requires id < s.counter && id in Run(s, ops).tasks
    ensures id in s.tasks
    ensures Run(s, ops).tasks[id].createdAt == s.tasks[id].createdAt
    decreases |ops|
  {
    if ops != [] {
      var s' := Step(s, ops[0]);
      StepCounter(s, ops[0]);
      CreationTimeIsStable(s', ops[1..], id);
      StepKeepsCreation(s, ops[0], id);
    }
  }

  /** An id below the counter that holds no task stays empty whatever
      happens afterwards: a removed id never comes back. */
  lemma {:induction false} NoResurrection(s: Store, ops: seq<Op>, id: int)
    requires id < s.counter && id !in s.tasks
    ensures id !in Run(s, ops).tasks
  {
    if id in Run(s, ops).tasks {
      CreationTimeIsStable(s, ops, id);
    }
  }
}
