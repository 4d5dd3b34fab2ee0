/** `memoryRepository`: the task map and the id counter as fields that the
    operations update in place. Each mutating method is proved to perform the
    matching transition of `TaskStore`. */
module Repository {
  import opened Wrappers
  import opened Entity
  import opened Sorting
  import opened TaskStore

  /** `WithTasks(tasks)`; `None` is a nil map, which the option ignores. */
  datatype RepositoryOption = WithTasks(tasks: Option<map<int, Task>>)

  /** The map the options leave in place: that of the last non-nil
      `WithTasks` carrying a non-nil map, else the empty map. */
  function Preloaded(options: seq<Option<RepositoryOption>>): map<int, Task> {
    if options == [] then map[]
    else
      var last := options[|options| - 1];
      if last.Some? && last.value.tasks.Some? then last.value.tasks.value
      else Preloaded(options[..|options| - 1])
  }

  /** Every stored task sits under its own id. */
  ghost predicate KeysMatchIds(tasks: map<int, Task>) {
    forall k :: k in tasks ==> tasks[k].id == k
  }

  /** The ids of `ts`, in order. */
  function Ids(ts: seq<Task>): seq<int> {
    seq(|ts|, i requires 0 <= i < |ts| => ts[i].id)
  }

  class MemoryRepository {
    var tasks: map<int, Task>
    var counter: int

    function Model(): Store
      reads this
    {
      Store(tasks, counter)
    }

    /** `New(options...)`: an empty map (or the preloaded one) and a counter
        starting at 0, so that the first insert gets id 0. */
    constructor (options: seq<Option<RepositoryOption>>)
      ensures Model() == Store(Preloaded(options), 0)
    {
      var preload: map<int, Task> := map[];
      for i := 0 to |options|
        invariant preload == Preloaded(options[..i])
      {
        assert options[..i + 1][..i] == options[..i];
        if options[i].Some? && options[i].value.tasks.Some? {
          preload := options[i].value.tasks.value;
        }
      }
      assert options[..|options|] == options;
      tasks := preload;
      counter := 0;
    }

    method GetById(id: int) returns (task: Task, err: Option<Error>)
      ensures id in tasks ==> task == tasks[id] && err == None
      ensures id !in tasks ==> task == ZeroTask && err == Some(NotFound)
    {
      if id !in tasks {
        return ZeroTask, Some(NotFound);
      }
      task, err := tasks[id], None;
    }

    /** The first loop of GetAll: the id of every stored task, in the map's
        unspecified iteration order. `keys` records the keys visited, in the
        same order. */
    method CollectIds() returns (ids: seq<int>, ghost keys: seq<int>)
      ensures |ids| == |keys| == |tasks| && Distinct(keys)
      ensures forall i :: 0 <= i < |keys| ==> keys[i] in tasks && ids[i] == tasks[keys[i]].id
      ensures forall k :: k in keys <==> k in tasks
    {
      ids, keys := [], [];
      var rest := tasks.Keys;
      while rest != {}
        invariant rest <= tasks.Keys
        invariant |ids| == |keys| && |keys| + |rest| == |tasks|
        invariant forall i :: 0 <= i < |keys| ==> keys[i] in tasks && ids[i] == tasks[keys[i]].id
        invariant forall k :: k in keys <==> k in tasks && k !in rest
        invariant Distinct(keys)
        decreases |rest|
      {
        ghost var some := Pick(rest);
        var k :| k in rest;
        ids := ids + [tasks[k].id];
        keys := keys + [k];
        rest := rest - {k};
      }
    }

    /** Collects the id of every stored task, sorts the ids and looks each
        one up. When every task sits under its own id the result is exactly
        the stored tasks in strictly ascending id order. */
    method GetAll() returns (result: seq<Task>, err: Option<Error>)
      ensures err == None && |result| == |tasks|
      ensures forall i :: 0 <= i < |result| ==> result[i] in tasks.Values || result[i] == ZeroTask
      ensures KeysMatchIds(tasks) ==>
                && StrictlySorted(Ids(result))
                && (forall t :: t in result <==> t in tasks.Values)
                && forall i :: 0 <= i < |result| ==> result[i].id in tasks && result[i] == tasks[result[i].id]
    {
      var ids, keys := CollectIds();
      var sorted := SortInts(ids);
      assert |sorted| == |multiset(sorted)| == |multiset(ids)| == |ids|;
      result := [];
      for i := 0 to |sorted|
        invariant |result| == i
        invariant forall j :: 0 <= j < i ==>
                    result[j] == if sorted[j] in tasks then tasks[sorted[j]] else ZeroTask
      {
        result := result + [if sorted[i] in tasks then tasks[sorted[i]] else ZeroTask];
      }
      err := None;
      if KeysMatchIds(tasks) {
        GetAllWhenKeysMatchIds(tasks, keys, ids, sorted, result);
      }
    }

    method Insert(task: Task, now: Time) returns (stored: Task, err: Option<Error>)
      modifies this
      ensures Reply(Model(), stored, err) == InsertStep(old(Model()), task, now)
    {
      stored := task.(id := counter, updatedAt := now, createdAt := now);
      counter := counter + 1;
      tasks := tasks[stored.id := stored];
      err := None;
    }

    method Update(task: Task, now: Time) returns (previous: Task, err: Option<Error>)
      modifies this
      ensures Reply(Model(), previous, err) == UpdateStep(old(Model()), task, now)
    {
      if task.id !in tasks {
        return ZeroTask, Some(NotFound);
      }
      var oldTask := tasks[task.id];
      if SameContent(oldTask, task) {
        return ZeroTask, Some(NotModified);
      }
      tasks := tasks[task.id := task.(updatedAt := now, createdAt := oldTask.createdAt)];
      previous, err := oldTask, None;
    }

    method RemoveById(id: int) returns (removed: Task, err: Option<Error>)
      modifies this
      ensures Reply(Model(), removed, err) == RemoveStep(old(Model()), id)
    {
      if id !in tasks {
        return ZeroTask, Some(NotFound);
      }
      removed := tasks[id];
      tasks := tasks - {id};
      err := None;
    }

    method RemoveByIds(ids: seq<int>) returns (removed: seq<Task>, err: Option<Error>)
      modifies this
      ensures BatchReply(Model(), removed, err) == RemoveAllStep(old(Model()), ids)
    {
      removed := [];
      for i := 0 to |ids|
        invariant RemoveAllStep(old(Model()), ids) == After(removed, RemoveAllStep(Model(), ids[i..]))
      {
        var task, e := RemoveById(ids[i]);
        assert ids[i..][1..] == ids[i + 1..];
        if e.Some? {
          return [], e;
        }
        removed := removed + [task];
      }
      err := None;
    }
  }

  /** The proof obligation of GetAll's second postcondition: when the ids
      collected from the map are its keys, sorting them and looking each up
      yields the stored tasks, each once, by ascending id. */
  lemma GetAllWhenKeysMatchIds(
    tasks: map<int, Task>, seen: seq<int>, ids: seq<int>, sorted: seq<int>, result: seq<Task>)
    requires KeysMatchIds(tasks)
    requires |ids| == |seen| && Distinct(seen)
    requires forall i :: 0 <= i < |seen| ==> seen[i] in tasks && ids[i] == tasks[seen[i]].id
    requires forall k :: k in seen <==> k in tasks
    requires Sorted(sorted) && multiset(sorted) == multiset(ids)
    requires |result| == |sorted|
    requires forall j :: 0 <= j < |sorted| ==>
               result[j] == if sorted[j] in tasks then tasks[sorted[j]] else ZeroTask
    ensures StrictlySorted(Ids(result))
    ensures forall t :: t in result <==> t in tasks.Values
    ensures forall i :: 0 <= i < |result| ==> result[i].id in tasks && result[i] == tasks[result[i].id]
  {
    assert ids == seen;
    PermutationKeepsDistinct(ids, sorted);
    SortedDistinctIsStrict(sorted);
    forall j | 0 <= j < |sorted| ensures sorted[j] in tasks && result[j] == tasks[sorted[j]] {
      assert sorted[j] in multiset(ids);
    }
    assert Ids(result) == sorted;
    forall t | t in tasks.Values ensures t in result {
      HasKey(tasks, t);
      var k :| k in tasks && tasks[k] == t;
      assert k in multiset(sorted);
      var j :| 0 <= j < |sorted| && sorted[j] == k;
      assert result[j] == t;
    }
  }

  /** A value of a map is stored under some key. */
  lemma HasKey(m: map<int, Task>, t: Task)
    requires t in m.Values
    ensures exists k :: k in m && m[k] == t
  {
    if forall k :: k in m ==> m[k] != t {
      assert false;
    }
  }
}
