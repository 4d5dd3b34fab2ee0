/** The task service (package `service`): maps the repository's entities to
    response DTOs and an upsert request to an insert or an update. */
module Service {
  import opened Wrappers
  import opened Entity
  import opened Sorting
  import opened TaskStore
  import opened Repository
  import opened TaskModel

  /** `WithRepository(repository)`; the repository may itself be nil. */
  datatype ServiceOption = WithRepository(repository: MemoryRepository?)

  /** The repository the options leave in place: that of the last non-nil
      option, nil when there is none. */
  function ChosenRepository(options: seq<Option<ServiceOption>>): MemoryRepository? {
    if options == [] then null
    else
      var last := options[|options| - 1];
      if last.Some? then last.value.repository else ChosenRepository(options[..|options| - 1])
  }

  /** The ids of `dtos`, in order. */
  function ResponseIds(dtos: seq<GetTaskResponse>): seq<int> {
    seq(|dtos|, i requires 0 <= i < |dtos| => dtos[i].id)
  }

  class TaskService {
    var repository: MemoryRepository?

    /** `New(options...)`: no repository, then the non-nil options in order. */
    constructor (options: seq<Option<ServiceOption>>)
      ensures repository == ChosenRepository(options)
    {
      var chosen: MemoryRepository? := null;
      for i := 0 to |options|
        invariant chosen == ChosenRepository(options[..i])
      {
        assert options[..i + 1][..i] == options[..i];
        if options[i].Some? {
          chosen := options[i].value.repository;
        }
      }
      assert options[..|options|] == options;
      repository := chosen;
    }

    /** `GetAll`: one response per stored task, in the repository's order,
      each that of a stored task or of the zero task a missed lookup gives;
      when every task sits under its own id, that is ascending id order and
      each response is that of the task stored under its id. */
    method GetAll() returns (dtos: seq<GetTaskResponse>, err: Option<Error>)
      requires repository != null
      ensures err == None && |dtos| == |repository.tasks|
      ensures forall i :: 0 <= i < |dtos| ==>
                exists t :: (t in repository.tasks.Values || t == ZeroTask) && dtos[i] == EntityToGetTaskResponse(t)
      ensures KeysMatchIds(repository.tasks) ==>
                && StrictlySorted(ResponseIds(dtos))
                && forall i :: 0 <= i < |dtos| ==>
                     dtos[i].id in repository.tasks
                     && dtos[i] == EntityToGetTaskResponse(repository.tasks[dtos[i].id])
    {
      var entities, e := repository.GetAll();
      if e.Some? {
        return [], e;
      }
      dtos := [];
      for i := 0 to |entities|
        invariant |dtos| == i
        invariant forall j :: 0 <= j < i ==> dtos[j] == EntityToGetTaskResponse(entities[j])
      {
        dtos := dtos + [EntityToGetTaskResponse(entities[i])];
      }
      assert ResponseIds(dtos) == Ids(entities);
      forall i | 0 <= i < |dtos|
        ensures exists t :: (t in repository.tasks.Values || t == ZeroTask) && dtos[i] == EntityToGetTaskResponse(t)
      {
        var t := entities[i];
        assert (t in repository.tasks.Values || t == ZeroTask) && dtos[i] == EntityToGetTaskResponse(t);
      }
      err := None;
    }

    /** `GetById`: the response of the stored task, or a zero response and
      the repository's `ErrNotFound`. */
    method GetById(id: int) returns (dto: GetTaskResponse, err: Option<Error>)
      requires repository != null
      ensures id in repository.tasks ==> dto == EntityToGetTaskResponse(repository.tasks[id]) && err == None
      ensures id !in repository.tasks ==> dto == ZeroResponse && err == Some(NotFound)
    {
      var task, e := repository.GetById(id);
      if e.Some? {
        return ZeroResponse, e;
      }
      dto, err := EntityToGetTaskResponse(task), None;
    }

    /** `Upsert`: a request without an id is inserted and one with an id
      updates; either way the repository gets `ToEntity` of the request.
      An error comes back with a zero response; a success with the
      response of what the repository returned (for an update, the record
      as it was before). `now` is the repository's reading of the clock. */
    method Upsert(request: UpsertTaskRequest, now: Time) returns (dto: GetTaskResponse, err: Option<Error>)
      requires repository != null
      modifies repository
      ensures var step := if request.id.None?
                          then InsertStep(old(repository.Model()), ToEntity(request), now)
                          else UpdateStep(old(repository.Model()), ToEntity(request), now);
              && repository.Model() == step.store
              && err == step.err
              && dto == (if err.Some? then ZeroResponse else EntityToGetTaskResponse(step.task))
    {
      var task := ToEntity(request);
      var e: Option<Error>;
      if request.id.None? {
        task, e := repository.Insert(task, now);
      } else {
        task, e := repository.Update(task, now);
      }
      if e.Some? {
        return ZeroResponse, e;
      }
      dto, err := EntityToGetTaskResponse(task), None;
    }

    /** `RemoveById`: the repository's removal, with the removed record
      dropped and its error passed on. */
    method RemoveById(id: int) returns (err: Option<Error>)
      requires repository != null
      modifies repository
      ensures var step := RemoveStep(old(repository.Model()), id);
              repository.Model() == step.store && err == step.err
    {
      var _, e := repository.RemoveById(id);
      err := e;
    }

    /** `RemoveByIds`: the repository's batch removal, with the removed
      records dropped and its error passed on. */
    method RemoveByIds(ids: seq<int>) returns (err: Option<Error>)
      requires repository != null
      modifies repository
      ensures var step := RemoveAllStep(old(repository.Model()), ids);
              repository.Model() == step.store && err == step.err
    {
      var _, e := repository.RemoveByIds(ids);
      err := e;
    }
  }
}
