/** The task DTOs (package `model`): the response the API returns for a
    stored task and the request body of an upsert. */
module TaskModel {
  import opened Wrappers
  import opened Entity

  datatype GetTaskResponse = GetTaskResponse(
    id: int,
    name: string,
    statusId: int,
    description: string,
    createdAt: Time,
    updatedAt: Time)

  /** The zero value `GetTaskResponse{}`. */
  const ZeroResponse: GetTaskResponse := GetTaskResponse(0, "", 0, "", ZeroTime, ZeroTime)

  /** `UpsertTaskRequest`; a nil `Id` pointer is `None`. */
  datatype UpsertTaskRequest = UpsertTaskRequest(
    id: Option<int>,
    name: string,
    statusId: int,
    description: string)

  /** The request equals its zero value `UpsertTaskRequest{}`. A present id,
      even 0, makes it non-zero. */
  predicate IsDefault(dto: UpsertTaskRequest) {
    dto.id.None? && dto.name == "" && dto.statusId == 0 && dto.description == ""
  }

  /** `EntityToGetTaskResponse`: every field of the response is the entity's
      field of the same name; the status record is dropped. */
  function EntityToGetTaskResponse(e: Task): (r: GetTaskResponse)
    ensures r.id == e.id && r.name == e.name && r.statusId == e.statusId
    ensures r.description == e.description
    ensures r.createdAt == e.createdAt && r.updatedAt == e.updatedAt
  {
    GetTaskResponse(e.id, e.name, e.statusId, e.description, e.createdAt, e.updatedAt)
  }

  /** The response ignores the entity's `Status`, and only it: two entities
      that agree on every other field give the same response, and no other
      two do. */
  lemma ResponseIgnoresStatus(a: Task, b: Task)
    ensures EntityToGetTaskResponse(a) == EntityToGetTaskResponse(b) <==> a.(status := b.status) == b
  {
  }

  /** `IsValid(id)`: a non-zero request whose id agrees with the path id,
      both absent or both present and equal. */
  function IsValid(dto: UpsertTaskRequest, id: Option<int>): (b: bool)
    ensures b <==> !IsDefault(dto) && dto.id == id
  {
    dto != UpsertTaskRequest(None, "", 0, "")
    && ((id.None? && dto.id.None?) || (id.Some? && dto.id.Some? && id.value == dto.id.value))
  }

  /** `ToEntity`: the id (0 when absent), name, status id and description;
      timestamps and status stay zero. */
  function ToEntity(dto: UpsertTaskRequest): (t: Task)
    ensures t.id == (if dto.id.Some? then dto.id.value else 0)
    ensures t.name == dto.name && t.statusId == dto.statusId && t.description == dto.description
    ensures t.status == ZeroTask.status && t.createdAt == ZeroTime && t.updatedAt == ZeroTime
  {
    var id := if dto.id.Some? then dto.id.value else 0;
    ZeroTask.(id := id, name := dto.name, statusId := dto.statusId, description := dto.description)
  }

  /** A request valid for a path id yields an entity with that id, and one
      valid without a path id yields id 0 (which Insert replaces). */
  lemma ValidRequestCarriesPathId(dto: UpsertTaskRequest, id: Option<int>)
    requires IsValid(dto, id)
    ensures ToEntity(dto).id == (if id.Some? then id.value else 0)
  {
  }

  /** A request rebuilt from a response maps back to the response's content:
      an update with it changes nothing that `Update` compares. */
  lemma RequestFromResponse(r: GetTaskResponse)
    ensures var t := ToEntity(UpsertTaskRequest(Some(r.id), r.name, r.statusId, r.description));
            EntityToGetTaskResponse(t) == r.(createdAt := ZeroTime, updatedAt := ZeroTime)
  {
  }
}
