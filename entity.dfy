/** The task and status records the repository stores. */
module Entity {

  /** An instant of `time.Time`, kept abstract as an integer; 0 stands for
      Go's zero `time.Time`. */
  type Time = int

  const ZeroTime: Time := 0

  datatype Status = Status(
    id: int,
    name: string,
    description: string,
    createdAt: Time,
    updatedAt: Time)

  datatype Task = Task(
    id: int,
    name: string,
    status: Status,
    statusId: int,
    description: string,
    createdAt: Time,
    updatedAt: Time)

  /** The zero value `entity.Task{}`. */
  const ZeroTask: Task :=
    Task(0, "", Status(0, "", "", ZeroTime, ZeroTime), 0, "", ZeroTime, ZeroTime)
}
