/** Error outcomes shared by every service: the HTTP exceptions the services throw. */
module Outcomes {

  /** NotFoundException, ConflictException and BadRequestException. */
  datatype Error = NotFound | Conflict | BadRequest

  /** The value a service call returns, or the exception it throws. */
  datatype Result<+T> = Ok(value: T) | Err(error: Error)

  datatype Option<+T> = None | Some(value: T)

  /**
   * `findUnique({ where: { id } })` followed by a NotFoundException when no
   * row comes back: the row under the id, NotFound exactly when there is none.
   */
  function Lookup<T>(table: map<nat, T>, id: nat): (r: Result<T>)
    ensures id !in table <==> r == Err(NotFound)
    ensures r.Ok? ==> r.value == table[id]
  {
    if id in table then Ok(table[id]) else Err(NotFound)
  }
}
