/** What a handler sends back: a status code and a JSON body (or none). */
module Http {
  import opened Json

  datatype Body<+T> =
    | Payload(value: T)                       // res.json(value) for a success
    | ErrorMessage(error: string)             // { error: "..." }
    | ErrorIssues(issues: Issues)             // { error: parsed.error.issues }
    | ErrorWithExtra(error: string, extra: Json)  // { error, meta } or { error, details }
    | NoContent                               // res.status(204).send()

  datatype Response<+T> = Response(status: int, body: Body<T>)

  predicate IsError<T>(r: Response<T>) {
    r.body.ErrorMessage? || r.body.ErrorIssues? || r.body.ErrorWithExtra?
  }
}
