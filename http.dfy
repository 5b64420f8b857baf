/** The HTTP errors the routes raise (FastAPI's HTTPException): a status code, a detail text and headers. */
module Http {

  datatype HttpError = HttpError(status: int, detail: string, headers: map<string, string>)

  /** An HTTPException raised without headers. */
  function Raise(status: int, detail: string): (e: HttpError)
    ensures e.status == status && e.detail == detail && e.headers == map[]
  {
    HttpError(status, detail, map[])
  }
}
