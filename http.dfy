/** The error responses of the API endpoints. */
module Http {
  import opened Json

  /** `HTTPException(status_code=status, detail=detail)`. */
  datatype HttpError = HttpError(status: nat, detail: Json)
}
