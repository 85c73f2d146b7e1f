/**
 * What the clients see of HTTP: a response is an abstract input (status,
 * status text and an already decoded body); the errors the services raise.
 */
module Http {

  /** Which client raised an API error: `AirtableApiError` or `GristApiError`. */
  datatype Api = AirtableApi | GristApi

  datatype Response<B> = Response(status: int, statusText: string, body: B) {

    /** `Response.ok` of the Fetch standard: a status in the range 200 to 299. */
    predicate Ok() {
      200 <= status <= 299
    }
  }

  datatype Error =
    | ApiError(api: Api, status: int, statusText: string) // a non-ok response, as `handleResponse` reports it
    | HttpError(status: int)                              // `raise_for_status` of the Python prototype
    | MissingToken(api: Api)                               // "... API token is required"
    | MissingApiUrl                                        // "Grist API URL is required"
    | MissingBaseId                                        // "Base ID is required"
    | MissingIds                                           // "Base ID and Table ID are required"
    | TableNotFound(tableId: string)                       // "Table with ID ... not found"
    | InvalidDocumentUrl                                   // "Invalid Grist document URL ..."
}
