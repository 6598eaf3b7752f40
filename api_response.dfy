/** The JSON envelope every endpoint answers with. The `timestamp` field is
    stamped from the clock and is not part of the model. */
module ApiResponses {
  import opened Common

  datatype ApiResponse<T> = ApiResponse(success: bool, data: Option<T>, error: Option<string>)

  /** `ApiResponse.ok(data)`. */
  function Ok<T>(data: T): (r: ApiResponse<T>)
    ensures r.success && r.data == Some(data) && r.error.None?
  {
    ApiResponse(true, Some(data), None)
  }

  /** `ApiResponse.error(message)`. */
  function Error<T>(message: string): (r: ApiResponse<T>)
    ensures !r.success && r.error == Some(message) && r.data.None?
  {
    ApiResponse(false, None, Some(message))
  }

  /** The two constructors never build the same envelope, and the `success`
      flag tells which one built it; the payload is recovered from either. */
  lemma EnvelopesDistinct<T>(data: T, message: string, r: ApiResponse<T>)
    ensures Ok(data) != Error(message)
    ensures r == Ok(data) ==> r.success && r.data.value == data
    ensures r == Error(message) ==> !r.success && r.error.value == message
  {
  }
}
