/** `ServiceResult` and `ServiceResult<T>`: the outcome objects the employee and customer services return. */
module Results {
  import opened Wrappers

  datatype ServiceResult = ServiceResult(success: bool, message: Option<string>, errors: Option<seq<string>>)

  /** `ServiceResult<T>`: the generic variant, which may carry the data a call produced. */
  datatype ServiceResultOf<T> = ServiceResultOf(success: bool, message: Option<string>,
                                                errors: Option<seq<string>>, data: Option<T>)

  /** `ServiceResult.Ok(message)`: a success that carries no error list. */
  function Ok(message: Option<string>): (r: ServiceResult)
    ensures r.success && r.message == message && r.errors == None
  {
    ServiceResult(true, message, None)
  }

  /** `ServiceResult.Fail(message, errors)`: a failure carrying exactly that message and error list. */
  function Fail(message: string, errors: Option<seq<string>>): (r: ServiceResult)
    ensures !r.success && r.message == Some(message) && r.errors == errors
  {
    ServiceResult(false, Some(message), errors)
  }

  /** `ServiceResult<T>.Ok(data, message)`: a success that carries the data. */
  function OkWith<T>(data: T, message: Option<string>): (r: ServiceResultOf<T>)
    ensures r.success && r.data == Some(data) && r.message == message && r.errors == None
  {
    ServiceResultOf(true, message, None, Some(data))
  }

  /** `ServiceResult<T>.Fail(message, errors)`: a failure that carries no data. */
  function FailWith<T>(message: string, errors: Option<seq<string>>): (r: ServiceResultOf<T>)
    ensures !r.success && r.data == None && r.message == Some(message) && r.errors == errors
  {
    ServiceResultOf(false, Some(message), errors, None)
  }
}
