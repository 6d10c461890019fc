/** `ApiResponse`, the envelope every successful controller call returns,
    with its success and error factories. The timestamp is left out. */
module Responses {
  import opened Wrappers

  datatype ApiResponse<T> = ApiResponse(success: bool, code: int, message: Option<string>, data: Option<T>)

  const SuccessCode: int := 200
  const DefaultErrorCode: int := 500
  const SuccessMessage: string := "操作成功"

  /** `success()`. */
  function Success<T>(): (r: ApiResponse<T>)
    ensures r.success && r.code == SuccessCode && r.message == Some(SuccessMessage) && r.data.None?
  {
    ApiResponse(true, SuccessCode, Some(SuccessMessage), None)
  }

  /** `success(data)`: a null `data` stays null. */
  function SuccessWith<T>(data: Option<T>): (r: ApiResponse<T>)
    ensures r.success && r.code == SuccessCode && r.message == Some(SuccessMessage) && r.data == data
  {
    ApiResponse(true, SuccessCode, Some(SuccessMessage), data)
  }

  /** `success(message)`. */
  function SuccessMessageOnly<T>(message: Option<string>): (r: ApiResponse<T>)
    ensures r.success && r.code == SuccessCode && r.message == message && r.data.None?
  {
    ApiResponse(true, SuccessCode, message, None)
  }

  /** `success(message, data)`. */
  function SuccessMessageWith<T>(message: Option<string>, data: Option<T>): (r: ApiResponse<T>)
    ensures r.success && r.code == SuccessCode && r.message == message && r.data == data
  {
    ApiResponse(true, SuccessCode, message, data)
  }

  /** `error(code, message)`. */
  function Error<T>(code: int, message: Option<string>): (r: ApiResponse<T>)
    ensures !r.success && r.code == code && r.message == message && r.data.None?
  {
    ApiResponse(false, code, message, None)
  }

  /** `error(message)`: code 500. */
  function ErrorDefault<T>(message: Option<string>): (r: ApiResponse<T>)
    ensures !r.success && r.code == DefaultErrorCode && r.message == message && r.data.None?
  {
    ApiResponse(false, DefaultErrorCode, message, None)
  }

  /** The envelopes the factories build. */
  predicate Built<T>(r: ApiResponse<T>) {
    (r.success && r.code == SuccessCode) || (!r.success && r.data.None?)
  }

  /** Each factory builds an envelope that carries data only when it
      succeeds, and the success form with the default message is the
      data-carrying one with null data. */
  lemma FactoriesAgree<T>(code: int, message: Option<string>, data: Option<T>)
    ensures Built(Success<T>()) && Built(SuccessWith(data)) && Built(SuccessMessageOnly<T>(message)) && Built(SuccessMessageWith(message, data))
    ensures Built(Error<T>(code, message)) && Built(ErrorDefault<T>(message))
    ensures Success<T>() == SuccessWith(None) && SuccessWith(data) == SuccessMessageWith(Some(SuccessMessage), data)
    ensures ErrorDefault<T>(message) == Error(DefaultErrorCode, message)
  {
  }
}
