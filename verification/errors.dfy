/** The error-code table, the business-exception factories, the error
    envelope and the global handler that turns an exception into an HTTP
    status and an error body. */
module Errors {
  import opened Wrappers
  import opened Exceptions

  /** `ErrorCode`, in declaration order. */
  datatype ErrorCode =
    | Success | BadRequest | Unauthorized | Forbidden | NotFound | MethodNotAllowed | InternalServerError
    | CertificateNotFound | CertificateValidationFailed | CertificateDomainExists | CertificateExpired
    | CertificateInvalidDate | CertificateInvalidFormat | CertificateSaveFailed | CertificateDeleteFailed
    | CertificateUpdateFailed
    | MonitoringLogNotFound | MonitoringServiceUnavailable | MonitoringConfigError
    | UserNotFound | UserUnauthorized | UserForbidden
    | SystemBusy | SystemMaintenance | DatabaseError | CacheError
    | ValidationFailed | ParameterMissing | ParameterInvalid | DateRangeInvalid | DomainFormatInvalid
    | PageParameterInvalid

  /** `getCode()`. */
  function Code(e: ErrorCode): int {
    match e
    case Success => 200
    case BadRequest => 400
    case Unauthorized => 401
    case Forbidden => 403
    case NotFound => 404
    case MethodNotAllowed => 405
    case InternalServerError => 500
    case CertificateNotFound => 10001
    case CertificateValidationFailed => 10002
    case CertificateDomainExists => 10003
    case CertificateExpired => 10004
    case CertificateInvalidDate => 10005
    case CertificateInvalidFormat => 10006
    case CertificateSaveFailed => 10007
    case CertificateDeleteFailed => 10008
    case CertificateUpdateFailed => 10009
    case MonitoringLogNotFound => 11001
    case MonitoringServiceUnavailable => 11002
    case MonitoringConfigError => 11003
    case UserNotFound => 12001
    case UserUnauthorized => 12002
    case UserForbidden => 12003
    case SystemBusy => 13001
    case SystemMaintenance => 13002
    case DatabaseError => 13003
    case CacheError => 13004
    case ValidationFailed => 14001
    case ParameterMissing => 14002
    case ParameterInvalid => 14003
    case DateRangeInvalid => 14004
    case DomainFormatInvalid => 14005
    case PageParameterInvalid => 14006
  }

  /** `getMessage()`. */
  function Message(e: ErrorCode): string {
    match e
    case Success => "操作成功"
    case BadRequest => "请求参数错误"
    case Unauthorized => "未授权访问"
    case Forbidden => "访问被拒绝"
    case NotFound => "资源不存在"
    case MethodNotAllowed => "请求方法不支持"
    case InternalServerError => "服务器内部错误"
    case CertificateNotFound => "证书不存在"
    case CertificateValidationFailed => "证书验证失败"
    case CertificateDomainExists => "域名已存在"
    case CertificateExpired => "证书已过期"
    case CertificateInvalidDate => "证书日期无效"
    case CertificateInvalidFormat => "证书格式无效"
    case CertificateSaveFailed => "证书保存失败"
    case CertificateDeleteFailed => "证书删除失败"
    case CertificateUpdateFailed => "证书更新失败"
    case MonitoringLogNotFound => "监控日志不存在"
    case MonitoringServiceUnavailable => "监控服务不可用"
    case MonitoringConfigError => "监控配置错误"
    case UserNotFound => "用户不存在"
    case UserUnauthorized => "用户未授权"
    case UserForbidden => "用户权限不足"
    case SystemBusy => "系统繁忙，请稍后重试"
    case SystemMaintenance => "系统维护中"
    case DatabaseError => "数据库操作失败"
    case CacheError => "缓存操作失败"
    case ValidationFailed => "数据验证失败"
    case ParameterMissing => "缺少必要参数"
    case ParameterInvalid => "参数格式无效"
    case DateRangeInvalid => "日期范围无效"
    case DomainFormatInvalid => "域名格式无效"
    case PageParameterInvalid => "分页参数无效"
  }

  /** `ErrorCode.values()`. */
  const Values: seq<ErrorCode> := [
    Success, BadRequest, Unauthorized, Forbidden, NotFound, MethodNotAllowed, InternalServerError,
    CertificateNotFound, CertificateValidationFailed, CertificateDomainExists, CertificateExpired,
    CertificateInvalidDate, CertificateInvalidFormat, CertificateSaveFailed, CertificateDeleteFailed,
    CertificateUpdateFailed,
    MonitoringLogNotFound, MonitoringServiceUnavailable, MonitoringConfigError,
    UserNotFound, UserUnauthorized, UserForbidden,
    SystemBusy, SystemMaintenance, DatabaseError, CacheError,
    ValidationFailed, ParameterMissing, ParameterInvalid, DateRangeInvalid, DomainFormatInvalid,
    PageParameterInvalid]

  /** Every constant is listed. */
  lemma ValuesComplete(e: ErrorCode)
    ensures e in Values
  {
  }

  /** The codes of the application's own errors, from the certificate group
      on. */
  predicate IsDomainCode(e: ErrorCode) {
    !(e.Success? || e.BadRequest? || e.Unauthorized? || e.Forbidden? || e.NotFound? || e.MethodNotAllowed? ||
      e.InternalServerError?)
  }

  /** The general codes are HTTP statuses, the domain codes are at least
      10000. */
  lemma CodeRanges(e: ErrorCode)
    ensures IsDomainCode(e) <==> Code(e) >= 10000
    ensures !IsDomainCode(e) ==> 200 <= Code(e) <= 500
  {
  }

  /** No two constants share a code. */
  lemma CodesDistinct(a: ErrorCode, b: ErrorCode)
    ensures Code(a) == Code(b) ==> a == b
  {
  }

  /** The first of `values` with this code, if any: the loop of
      `getByCode`. */
  function FindCode(values: seq<ErrorCode>, code: int): (r: Option<ErrorCode>)
    ensures r.Some? ==> r.value in values && Code(r.value) == code
    ensures r.None? ==> forall e :: e in values ==> Code(e) != code
  {
    if |values| == 0 then None
    else if Code(values[0]) == code then Some(values[0])
    else FindCode(values[1..], code)
  }

  /** `getByCode(code)`: the constant with that code, or
      INTERNAL_SERVER_ERROR. */
  function GetByCode(code: int): (r: ErrorCode)
    ensures Code(r) == code || (r == InternalServerError && forall e: ErrorCode :: Code(e) != code)
  {
    match FindCode(Values, code)
    case Some(e) => e
    case None =>
      forall e: ErrorCode ensures Code(e) != code { ValuesComplete(e); }
      InternalServerError
  }

  /** Looking a constant's code up gives the constant back. */
  lemma GetByCodeRoundTrip(e: ErrorCode)
    ensures GetByCode(Code(e)) == e
  {
    var r := GetByCode(Code(e));
    CodesDistinct(r, e);
  }

  /** Any code no constant has gives INTERNAL_SERVER_ERROR. */
  lemma GetByCodeUnknown(code: int)
    requires forall e: ErrorCode :: Code(e) != code
    ensures GetByCode(code) == InternalServerError
  {
  }

  // ---------------------------------------------------------------------------
  // BusinessException
  // ---------------------------------------------------------------------------

  /** `BusinessException.of(code, message)`. */
  function BusinessOf(code: int, message: string): (e: Exception)
    ensures e.Business? && e.code == code && GetMessage(e) == Some(message)
  {
    Business(code, message)
  }

  /** `BusinessException.of(errorCode)`. */
  function BusinessOfCode(c: ErrorCode): (e: Exception)
    ensures e.Business? && GetByCode(e.code) == c && GetMessage(e) == Some(Message(c))
  {
    GetByCodeRoundTrip(c);
    Business(Code(c), Message(c))
  }

  /** `BusinessException.of(errorCode, customMessage)`: the constant's code
      with the caller's message. */
  function BusinessOfCodeWith(c: ErrorCode, customMessage: string): (e: Exception)
    ensures e.Business? && GetByCode(e.code) == c && GetMessage(e) == Some(customMessage)
  {
    GetByCodeRoundTrip(c);
    Business(Code(c), customMessage)
  }

  // ---------------------------------------------------------------------------
  // ApiError and the global handler
  // ---------------------------------------------------------------------------

  /** `ApiError`; the timestamp is left out. */
  datatype ApiError = ApiError(success: bool, code: int, message: Option<string>, error: Option<string>)

  /** `ApiError.of(code, message)`. */
  function ErrorOf(code: int, message: Option<string>): (r: ApiError)
    ensures !r.success && r.code == code && r.message == message && r.error.None?
  {
    ApiError(false, code, message, None)
  }

  /** `ApiError.of(code, message, error)`. */
  function ErrorOfDetail(code: int, message: Option<string>, error: Option<string>): (r: ApiError)
    ensures !r.success && r.code == code && r.message == message && r.error == error
  {
    ApiError(false, code, message, error)
  }

  /** `ApiError.of(code, message, throwable)`: the detail is the
      throwable's message. */
  function ErrorOfThrowable(code: int, message: Option<string>, t: Exception): (r: ApiError)
    ensures !r.success && r.code == code && r.message == message && r.error == GetMessage(t)
  {
    ErrorOfDetail(code, message, GetMessage(t))
  }

  /** `getHttpStatus(errorCode)`: a 4xx code is used as the status, a
      domain code becomes 400, anything else 500. */
  function HttpStatusOf(code: int): (s: int)
    ensures 400 <= code < 500 ==> s == code
    ensures code >= 10000 ==> s == 400
    ensures !(400 <= code < 500) && code < 10000 ==> s == 500
    ensures 400 <= s <= 500
  {
    if 400 <= code < 500 then code
    else if code >= 10000 then 400
    else 500
  }

  /** What reaches the handler: one of the modelled exceptions, or one of
      the framework's validation and conversion exceptions with the
      messages they carry. */
  datatype Raised =
    | Thrown(e: Exception)
      /** `MethodArgumentNotValidException`: the field errors' messages. */
    | ArgumentNotValid(fieldMessages: seq<Option<string>>)
      /** `BindException`. */
    | BindFailed(fieldMessages: seq<Option<string>>)
      /** `ConstraintViolationException`: the violations' messages. */
    | ConstraintViolated(messages: seq<Option<string>>)
      /** `MethodArgumentTypeMismatchException`. */
    | TypeMismatch(name: string, value: Option<string>, requiredType: string)
      /** A checked exception, with its message. */
    | Checked(message: Option<string>)

  /** `Collectors.joining("; ")` over strings that may be null. */
  function JoinMessages(ms: seq<Option<string>>): (r: string)
    ensures |ms| == 0 ==> r == ""
    ensures |ms| == 1 ==> r == Show(ms[0])
  {
    if |ms| == 0 then ""
    else if |ms| == 1 then Show(ms[0])
    else Show(ms[0]) + "; " + JoinMessages(ms[1..])
  }

  /** `ResponseEntity<ApiError>`. */
  datatype ErrorResponse = ErrorResponse(status: int, body: ApiError)

  /** The handler Spring picks for each exception and the response it
      builds. Every modelled exception other than BusinessException and
      IllegalArgumentException is a RuntimeException. */
  function Handle(r: Raised): (resp: ErrorResponse)
    ensures !resp.body.success
    ensures resp.status == HttpStatusOf(resp.body.code)
    ensures r.Thrown? && r.e.Business? ==> resp.body == ErrorOf(r.e.code, Some(r.e.message))
    ensures r.ArgumentNotValid? || r.BindFailed? || r.ConstraintViolated? ==>
      resp.status == 400 && resp.body.code == Code(ValidationFailed)
    ensures r.TypeMismatch? || (r.Thrown? && r.e.IllegalArgument?) ==>
      resp.status == 400 && resp.body.code == Code(ParameterInvalid)
    ensures r.Thrown? && !r.e.Business? && !r.e.IllegalArgument? ==>
      resp.status == 500 && resp.body.code == Code(InternalServerError) && resp.body.error == GetMessage(r.e)
    ensures r.Checked? ==>
      resp.status == 500 && resp.body.code == Code(InternalServerError) && resp.body.error == r.message
  {
    match r
    case Thrown(e) =>
      (match e
       case Business(code, message) => ErrorResponse(HttpStatusOf(code), ErrorOf(code, Some(message)))
       case IllegalArgument(message) =>
         ErrorResponse(400, ErrorOf(Code(ParameterInvalid), Some("参数错误: " + message)))
       case _ => ErrorResponse(500, ErrorOfThrowable(Code(InternalServerError), Some("系统内部错误"), e)))
    case ArgumentNotValid(ms) =>
      ErrorResponse(400, ErrorOf(Code(ValidationFailed), Some("参数验证失败: " + JoinMessages(ms))))
    case BindFailed(ms) =>
      ErrorResponse(400, ErrorOf(Code(ValidationFailed), Some("参数绑定失败: " + JoinMessages(ms))))
    case ConstraintViolated(ms) =>
      ErrorResponse(400, ErrorOf(Code(ValidationFailed), Some("约束验证失败: " + JoinMessages(ms))))
    case TypeMismatch(name, value, requiredType) =>
      ErrorResponse(400, ErrorOf(Code(ParameterInvalid),
        Some("参数 '" + name + "' 的值 '" + Show(value) + "' 无法转换为类型 " + requiredType)))
    case Checked(message) =>
      ErrorResponse(500, ErrorOfDetail(Code(InternalServerError), Some("系统异常，请联系管理员"), message))
  }

  /** A business exception built from a domain constant reaches the client
      as 400, with the constant's code and message in the body. */
  lemma DomainBusinessIsBadRequest(c: ErrorCode)
    requires IsDomainCode(c)
    ensures var resp := Handle(Thrown(BusinessOfCode(c)));
      resp.status == 400 && GetByCode(resp.body.code) == c && resp.body.message == Some(Message(c))
  {
    CodeRanges(c);
  }

  /** A business exception built from a general constant reaches the client
      with that constant's own status, except SUCCESS, which is a 500. */
  lemma GeneralBusinessKeepsStatus(c: ErrorCode)
    requires !IsDomainCode(c)
    ensures Handle(Thrown(BusinessOfCode(c))).status == if c == Success then 500 else Code(c)
  {
  }

  /** The status of every error response is a client or server error. */
  lemma HandledStatusIsError(r: Raised)
    ensures 400 <= Handle(r).status <= 500
  {
  }
}
