/** Shared vocabulary of the book-management backend: primary keys, the outcome of a
    Python call (return or raise), the JSON-like values the serializers produce, the
    validation errors of Django REST framework and the HTTP responses of the views. */
module Base {

  /** Primary key of a database row (an auto-increment integer). */
  type Pk = nat

  datatype Option<+T> = None | Some(value: T)

  /** The exceptions that the modelled code raises or lets escape. */
  datatype Exception =
    | ValueError(message: string)
    | TypeError
    | KeyError
    | AttributeError
    | IntegrityError
    | DataError
    | Http404

  /** What a Python call does: it returns a value or raises an exception. */
  datatype Outcome<+T> = Return(value: T) | Raise(exception: Exception)

  /** Serialized data: what `serializer.data` holds and what a response carries. */
  datatype Value =
    | Null
    | Bool(b: bool)
    | Int(i: int)
    | Num(r: real)
    | Str(s: string)
    | List(items: seq<Value>)
    | Obj(fields: map<string, Value>)

  /** The error codes of Django REST framework's field validation; `Message` is a
      `ValidationError` raised with a text of the application's own. */
  datatype FieldError =
    | Required
    | NotNull
    | Blank
    | MaxLength(limit: nat)
    | MinValue(bound: int)
    | MaxValue(bound: int)
    | InvalidChoice
    | WrongType
    | MaxStringLength
    | DoesNotExist
    | Unique
    | Message(text: string)

  /** The verdict of `serializer.is_valid()`: the validated data, or the errors by field. */
  datatype Validated<+T> = Accepted(value: T) | Rejected(errors: map<string, FieldError>)

  /** The verdict of one field of a serializer. */
  datatype Checked<+T> = FieldOk(value: T) | FieldErr(error: FieldError)

  /** Key under which a serializer reports errors raised by its `validate` method. */
  const NonFieldErrors: string := "non_field_errors"

  function ErrorCode(e: FieldError): string
  {
    match e
    case Required => "required"
    case NotNull => "null"
    case Blank => "blank"
    case MaxLength(_) => "max_length"
    case MinValue(_) => "min_value"
    case MaxValue(_) => "max_value"
    case InvalidChoice => "invalid_choice"
    case WrongType => "invalid"
    case MaxStringLength => "max_string_length"
    case DoesNotExist => "does_not_exist"
    case Unique => "unique"
    case Message(text) => text
  }

  /** `serializer.errors` as a payload: every failing field with the list of its errors. */
  function ErrorsBody(errors: map<string, FieldError>): (v: Value)
    ensures v.Obj? && v.fields.Keys == errors.Keys
  {
    Obj(map f | f in errors :: List([Str(ErrorCode(errors[f]))]))
  }

  /** The `{'detail': ...}` payload that the views return with an error status. */
  function Detail(text: string): Value
  {
    Obj(map["detail" := Str(text)])
  }

  datatype HttpMethod = GET | POST | PUT | PATCH | DELETE

  function MethodName(verb: HttpMethod): string
  {
    match verb
    case GET => "GET"
    case POST => "POST"
    case PUT => "PUT"
    case PATCH => "PATCH"
    case DELETE => "DELETE"
  }

  /** The detail of Django REST framework's `NotAuthenticated`, which `IsAuthenticated`
      raises for an anonymous request before the view body runs. With
      `SessionAuthentication` as the first authentication class it is answered with 403. */
  const NotAuthenticated: string := "Authentication credentials were not provided."

  /** What `IsAuthenticated` answers an anonymous request with. */
  const NotAuthenticatedResponse: Response := Response(HTTP_403_FORBIDDEN, Detail(NotAuthenticated))

  /** The detail of Django REST framework's `MethodNotAllowed` for a verb that `api_view`
      does not list. */
  function MethodNotAllowed(verb: HttpMethod): string
  {
    "Method \"" + MethodName(verb) + "\" not allowed."
  }

  /** What a view answers: a response with a status code and a payload, or an
      exception that escapes the view (which the framework turns into a 500). */
  datatype Response = Response(status: int, body: Value) | ServerError(exception: Exception)

  const HTTP_200_OK: int := 200
  const HTTP_201_CREATED: int := 201
  const HTTP_400_BAD_REQUEST: int := 400
  const HTTP_401_UNAUTHORIZED: int := 401
  const HTTP_403_FORBIDDEN: int := 403
  const HTTP_404_NOT_FOUND: int := 404
  const HTTP_405_METHOD_NOT_ALLOWED: int := 405
}
