/** The API's exception hierarchy: the status code and error code every
    class declares or inherits, the detail dictionaries the constructors fill
    in (in place, and shared with the caller when the caller passed a
    non-empty one), and the error body `to_dict` produces. */
module Exceptions {
  import opened Wrappers
  import opened PyDateTime

  // ---------------------------------------------------------------- details

  /** A value stored in a `details` dictionary. */
  datatype DetailValue =
    | Text(text: string)
    | Number(number: int)
    | TextList(items: seq<string>)
      /** `str(e)` of a ValueError raised inside the datetime library; its
          wording is the library's and is not modelled. */
    | LibraryMessage

  /** A Python dict as its entries in insertion order. */
  type Entries = seq<(string, DetailValue)>

  function Keys(d: Entries): (ks: seq<string>)
    ensures |ks| == |d|
  {
    if d == [] then [] else [d[0].0] + Keys(d[1..])
  }

  /** No key occurs twice, as in every dict. */
  predicate DistinctKeys(d: Entries) {
    var ks := Keys(d);
    forall i, j | 0 <= i < j < |ks| :: ks[i] != ks[j]
  }

  /** `d.get(k)`. */
  function Lookup(d: Entries, k: string): (v: Option<DetailValue>)
    ensures v.Some? <==> k in Keys(d)
    ensures v.Some? ==> (k, v.value) in d
  {
    if d == [] then None
    else if d[0].0 == k then Some(d[0].1)
    else Lookup(d[1..], k)
  }

  /** `d[k] = v`: an existing key keeps its place and takes the new value, a
      new key goes last. */
  function Assign(d: Entries, k: string, v: DetailValue): (r: Entries)
    ensures Lookup(r, k) == Some(v)
    ensures forall k' | k' != k :: Lookup(r, k') == Lookup(d, k')
  {
    if d == [] then [(k, v)]
    else if d[0].0 == k then [(k, v)] + d[1..]
    else [d[0]] + Assign(d[1..], k, v)
  }

  /** Assigning keeps the existing keys in place and appends only a new one,
      so the keys stay distinct. */
  lemma AssignKeys(d: Entries, k: string, v: DetailValue)
    ensures Keys(Assign(d, k, v)) == if k in Keys(d) then Keys(d) else Keys(d) + [k]
    ensures DistinctKeys(d) ==> DistinctKeys(Assign(d, k, v))
  {
    AssignKeyOrder(d, k, v);
  }

  lemma {:induction false} AssignKeyOrder(d: Entries, k: string, v: DetailValue)
    ensures Keys(Assign(d, k, v)) == if k in Keys(d) then Keys(d) else Keys(d) + [k]
  {
    if d == [] {
      assert Keys([(k, v)]) == [k] + Keys([]);
    } else {
      var rest := Assign(d[1..], k, v);
      assert Keys(d) == [d[0].0] + Keys(d[1..]);
      if d[0].0 == k {
        assert Assign(d, k, v) == [(k, v)] + d[1..];
        assert ([(k, v)] + d[1..])[1..] == d[1..];
      } else {
        AssignKeyOrder(d[1..], k, v);
        assert Assign(d, k, v) == [d[0]] + rest;
        assert ([d[0]] + rest)[1..] == rest;
        assert k in Keys(d) <==> k in Keys(d[1..]);
      }
    }
  }

  /** A mutable dict object, which several exceptions and their caller can
      share. */
  class DetailMap {
    var entries: Entries

    /** `{}` */
    constructor Empty()
      ensures entries == []
    {
      entries := [];
    }

    /** `self[key] = value` */
    method Put(key: string, value: DetailValue)
      modifies this
      ensures entries == Assign(old(entries), key, value)
    {
      entries := Assign(entries, key, value);
    }
  }

  // ---------------------------------------------------------------- classes

  /** The exception classes, each standing for its Python class. */
  datatype ErrorClass =
    | BaseApi
    | Database | Connection | Query | Timeout
    | Validation | InvalidTimeFormat | InvalidSymbol
    | ResourceNotFound | DataNotFound

  /** The class each one derives from; BaseApi derives only from Exception. */
  function Parent(c: ErrorClass): Option<ErrorClass> {
    match c
    case BaseApi => None
    case Database | Validation | ResourceNotFound => Some(BaseApi)
    case Connection | Query | Timeout => Some(Database)
    case InvalidTimeFormat | InvalidSymbol => Some(Validation)
    case DataNotFound => Some(ResourceNotFound)
  }

  /** Distance from BaseApi in the class tree. */
  function Depth(c: ErrorClass): nat {
    match c
    case BaseApi => 0
    case Database | Validation | ResourceNotFound => 1
    case _ => 2
  }

  /** `issubclass(c, a)` */
  predicate IsSubclass(c: ErrorClass, a: ErrorClass)
    decreases Depth(c)
  {
    c == a || (Parent(c).Some? && IsSubclass(Parent(c).value, a))
  }

  /** The `status_code` a class body assigns, if it assigns one. */
  function DeclaredStatus(c: ErrorClass): Option<int> {
    match c
    case BaseApi => Some(500)
    case Database => Some(503)
    case Validation => Some(422)
    case ResourceNotFound => Some(404)
    case _ => None
  }

  /** The class attribute `error_code`; every class assigns its own. */
  function ClassErrorCode(c: ErrorClass): string {
    match c
    case BaseApi => "INTERNAL_ERROR"
    case Database => "DATABASE_ERROR"
    case Connection => "DATABASE_CONNECTION_ERROR"
    case Query => "DATABASE_QUERY_ERROR"
    case Timeout => "DATABASE_TIMEOUT_ERROR"
    case Validation => "VALIDATION_ERROR"
    case InvalidTimeFormat => "INVALID_TIME_FORMAT"
    case InvalidSymbol => "INVALID_SYMBOL"
    case ResourceNotFound => "RESOURCE_NOT_FOUND"
    case DataNotFound => "DATA_NOT_FOUND"
  }

  /** The class attribute `status_code` as Python finds it: the class's own
      assignment, else the nearest ancestor's. */
  function ClassStatus(c: ErrorClass): int
    decreases Depth(c)
  {
    if DeclaredStatus(c).Some? then DeclaredStatus(c).value
    else if Parent(c).Some? then ClassStatus(Parent(c).value)
    else 500
  }

  /** Every class is an API exception, and the three families answer with
      their family's status: database errors 503, validation errors 422,
      missing resources 404, anything else 500. */
  lemma StatusByFamily(c: ErrorClass)
    ensures IsSubclass(c, BaseApi)
    ensures ClassStatus(c) == if IsSubclass(c, Database) then 503
                              else if IsSubclass(c, Validation) then 422
                              else if IsSubclass(c, ResourceNotFound) then 404
                              else 500
  {
  }

  /** The concrete errors each carry their own code, distinct from every other
      class's. */
  lemma ErrorCodesDistinct(c: ErrorClass, d: ErrorClass)
    ensures ClassErrorCode(c) == ClassErrorCode(d) <==> c == d
  {
  }

  // ---------------------------------------------------------------- detail rules

  /** Python truthiness of an optional string: present and non-empty. */
  predicate Given(s: Option<string>) {
    s.Some? && s.value != ""
  }

  const PreviewLength: nat := 100

  /** `query[:100] + "..." if len(query) > 100 else query` */
  function QueryPreview(query: string): (p: string)
    ensures |query| <= PreviewLength ==> p == query
    ensures |query| > PreviewLength ==> |p| == PreviewLength + 3
                                         && p[..PreviewLength] == query[..PreviewLength]
                                         && p[PreviewLength..] == "..."
  {
    if |query| > PreviewLength then query[..PreviewLength] + "..." else query
  }

  /** The entries `QueryError` leaves in its details. */
  function QueryDetails(d: Entries, query: Option<string>): (r: Entries)
    ensures Given(query) ==> Lookup(r, "query_preview") == Some(Text(QueryPreview(query.value)))
    ensures !Given(query) ==> r == d
    ensures forall k | k != "query_preview" :: Lookup(r, k) == Lookup(d, k)
  {
    if Given(query) then Assign(d, "query_preview", Text(QueryPreview(query.value))) else d
  }

  /** The entries `TimeoutError` leaves: `timeout_seconds` for a non-zero
      timeout only. */
  function TimeoutDetails(d: Entries, timeout: Option<int>): (r: Entries)
    ensures timeout.Some? && timeout.value != 0 ==> Lookup(r, "timeout_seconds") == Some(Number(timeout.value))
    ensures !(timeout.Some? && timeout.value != 0) ==> r == d
    ensures forall k | k != "timeout_seconds" :: Lookup(r, k) == Lookup(d, k)
  {
    if timeout.Some? && timeout.value != 0 then Assign(d, "timeout_seconds", Number(timeout.value)) else d
  }

  /** The entries `InvalidTimeFormatError` leaves: `provided` when given, and
      `expected_format` always. */
  function TimeFormatDetails(d: Entries, provided: Option<string>, expected: string): (r: Entries)
    ensures Lookup(r, "expected_format") == Some(Text(expected))
    ensures Given(provided) ==> Lookup(r, "provided") == Some(Text(provided.value))
    ensures !Given(provided) ==> Lookup(r, "provided") == Lookup(d, "provided")
    ensures forall k | k != "provided" && k != "expected_format" :: Lookup(r, k) == Lookup(d, k)
  {
    var withProvided := if Given(provided) then Assign(d, "provided", Text(provided.value)) else d;
    Assign(withProvided, "expected_format", Text(expected))
  }

  /** The entries an exception that records one optional name leaves (`symbol`
      for InvalidSymbolError, `resource` for DataNotFoundError). */
  function NamedDetails(d: Entries, key: string, name: Option<string>): (r: Entries)
    ensures Given(name) ==> Lookup(r, key) == Some(Text(name.value))
    ensures !Given(name) ==> r == d
    ensures forall k | k != key :: Lookup(r, k) == Lookup(d, k)
  {
    if Given(name) then Assign(d, key, Text(name.value)) else d
  }

  /** What `details or {}` yields as contents: the caller's entries, or none. */
  function Initial(details: DetailMap?): Entries
    reads details
  {
    if details == null then [] else details.entries
  }

  // ---------------------------------------------------------------- exceptions

  /** The body `to_dict` returns. */
  datatype ErrorBody = ErrorBody(success: bool, errorCode: string, message: string,
                                 details: Entries, timestamp: string)

  /** An API exception object of class `cls`. */
  class ApiError {
    const cls: ErrorClass
    var message: string
    var statusCode: int
    var errorCode: string
    var details: DetailMap

    /** `BaseAPIException.__init__`, the constructor of the classes that do not
        define their own. A status or code given replaces the class default;
        `details or {}` keeps a non-empty caller dict itself and otherwise
        starts an empty one. */
    constructor Base(cls: ErrorClass, message: string, statusCode: Option<int> := None,
                     errorCode: Option<string> := None, details: DetailMap? := null)
      requires cls == BaseApi || cls == Database || cls == Validation || cls == ResourceNotFound
      ensures this.cls == cls && this.message == message
      ensures this.statusCode == statusCode.GetOr(ClassStatus(cls))
      ensures this.errorCode == errorCode.GetOr(ClassErrorCode(cls))
      ensures details != null && details.entries != [] ==> this.details == details
      ensures !(details != null && details.entries != []) ==> fresh(this.details)
      ensures this.details.entries == Initial(details)
    {
      this.cls := cls;
      this.message := message;
      this.statusCode := statusCode.GetOr(ClassStatus(cls));
      this.errorCode := errorCode.GetOr(ClassErrorCode(cls));
      if details != null && details.entries != [] {
        this.details := details;
      } else {
        this.details := new DetailMap.Empty();
      }
    }

    /** `ConnectionError(message="Unable to connect to database", details=None)` */
    constructor ConnectionError(message: string := "Unable to connect to database",
                                details: DetailMap? := null)
      ensures cls == Connection && this.message == message
      ensures statusCode == 503 && errorCode == "DATABASE_CONNECTION_ERROR"
      ensures details != null && details.entries != [] ==> this.details == details
      ensures !(details != null && details.entries != []) ==> fresh(this.details)
      ensures this.details.entries == Initial(details)
    {
      cls := Connection;
      this.message := message;
      statusCode := ClassStatus(Connection);
      errorCode := ClassErrorCode(Connection);
      if details != null && details.entries != [] {
        this.details := details;
      } else {
        this.details := new DetailMap.Empty();
      }
    }

    /** `QueryError(message="Failed to execute database query", query=None,
        details=None)`: a given query is previewed under `query_preview`, and
        a non-empty caller dict receives that key itself. */
    constructor QueryError(message: string := "Failed to execute database query",
                           query: Option<string> := None, details: DetailMap? := null)
      modifies details
      ensures cls == Query && this.message == message
      ensures statusCode == 503 && errorCode == "DATABASE_QUERY_ERROR"
      ensures old(details != null && details.entries != []) ==> this.details == details
      ensures !old(details != null && details.entries != []) ==> fresh(this.details)
      ensures this.details.entries == QueryDetails(old(Initial(details)), query)
      ensures old(details != null && details.entries == []) ==> details.entries == []
    {
      var d: DetailMap;
      if details != null && details.entries != [] {
        d := details;
      } else {
        d := new DetailMap.Empty();
      }
      if Given(query) {
        d.Put("query_preview", Text(QueryPreview(query.value)));
      }
      cls := Query;
      this.message := message;
      statusCode := ClassStatus(Query);
      errorCode := ClassErrorCode(Query);
      if d.entries != [] {
        this.details := d;
      } else {
        this.details := new DetailMap.Empty();
      }
    }

    /** `TimeoutError(message="Database query timed out", timeout=None,
        details=None)`: a non-zero timeout is recorded as `timeout_seconds`. */
    constructor TimeoutError(message: string := "Database query timed out",
                             timeout: Option<int> := None, details: DetailMap? := null)
      modifies details
      ensures cls == Timeout && this.message == message
      ensures statusCode == 503 && errorCode == "DATABASE_TIMEOUT_ERROR"
      ensures old(details != null && details.entries != []) ==> this.details == details
      ensures !old(details != null && details.entries != []) ==> fresh(this.details)
      ensures this.details.entries == TimeoutDetails(old(Initial(details)), timeout)
      ensures old(details != null && details.entries == []) ==> details.entries == []
    {
      var d: DetailMap;
      if details != null && details.entries != [] {
        d := details;
      } else {
        d := new DetailMap.Empty();
      }
      if timeout.Some? && timeout.value != 0 {
        d.Put("timeout_seconds", Number(timeout.value));
      }
      cls := Timeout;
      this.message := message;
      statusCode := ClassStatus(Timeout);
      errorCode := ClassErrorCode(Timeout);
      if d.entries != [] {
        this.details := d;
      } else {
        this.details := new DetailMap.Empty();
      }
    }

    /** `InvalidTimeFormatError(message="Invalid time format", provided=None,
        expected="YYYYMMDD-HHmm", details=None)`: `provided` is recorded when
        given and `expected_format` always, so the details are never empty. */
    constructor InvalidTimeFormatError(message: string := "Invalid time format",
                                       provided: Option<string> := None,
                                       expected: string := "YYYYMMDD-HHmm",
                                       details: DetailMap? := null)
      modifies details
      ensures cls == InvalidTimeFormat && this.message == message
      ensures statusCode == 422 && errorCode == "INVALID_TIME_FORMAT"
      ensures old(details != null && details.entries != []) ==> this.details == details
      ensures !old(details != null && details.entries != []) ==> fresh(this.details)
      ensures this.details.entries == TimeFormatDetails(old(Initial(details)), provided, expected)
      ensures old(details != null && details.entries == []) ==> details.entries == []
    {
      var d: DetailMap;
      if details != null && details.entries != [] {
        d := details;
      } else {
        d := new DetailMap.Empty();
      }
      ghost var start := d.entries;
      assert start == old(Initial(details));
      if Given(provided) {
        d.Put("provided", Text(provided.value));
      }
      assert d.entries == if Given(provided) then Assign(start, "provided", Text(provided.value)) else start;
      d.Put("expected_format", Text(expected));
      cls := InvalidTimeFormat;
      this.message := message;
      statusCode := ClassStatus(InvalidTimeFormat);
      errorCode := ClassErrorCode(InvalidTimeFormat);
      this.details := d;
    }

    /** `InvalidSymbolError(message="Invalid symbol format", symbol=None,
        details=None)`: a given symbol is recorded under `symbol`. */
    constructor InvalidSymbolError(message: string := "Invalid symbol format",
                                   symbol: Option<string> := None, details: DetailMap? := null)
      modifies details
      ensures cls == InvalidSymbol && this.message == message
      ensures statusCode == 422 && errorCode == "INVALID_SYMBOL"
      ensures old(details != null && details.entries != []) ==> this.details == details
      ensures !old(details != null && details.entries != []) ==> fresh(this.details)
      ensures this.details.entries == NamedDetails(old(Initial(details)), "symbol", symbol)
      ensures old(details != null && details.entries == []) ==> details.entries == []
    {
      var d: DetailMap;
      if details != null && details.entries != [] {
        d := details;
      } else {
        d := new DetailMap.Empty();
      }
      if Given(symbol) {
        d.Put("symbol", Text(symbol.value));
      }
      cls := InvalidSymbol;
      this.message := message;
      statusCode := ClassStatus(InvalidSymbol);
      errorCode := ClassErrorCode(InvalidSymbol);
      if d.entries != [] {
        this.details := d;
      } else {
        this.details := new DetailMap.Empty();
      }
    }

    /** `DataNotFoundError(message="No data found for the given parameters",
        resource=None, details=None)`: a given resource is recorded under
        `resource`. */
    constructor DataNotFoundError(message: string := "No data found for the given parameters",
                                  resource: Option<string> := None, details: DetailMap? := null)
      modifies details
      ensures cls == DataNotFound && this.message == message
      ensures statusCode == 404 && errorCode == "DATA_NOT_FOUND"
      ensures old(details != null && details.entries != []) ==> this.details == details
      ensures !old(details != null && details.entries != []) ==> fresh(this.details)
      ensures this.details.entries == NamedDetails(old(Initial(details)), "resource", resource)
      ensures old(details != null && details.entries == []) ==> details.entries == []
    {
      var d: DetailMap;
      if details != null && details.entries != [] {
        d := details;
      } else {
        d := new DetailMap.Empty();
      }
      if Given(resource) {
        d.Put("resource", Text(resource.value));
      }
      cls := DataNotFound;
      this.message := message;
      statusCode := ClassStatus(DataNotFound);
      errorCode := ClassErrorCode(DataNotFound);
      if d.entries != [] {
        this.details := d;
      } else {
        this.details := new DetailMap.Empty();
      }
    }

    /** `to_dict()`, stamped with the `datetime.utcnow()` reading `now`. */
    function ToDict(now: DateTime): (body: ErrorBody)
      requires Valid(now) && now.zone == Naive
      reads this, details
      ensures !body.success
      ensures body.errorCode == errorCode && body.message == message
      ensures body.details == details.entries
      ensures body.timestamp == IsoFormat(now, 'T')
    {
      ErrorBody(false, errorCode, message, details.entries, IsoFormat(now, 'T'))
    }
  }
}
