/**
 * The asynchronous controller of `nexosapi.api`: the checks made when a
 * controller class is defined, and its request manager, which holds the
 * pending request as a JSON-like dictionary together with the last request
 * that was sent or rejected.
 */
module ApiController {
  import opened Wrappers
  import opened EndpointFormat

  /** Why defining a controller subclass raises. */
  datatype SubclassError = MissingModels | MissingEndpoint | InvalidEndpoint(reason: EndpointError)

  /**
   * `__init_subclass__`: a class with `abc.ABC` among its direct bases is
   * not checked; otherwise both models, then the endpoint, then its format.
   */
  function InitSubclass(abcIsDirectBase: bool, hasRequestModel: bool, hasResponseModel: bool,
                        endpoint: Option<string>): (r: Option<SubclassError>)
    ensures abcIsDirectBase ==> r.None?
    ensures !abcIsDirectBase ==>
              (r.None? <==> hasRequestModel && hasResponseModel && endpoint.Some?
                            && MatchesEndpointPattern(endpoint.value))
    ensures !abcIsDirectBase && !(hasRequestModel && hasResponseModel) ==> r == Some(MissingModels)
    ensures !abcIsDirectBase && hasRequestModel && hasResponseModel && endpoint.None? ==> r == Some(MissingEndpoint)
  {
    if abcIsDirectBase then None
    else if !hasRequestModel || !hasResponseModel then Some(MissingModels)
    else if endpoint.None? then Some(MissingEndpoint)
    else
      ValidateOwnEndpoint(endpoint.value);
      match ValidateEndpoint(endpoint, endpoint.value)
      case None => None
      case Some(e) => Some(InvalidEndpoint(e))
  }

  /**
   * The values a request dictionary holds: what `json.dumps` writes (a
   * number keeps its literal text), plus `Opaque`, any other Python value
   * such as the `bytes` a file upload carries, which `json.dumps` rejects.
   */
  datatype Json =
    | JNull
    | JBool(b: bool)
    | JNum(text: string)
    | JStr(s: string)
    | JArray(items: seq<Json>)
    | JObject(members: seq<Member>)
    | Opaque(pythonType: string)

  datatype Member = Member(key: string, value: Json)

  /**
   * A request dictionary, `dict[str, Any]`, in insertion order. A Python
   * dictionary never repeats a key; nothing below depends on that.
   */
  type Payload = seq<Member>

  /** `json.dumps(v)` succeeds: no value inside is `Opaque`. */
  predicate Encodable(v: Json) {
    match v
    case Opaque(_) => false
    case JArray(items) => forall k :: 0 <= k < |items| ==> Encodable(items[k])
    case JObject(members) => forall k :: 0 <= k < |members| ==> Encodable(members[k].value)
    case _ => true
  }

  /** `not value` is false: the dictionary exists and is not empty. */
  predicate Truthy(p: Option<Payload>) {
    p.Some? && |p.value| > 0
  }

  /**
   * `json.loads(json.dumps(v), parse_int=…, parse_float=…, parse_constant=…)`
   * with identity hooks: every number, `NaN` and `Infinity` come back as the
   * string of their literal text; everything else is rebuilt as it was.
   */
  function Reparse(v: Json): Json {
    match v
    case JNum(text) => JStr(text)
    case JArray(items) => JArray(ReparseAll(items))
    case JObject(members) => JObject(ReparseMembers(members))
    case _ => v
  }

  function ReparseAll(items: seq<Json>): (r: seq<Json>)
    ensures |r| == |items|
  {
    if items == [] then [] else [Reparse(items[0])] + ReparseAll(items[1..])
  }

  function ReparseMembers(members: seq<Member>): (r: seq<Member>)
    ensures |r| == |members|
  {
    if members == [] then []
    else [Member(members[0].key, Reparse(members[0].value))] + ReparseMembers(members[1..])
  }

  predicate NoNumbers(v: Json) {
    match v
    case JNum(_) => false
    case JArray(items) => forall k :: 0 <= k < |items| ==> NoNumbers(items[k])
    case JObject(members) => forall k :: 0 <= k < |members| ==> NoNumbers(members[k].value)
    case _ => true
  }

  /** After the round trip no number is left, keys keep their order, and a second round trip changes nothing. */
  lemma {:induction false} ReparseNormalizes(v: Json)
    ensures NoNumbers(Reparse(v))
    ensures Reparse(Reparse(v)) == Reparse(v)
  {
    match v
    case JArray(items) => ReparseAllNormalizes(items);
    case JObject(members) => ReparseMembersNormalizes(members);
    case _ =>
  }

  lemma {:induction false} ReparseAllNormalizes(items: seq<Json>)
    ensures forall k :: 0 <= k < |items| ==> ReparseAll(items)[k] == Reparse(items[k])
    ensures forall k :: 0 <= k < |items| ==> NoNumbers(ReparseAll(items)[k])
    ensures ReparseAll(ReparseAll(items)) == ReparseAll(items)
    decreases items, 0
  {
    if items != [] {
      ReparseNormalizes(items[0]);
      ReparseAllNormalizes(items[1..]);
      var r := ReparseAll(items);
      assert r[1..] == ReparseAll(items[1..]);
    }
  }

  lemma {:induction false} ReparseMembersNormalizes(members: seq<Member>)
    ensures forall k :: 0 <= k < |members| ==>
              ReparseMembers(members)[k] == Member(members[k].key, Reparse(members[k].value))
    ensures forall k :: 0 <= k < |members| ==> NoNumbers(ReparseMembers(members)[k].value)
    ensures ReparseMembers(ReparseMembers(members)) == ReparseMembers(members)
    decreases members, 0
  {
    if members != [] {
      ReparseNormalizes(members[0].value);
      ReparseMembersNormalizes(members[1..]);
      var r := ReparseMembers(members);
      assert r[1..] == ReparseMembers(members[1..]);
    }
  }

  /**
   * `NexosAIAPIEndpointController._RequestManager`. The request model is
   * given by what the manager uses of it: `construct` is `request_model(**data)`
   * (`None` when pydantic raises `ValidationError`), `dumpModel` is
   * `model_dump(exclude_none=True)` and `nullModel` is `request_model.null()`.
   */
  class RequestManager<M(!new)> {
    var pending: Option<Payload>
    var lastRequest: Option<Payload>
    const construct: Payload -> Option<M>
    const dumpModel: M -> Payload
    const nullModel: M

    /** A request dictionary produced by dumping some model instance, or no dictionary at all. */
    ghost predicate IsDump(p: Option<Payload>) {
      p.None? || exists m: M :: dumpModel(m) == p.value
    }

    /** Everything the manager holds came out of `model_dump`. */
    ghost predicate Valid()
      reads this
    {
      IsDump(pending) && IsDump(lastRequest)
    }

    constructor (construct: Payload -> Option<M>, dumpModel: M -> Payload, nullModel: M)
      ensures Valid()
      ensures pending == None && lastRequest == None
      ensures this.construct == construct && this.dumpModel == dumpModel && this.nullModel == nullModel
    {
      this.construct := construct;
      this.dumpModel := dumpModel;
      this.nullModel := nullModel;
      pending := None;
      lastRequest := None;
    }

    /**
     * `prepare(data)`: a pending request that is set and non-empty is kept;
     * otherwise `data` is validated and its dump becomes pending. On a
     * validation error the old pending moves to `lastRequest`, pending is
     * cleared and the call returns `None`; otherwise it returns the manager.
     */
    method Prepare(data: Payload) returns (r: Option<RequestManager<M>>)
      requires Valid()
      modifies this`pending, this`lastRequest
      ensures Valid()
      ensures r.Some? ==> r.value == this
      ensures Truthy(old(pending)) ==> r.Some? && pending == old(pending) && lastRequest == old(lastRequest)
      ensures !Truthy(old(pending)) && construct(data).Some? ==>
                r.Some? && pending == Some(dumpModel(construct(data).value)) && lastRequest == old(lastRequest)
      ensures !Truthy(old(pending)) && construct(data).None? ==>
                r.None? && pending.None? && lastRequest == old(pending)
      ensures r.None? ==> !Truthy(lastRequest)
    {
      if !Truthy(pending) {
        var validated := construct(data);
        if validated.None? {
          lastRequest := pending;
          pending := None;
          return None;
        }
        pending := Some(dumpModel(validated.value));
      }
      return Some(this);
    }

    /**
     * `dump()`: the pending request after a JSON round trip, or `{}` when
     * there is none; `json.dumps` raises `TypeError` when a pending value
     * cannot be encoded.
     */
    function Dump(): (r: Result<Payload, string>)
      reads this
      ensures !Truthy(pending) ==> r == Success([])
      ensures Truthy(pending) ==>
                (r.Failure? <==> exists k :: 0 <= k < |pending.value| && !Encodable(pending.value[k].value))
      ensures r.Failure? ==> r.error == "TypeError"
      ensures Truthy(pending) && r.Success? ==> |r.value| == |pending.value|
      ensures Truthy(pending) && r.Success? ==>
                forall k :: 0 <= k < |r.value| ==> r.value[k].key == pending.value[k].key
                                                   && r.value[k].value == Reparse(pending.value[k].value)
                                                   && NoNumbers(r.value[k].value)
    {
      if !Truthy(pending) then Success([])
      else if exists k :: 0 <= k < |pending.value| && !Encodable(pending.value[k].value) then Failure("TypeError")
      else
        ReparseMembersNormalizes(pending.value);
        Success(ReparseMembers(pending.value))
    }

    /** `reload_last()`: a remembered request becomes pending again; the manager is returned. */
    method ReloadLast() returns (r: RequestManager<M>)
      requires Valid()
      modifies this`pending
      ensures Valid() && r == this
      ensures old(lastRequest).Some? ==> pending == old(lastRequest)
      ensures old(lastRequest).None? ==> pending == old(pending)
    {
      if lastRequest.Some? {
        pending := lastRequest;
      }
      return this;
    }

    /** The request model accepts every dictionary it dumps (`request_model(**m.model_dump(...))` does not raise). */
    ghost predicate DumpRevalidates() {
      forall m: M :: construct(dumpModel(m)).Some?
    }

    /**
     * Since the pending request always comes out of `model_dump`, an
     * operation can only meet a `ValidationError` when the request model
     * rejects one of its own dumps.
     */
    lemma OperationInputDefined()
      requires Valid() && DumpRevalidates()
      ensures OperationInput().Some?
    {
      if Truthy(pending) {
        var m :| dumpModel(m) == pending.value;
        assert construct(dumpModel(m)).Some?;
      }
    }

    /** The model an operation receives: the pending request re-validated, or the null model. */
    function OperationInput(): (r: Option<M>)
      reads this
      ensures !Truthy(pending) ==> r == Some(nullModel)
      ensures Truthy(pending) ==> r == construct(pending.value)
    {
      if Truthy(pending) then construct(pending.value) else Some(nullModel)
    }

    /**
     * `_wrapped_operation(*args)`: apply the operation to the current
     * request model and keep the dump of its result as pending. A pending
     * request that no longer validates raises `ValidationError` out of the
     * call (`Failure`), leaving the manager unchanged.
     */
    method ApplyOperation<A>(op: (M, A) -> M, args: A) returns (r: Result<RequestManager<M>, string>)
      requires Valid()
      modifies this`pending
      ensures Valid()
      ensures old(OperationInput()).Some? ==>
                r == Success(this) && pending == Some(dumpModel(op(old(OperationInput()).value, args)))
      ensures old(OperationInput()).None? ==> r.Failure? && pending == old(pending)
      ensures DumpRevalidates() ==> r.Success?
    {
      var input := OperationInput();
      if DumpRevalidates() {
        OperationInputDefined();
      }
      if input.None? {
        return Failure("ValidationError");
      }
      pending := Some(dumpModel(op(input.value, args)));
      return Success(this);
    }
  }
}
