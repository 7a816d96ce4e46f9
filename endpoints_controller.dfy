/**
 * The controller of `nexosapi.endpoints`: the checks made when a controller
 * class is defined, and a request manager whose pending request is a
 * request-model instance that operations replace one after another.
 */
module EndpointsController {
  import opened Wrappers
  import opened Text
  import opened EndpointFormat

  datatype SubclassError = MissingEndpoint | InvalidEndpoint(reason: EndpointError)

  /** `__init_subclass__`: direct `abc.ABC` subclasses pass; otherwise the endpoint must be set and valid. */
  function InitSubclass(abcIsDirectBase: bool, endpoint: Option<string>): (r: Option<SubclassError>)
    ensures abcIsDirectBase ==> r.None?
    ensures !abcIsDirectBase ==> (r.None? <==> endpoint.Some? && MatchesEndpointPattern(endpoint.value))
    ensures !abcIsDirectBase && endpoint.None? ==> r == Some(MissingEndpoint)
  {
    if abcIsDirectBase then None
    else if endpoint.None? then Some(MissingEndpoint)
    else
      ValidateOwnEndpoint(endpoint.value);
      match ValidateEndpoint(endpoint, endpoint.value)
      case None => None
      case Some(e) => Some(InvalidEndpoint(e))
  }

  /**
   * `NexosAIEndpointController._RequestManager`. A model instance is always
   * truthy, so "no pending request" is exactly `None`. `construct` is
   * `request_model(**data)` (`None` when validation fails) and `dumpModel`
   * is `model_dump()`, both given.
   */
  class RequestManager<M, D> {
    var pending: Option<M>
    const construct: D -> Option<M>
    const dumpModel: M -> D
    const emptyDump: D

    constructor (construct: D -> Option<M>, dumpModel: M -> D, emptyDump: D)
      ensures pending == None
      ensures this.construct == construct && this.dumpModel == dumpModel && this.emptyDump == emptyDump
    {
      this.construct := construct;
      this.dumpModel := dumpModel;
      this.emptyDump := emptyDump;
      pending := None;
    }

    /**
     * `prepare(data)`: only without a pending request is `data` validated
     * and made pending. A validation error leaves nothing pending and
     * returns `None`; otherwise the manager is returned.
     */
    method Prepare(data: D) returns (r: Option<RequestManager<M, D>>)
      modifies this`pending
      ensures r.Some? ==> r.value == this
      ensures old(pending).Some? ==> r.Some? && pending == old(pending)
      ensures old(pending).None? ==> pending == construct(data) && (r.Some? <==> pending.Some?)
    {
      if pending.None? {
        pending := construct(data);
        if pending.None? {
          return None;
        }
      }
      return Some(this);
    }

    /** `dump()`: the pending model's dump, or `{}` (`emptyDump`) when nothing is pending. */
    function Dump(): (r: D)
      reads this
      ensures pending.None? ==> r == emptyDump
      ensures pending.Some? ==> r == dumpModel(pending.value)
    {
      if pending.Some? then dumpModel(pending.value) else emptyDump
    }

    /** `_wrapped_operation(*args)`: the operation's result, given the pending request as it is, becomes pending. */
    method ApplyOperation<A>(op: (Option<M>, A) -> Option<M>, args: A) returns (r: RequestManager<M, D>)
      modifies this`pending
      ensures r == this && pending == op(old(pending), args)
    {
      pending := op(pending, args);
      return this;
    }
  }

  /** The request model of the functional test: two string fields. */
  datatype KeyValue = KeyValue(key: string, value: string)

  function WithUppercaseValue(request: Option<KeyValue>, u: ()): Option<KeyValue> {
    match request
    case None => None
    case Some(kv) => Some(kv.(value := Upper(kv.value)))
  }

  function WithSwitchedFieldValues(request: Option<KeyValue>, u: ()): Option<KeyValue> {
    match request
    case None => None
    case Some(kv) => Some(KeyValue(kv.value, kv.key))
  }

  function WithHardcodedValue(request: Option<KeyValue>, value: string): Option<KeyValue> {
    match request
    case None => None
    case Some(kv) => Some(kv.(value := value))
  }

  /**
   * Operations chained behind `prepare` compose left to right: upper-case,
   * swap, overwrite, upper-case, swap leaves the overwritten value upper-cased
   * as key and the original value upper-cased as value.
   */
  method ChainedOperationsCompose(key: string, value: string, hardcoded: string)
  {
    var manager := new RequestManager((d: KeyValue) => Some(d), (m: KeyValue) => m, KeyValue("", ""));
    var prepared := manager.Prepare(KeyValue(key, value));
    assert prepared == Some(manager);
    var m1 := manager.ApplyOperation(WithUppercaseValue, ());
    var m2 := m1.ApplyOperation(WithSwitchedFieldValues, ());
    var m3 := m2.ApplyOperation(WithHardcodedValue, hardcoded);
    var m4 := m3.ApplyOperation(WithUppercaseValue, ());
    var m5 := m4.ApplyOperation(WithSwitchedFieldValues, ());
    assert manager.pending == Some(KeyValue(Upper(hardcoded), Upper(value)));
  }
}
