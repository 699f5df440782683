/**
 * useFhevm: the React hook that owns one FHE instance for the current
 * provider. `refresh` cancels the request in flight, clears the state and,
 * when there is a provider and the hook is enabled, starts a new creation
 * with a fresh AbortController. A creation settles later: its instance makes
 * the hook "ready", its failure makes it "error".
 *
 * React state updates are modelled as field assignments that take effect at
 * once; the asynchronous settling of a creation is a separate method call that
 * receives the creation's outcome.
 */
module UseFhevm {
  import opened Wrappers
  import opened FhevmInstance

  /** `FhevmGoState`. */
  datatype GoState = Idle | Loading | Ready | Error

  /** `!provider` is false: a provider is given, and a URL provider is not the empty string. */
  predicate IsTruthy(provider: Option<Provider>) {
    provider.Some? && !(provider.value.RpcUrl? && provider.value.url == "")
  }

  class FhevmHook {
    var instance: Option<Instance>
    var status: GoState
    var error: Option<FhevmError>
    /** The controller of the creation in flight, or null. */
    var abortRef: AbortController?
    var providerRef: Option<Provider>

    /** The controller the hook holds is never one it has aborted. */
    predicate Valid()
      reads this, abortRef
    {
      abortRef != null ==> !abortRef.aborted
    }

    constructor (provider: Option<Provider>)
      ensures instance == None && status == Idle && error == None
      ensures abortRef == null && providerRef == provider
      ensures Valid()
    {
      instance, status, error := None, Idle, None;
      abortRef, providerRef := null, provider;
    }

    /**
     * `refresh`: aborts and forgets the previous controller, clears instance
     * and error, and starts a creation (returning its controller) exactly
     * when there is a provider and the hook is enabled.
     */
    method Refresh(provider: Option<Provider>, enabled: bool) returns (request: AbortController?)
      requires Valid()
      modifies this, abortRef
      ensures Valid()
      ensures old(abortRef) != null ==> old(abortRef).aborted
      ensures providerRef == provider && instance == None && error == None
      ensures request == abortRef
      ensures IsTruthy(provider) && enabled ==>
        status == Loading && request != null && fresh(request) && !request.aborted
      ensures !(IsTruthy(provider) && enabled) ==> status == Idle && request == null
    {
      if abortRef != null {
        abortRef.Abort();
        abortRef := null;
      }
      providerRef := provider;
      instance, error, status := None, None, Idle;
      if !IsTruthy(provider) || !enabled {
        return null;
      }
      abortRef := new AbortController();
      status := Loading;
      request := abortRef;
    }

    /**
     * The `.then`/`.catch` handlers as written: they drop the outcome only when
     * the controller the hook holds NOW is aborted. Because `refresh` never
     * leaves an aborted controller in place, a valid hook applies every
     * outcome, including one of a request that `refresh` superseded.
     */
    method SettleAsWritten(outcome: Outcome<Instance, FhevmError>)
      modifies this
      ensures abortRef == old(abortRef) && providerRef == old(providerRef)
      ensures abortRef != null && abortRef.aborted ==>
        instance == old(instance) && status == old(status) && error == old(error)
      ensures Valid() ==> Applied(old(instance), old(error), outcome)
    {
      if abortRef != null && abortRef.aborted {
        return;
      }
      Apply(outcome);
    }

    /**
     * The handlers with the guard on the request's own controller: the outcome
     * of a superseded (aborted) request is dropped, any other one applied.
     */
    method Settle(request: AbortController, outcome: Outcome<Instance, FhevmError>)
      modifies this
      ensures abortRef == old(abortRef) && providerRef == old(providerRef)
      ensures request.aborted ==>
        instance == old(instance) && status == old(status) && error == old(error)
      ensures !request.aborted ==> Applied(old(instance), old(error), outcome)
    {
      if request.aborted {
        return;
      }
      Apply(outcome);
    }

    /** What a handler that runs does: an instance makes the hook ready, a failure makes it fail. */
    predicate Applied(oldInstance: Option<Instance>, oldError: Option<FhevmError>,
                      outcome: Outcome<Instance, FhevmError>)
      reads this
    {
      match outcome
      case Ok(i) => instance == Some(i) && status == Ready && error == oldError
      case Threw(e) => error == Some(e) && status == Error && instance == oldInstance
    }

    method Apply(outcome: Outcome<Instance, FhevmError>)
      modifies this
      ensures abortRef == old(abortRef) && providerRef == old(providerRef)
      ensures Applied(old(instance), old(error), outcome)
    {
      match outcome
      case Ok(i) =>
        instance := Some(i);
        status := Ready;
      case Threw(e) =>
        error := Some(e);
        status := Error;
    }
  }

  /**
   * As written: the provider changes while a creation is in flight; the new
   * creation succeeds, then the superseded one rejects with the abort error it
   * raises because its signal was aborted. The hook ends in "error", with the
   * abort error, although its current instance is ready.
   */
  method StaleRejectionAsWritten(first: Provider, second: Provider, ready: Instance)
    returns (h: FhevmHook)
    requires IsTruthy(Some(first)) && IsTruthy(Some(second))
    ensures h.status == Error && h.error == Some(AbortError) && h.instance == Some(ready)
  {
    h := new FhevmHook(None);
    var c1 := h.Refresh(Some(first), true);
    var c2 := h.Refresh(Some(second), true);
    h.SettleAsWritten(Ok(ready));
    h.SettleAsWritten(Threw(AbortError));
  }

  /** The same sequence with the request's own controller checked: the hook stays ready. */
  method StaleRejectionDropped(first: Provider, second: Provider, ready: Instance)
    returns (h: FhevmHook)
    requires IsTruthy(Some(first)) && IsTruthy(Some(second))
    ensures h.status == Ready && h.error == None && h.instance == Some(ready)
  {
    h := new FhevmHook(None);
    var c1 := h.Refresh(Some(first), true);
    var c2 := h.Refresh(Some(second), true);
    h.Settle(c2, Ok(ready));
    h.Settle(c1, Threw(AbortError));
  }

  /**
   * As written, a superseded request that ends on the mock path (which never
   * checks its signal) installs the instance built for the previous provider.
   */
  method StaleInstanceAsWritten(first: Provider, second: Provider, stale: Instance)
    returns (h: FhevmHook)
    requires IsTruthy(Some(first)) && IsTruthy(Some(second))
    ensures h.status == Ready && h.instance == Some(stale) && h.providerRef == Some(second)
  {
    h := new FhevmHook(None);
    var c1 := h.Refresh(Some(first), true);
    var c2 := h.Refresh(Some(second), true);
    h.SettleAsWritten(Ok(stale));
  }

  /** With the request's own controller checked, the stale instance is dropped and the hook keeps loading. */
  method StaleInstanceDropped(first: Provider, second: Provider, stale: Instance)
    returns (h: FhevmHook)
    requires IsTruthy(Some(first)) && IsTruthy(Some(second))
    ensures h.status == Loading && h.instance == None && h.providerRef == Some(second)
  {
    h := new FhevmHook(None);
    var c1 := h.Refresh(Some(first), true);
    var c2 := h.Refresh(Some(second), true);
    h.Settle(c1, Ok(stale));
  }
}
