/** The service a request is routed to and the per-request context the proxy
    threads through its phases. */
module Types {
  import opened Text

  /** The seven backends a request can be routed to. */
  datatype ServiceType =
    | CoreApi
    | ChallengeApi
    | BillingApi
    | ErirApi
    | SharedApi
    | ZitadelAuth
    | Static

  /** Every service type, in declaration order. */
  const AllServices: seq<ServiceType> :=
    [CoreApi, ChallengeApi, BillingApi, ErirApi, SharedApi, ZitadelAuth, Static]

  /** There are exactly seven service types, each listed once. */
  lemma AllServicesComplete(s: ServiceType)
    ensures s in AllServices
    ensures |AllServices| == 7
    ensures forall i, j :: 0 <= i < j < |AllServices| ==> AllServices[i] != AllServices[j]
  {
  }

  /** The per-request context; `upstream_port` is a u16 and `retries` a u32. The
      start time is not part of this model. */
  datatype RequestContext = RequestContext(
    serviceType: ServiceType,
    upstreamHost: string,
    upstreamPort: nat,
    retries: nat)
  {
    predicate Valid() {
      upstreamPort <= U16Max && retries <= U32Max
    }
  }

  /** `RequestContext::new` (and `Default`): a Static route with no upstream yet. */
  function NewContext(): (c: RequestContext)
    ensures c.serviceType == Static
    ensures c.upstreamHost == "" && c.upstreamPort == 0 && c.retries == 0
    ensures c.Valid()
  {
    RequestContext(Static, "", 0, 0)
  }
}
