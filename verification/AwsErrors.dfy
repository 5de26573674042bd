/**
  AWS provisioning errors.  The program classifies an error by searching its text, and joins
  errors by concatenating their texts, so an error is the set of phrases that occur in it and a
  join is a union.
 */
module AwsErrors {
  import opened Common

  datatype Phrase =
    | InsufficientInstanceCapacity
    | UnfulfillableCapacity
    | MaxSpotInstanceCountExceeded
    | VcpuLimitExceeded
    | InvalidHostIDNotFound
    | NoAmiFound
    | NoMacDedicatedHost
    | Unsupported
    | InvalidParameterValue
    | InvalidParameterCombination
    | FreeTier
    | Eligible
    | InstanceTypeWord
    | InstanceTypePhrase
    | SpotWord
    | QuotaWord
    | CapacityWord

  type Err = set<Phrase>

  /** The API codes after which the program knows that no instance exists and none will. */
  const TerminalCodes: set<string> :=
    {"AuthFailure", "Blocked", "InvalidClientTokenId", "OptInRequired", "PendingVerification",
     "UnauthorizedOperation"}

  predicate WrongCombination(e: Err) {
    InvalidParameterCombination in e &&
    (FreeTier in e || Eligible in e || InstanceTypeWord in e || InstanceTypePhrase in e)
  }

  predicate Retryable(e: Err) {
    || InsufficientInstanceCapacity in e || UnfulfillableCapacity in e
    || MaxSpotInstanceCountExceeded in e || VcpuLimitExceeded in e
    || InvalidHostIDNotFound in e || NoAmiFound in e || NoMacDedicatedHost in e
    || Unsupported in e || InvalidParameterValue in e
    || WrongCombination(e)
  }

  predicate MarketFallback(e: Err) {
    || InsufficientInstanceCapacity in e || UnfulfillableCapacity in e
    || MaxSpotInstanceCountExceeded in e || VcpuLimitExceeded in e
    || (SpotWord in e && (Unsupported in e || InvalidParameterValue in e || WrongCombination(e)))
  }

  predicate RegionRetryable(e: Err) {
    Retryable(e) || QuotaWord in e || CapacityWord in e
  }

  function Union(errs: seq<Err>): Err {
    if errs == [] then {} else Union(errs[..|errs| - 1]) + errs[|errs| - 1]
  }

  /** The join of no errors is success. */
  function JoinErrors(errs: seq<Err>): Option<Err> {
    if errs == [] then None else Some(Union(errs))
  }

  /** Joining can only make an error more retryable. */
  lemma RetryableIsMonotone(e: Err, f: Err)
    requires e <= f
    ensures Retryable(e) ==> Retryable(f)
    ensures RegionRetryable(e) ==> RegionRetryable(f)
  {
  }

  lemma {:induction false} UnionContains(errs: seq<Err>, k: nat)
    requires k < |errs|
    ensures errs[k] <= Union(errs)
  {
    if k < |errs| - 1 {
      UnionContains(errs[..|errs| - 1], k);
    }
  }

  lemma UnionSnoc(errs: seq<Err>, e: Err)
    ensures Union(errs + [e]) == Union(errs) + e
  {
    assert (errs + [e])[..|errs|] == errs;
  }
}
