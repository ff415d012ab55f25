/** The lock contract's entry point: build, plan, refuse an empty plan, verify every requirement. */
module Entry {
  import opened Base
  import opened Transaction
  import opened Preimage
  import opened Context
  import opened Plan
  import opened Engine
  import opened LockPlan

  datatype ContractError = Core(error: CoreError) | LockSemanticFailure | VerifyFailure

  /** The signature check under the lock's identity: any predicate of seal and message hash. */
  type Verifier = (Bytes, Hash32) -> bool

  predicate AllVerify(signatures: seq<SigningRequirement>, verify: Verifier) {
    forall i: nat | i < |signatures| :: verify(signatures[i].seal, signatures[i].signingMessageHash)
  }

  /** The plan the contract works from. */
  function PlanOf(tx: Tx, lock: Hash32, h: Blake2b): Result<LockValidationPlan> {
    var cx :- Build(tx, CurrentLock(lock));
    PlanLock(cx, h)
  }

  /** Why a planned transaction is refused, or None when it is accepted. */
  function Judge(plan: Result<LockValidationPlan>, verify: Verifier): Option<ContractError> {
    match plan
    case Err(e) => Some(Core(e))
    case Ok(p) =>
      if p.requiredSignatures == [] then Some(LockSemanticFailure)
      else if AllVerify(p.requiredSignatures, verify) then None
      else Some(VerifyFailure)
  }

  function Verdict(tx: Tx, lock: Hash32, h: Blake2b, verify: Verifier): Option<ContractError> {
    Judge(PlanOf(tx, lock, h), verify)
  }

  method PlanOfTransaction(tx: Tx, lock: Hash32, h: Blake2b) returns (r: Result<LockValidationPlan>)
    ensures r == PlanOf(tx, lock, h)
  {
    var cx :- BuildContext(tx, CurrentLock(lock));
    r := PlanLockValidation(cx, h);
  }

  /** The contract: it accepts only when every required signature verifies, and there is at least one. */
  method Run(tx: Tx, lock: Hash32, h: Blake2b, verify: Verifier) returns (r: Option<ContractError>)
    ensures r == Verdict(tx, lock, h, verify)
  {
    var plan := PlanOfTransaction(tx, lock, h);
    r := VerifyPlan(plan, verify);
  }

  method VerifyPlan(plan: Result<LockValidationPlan>, verify: Verifier) returns (r: Option<ContractError>)
    ensures r == Judge(plan, verify)
  {
    if plan.Err? {
      return Some(Core(plan.error));
    }
    var signatures := plan.value.requiredSignatures;
    if |signatures| == 0 {
      return Some(LockSemanticFailure);
    }
    for i := 0 to |signatures|
      invariant forall j: nat | j < i :: verify(signatures[j].seal, signatures[j].signingMessageHash)
    {
      if !verify(signatures[i].seal, signatures[i].signingMessageHash) {
        return Some(VerifyFailure);
      }
    }
    return None;
  }
}
