/** packages/crypto/ts/constants.ts. */
module Field {
  /** The group order of EIP-197, section "Definition of the groups". */
  const SNARK_FIELD_SIZE: nat := 21888242871839275222246405745257275088548364400416034343698204186575808495617

  const NOTHING_UP_MY_SLEEVE: int := 8370432830353022751713833565135785980866757267633941821328460903436894336785
}
