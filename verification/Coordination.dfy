/**
 internal/coordination/store.go and budget.go: the values of the lease and budget
 ports.  Times are nanoseconds; a store call reads its clock once.
 */
module Coordination {
  type Digest = string
  type Time = int

  /** A 16-byte token, as the number its 32 hexadecimal digits denote. */
  type Token = nat

  datatype Error = InvalidArgument | Unavailable | Conflict | Invariant

  datatype Result<+T> = Ok(value: T) | Err(error: Error)

  datatype Candidate = Candidate(holder: Digest, expires: Time, epoch: nat)

  datatype ResumeValue = ResumeValue(holder: Digest, expires: Time, epoch: nat, token: nat)

  datatype Status = Valid | Expired | Released | Stale

  /** What a lease handle remembers. */
  datatype Held = Held(key: Digest, holder: Digest, expires: Time, revision: nat, released: bool)

  const MAX_UINT64: nat := 0xFFFF_FFFF_FFFF_FFFF

  predicate ValidDigest(d: Digest) {
    |d| == 64 && forall i :: 0 <= i < |d| ==> '0' <= d[i] <= '9' || 'a' <= d[i] <= 'f'
  }

  predicate MillisecondAligned(t: Time) {
    t % 1_000_000 == 0
  }
}
