/** The interface types that the round engine is generic over: what a round is, and what a protocol returns. */
module Rounds {
  import FrostKeygen
  import FrostSign

  /** Rounds and results of protocols other than the two FROST protocols: arbitrary types. */
  type OtherRound(==, !new, 0)
  type OtherResult(==, !new, 0)

  /** round.Session: what tells one round from another. */
  datatype Header = Keygen(keygen: FrostKeygen.Round) | Signing(signing: FrostSign.Round) | Other(other: OtherRound)

  /** The result of a protocol. */
  datatype Value = Key(key: FrostKeygen.KeygenResult) | Signature(signature: FrostSign.SignResult)
                 | Another(another: OtherResult)
}
