# Threshold signatures: a verified model

This project models the logic of a Go library for threshold signatures and proves properties of it in
Dafny. `dafny verify dfyconfig.toml` checks everything.

## What is modelled

The modules follow the library's components.

- **Arithmetic.** `Residues` and `Powers` hold modular arithmetic up to Fermat, Euler and the Chinese
  remainder theorem. `Zq` is the scalar field of an arbitrary prime order together with the curve group,
  whose points are residues; the base point is an arbitrary non-identity point. `Curve` adds an arbitrary
  x coordinate shared exactly by opposite points and an arbitrary parity of y that flips under negation.
- **Polynomials.** `Polynomials`, `Exponents` and `Lagrange`: Horner in the field and in the exponent,
  sums of commitments, and reconstruction at zero.
- **FROST and Taproot.** `FrostKeygen`, `KeyLifecycle`, `Taproot`, `FrostSign`: one honest party among
  arbitrary peers. `FrostKeygenRuns` and `FrostSignRuns` run them in the round engine, against arbitrary
  peers; `FrostKeygenHonest` and `FrostSignHonest` show that among honest parties every order of delivery
  ends with the key or the signature, and `FrostNetwork` puts all parties into one network.
- **Round engine.** `Handler` has the transitions of `MultiHandler` as functions on its state;
  `MultiHandler` is the object, each of whose methods is proved to have exactly the effect of its
  transition. `HandlerRuns`, `HandlerStorage`, `HandlerTrace`, `HandlerBlame`, `Echo` and `Delivery` hold
  the properties of all runs, and `Network` those of many handlers that send to each other. `Rounds` has
  the rounds and results the engine passes around: those of the two FROST protocols, and an arbitrary type
  for all others.
- **Transcripts.** `Framing`: the length-prefixed encoding and the preimage of a message hash.
- **Oblivious transfer and two-party ECDSA.** `Bits`, `Encoding`, `Gf2`, `Schnorr`, `RandomOT`,
  `CorrelatedOT`, `ExtendedOT`, `AdditiveOT`, `Multiplication`, `DoernerSign`, and `DoernerKeys` for the
  derivation of configurations.
- **Paillier and CMP.** `Modulus`, `Paillier`, `Mta`, `CmpSign`, `CmpKeys`, `Presign`, `ZkMod` for the
  Blum-modulus proof and `ZkNth` for the proof of an N-th power.

## How it is modelled

- Hashes, PRGs and sampling from digests are arbitrary constant functions. Where a property needs a good
  hash (echo broadcast), the hypothesis is that it does not collide on what the two parties hashed.
  Randomness is a parameter.
- The wire encodings of the FROST contents are arbitrary functions; agreement and completeness need that
  decoding undoes encoding.
- Words and bytes are sequences of bits, lowest bit first. Integers are unbounded; reductions are written
  out.
- A nil or failing value is an `Option` or a `Result`. A panic of the source is a `None` or an error, or
  lies outside the precondition and is then named in the member's comment or below.
- Party names are byte strings. Their scalars are distinct and nonzero modulo the order (`GoodIDs`,
  `GoodPoints`), as the library assumes of its identifiers.
- A protocol, as the handler sees it, is what its rounds check for each sender and what Finalize returns
  on what has been stored. Go's map iteration is an arbitrary order per round. The handler's `rounds` map
  is used for its keys only, since every lookup the source makes is for the current round.
- Statements about runs quantify over every sequence of accepted messages, whoever sent them.

Where code and comments disagree the code is followed. The comment above
`protocols/cmp/keygen/round3.go:63` promises a check that the constant commitment is not the identity
during key generation; the code compares only the flag that says whether the constant was left out.

Five properties are not true without a condition, and each is stated exactly:

- The output channel is closed once, exactly when a result or an error is set, if and only if no round that
  is finalized on the way has a silent outcome: a nil round and no error, an abort round without an error, or
  an output round without a value (`HandlerRuns.ClosedOnceIff`, `HandlerRuns.SilentCounterexample`). Protocols
  without such outcomes always do (`HandlerRuns.LoudClosedOnce`), the two FROST protocols among them.
- The preimage of a message hash determines the message exactly up to which of sender and recipient was
  empty (`Framing.PreimageDetermines`, `Framing.EmptySenderCollides`).
- An honest response of the Blum-modulus proof verifies if and only if its challenge is a unit or zero, or w*y
  is a square at the prime that does not divide y. Challenges are drawn from all residues, so an honest proof
  can fail (`ZkMod.AnswerVerifies`, `ZkMod.RejectedResponse`).
- A failing presigned signature names nobody if and only if every share passes and r or s is zero
  (`Presign.BlameIs`). This happens to honest signers, however many, when m + r*x is zero
  (`Presign.NobodyToBlame`).
- The two `Derive` methods of the two-party scheme keep the additive sharing of the key if and only if the
  adjustment is zero: both parties add all of it, while the public key moves once
  (`DoernerKeys.SharingKept`, `DoernerKeys.SharingLost`).

## Model

| member | source | states |
|---|---|---|
| `Exponents.EvaluatePolynomial` | pkg/math/polynomial/polynomial.go:39-51 | Horner's loop computes the value of the polynomial; index zero is outside its domain, where the source panics. |
| `Exponents.NewPolynomialExponent` | pkg/math/polynomial/exponent.go:30-45 | The commitment evaluates, at every x, to f(x) times G, also when a zero constant is left out; its degree is that of f. |
| `Exponents.Evaluate` | pkg/math/polynomial/exponent.go:48-63 | Horner in the exponent computes the value of the full polynomial, with the omitted constant read as the identity. |
| `Exponents.EvaluateClassic` | pkg/math/polynomial/exponent.go:67-87 | The sum of powers computes the same value as Horner. |
| `Exponents.AddExponent` | pkg/math/polynomial/exponent.go:97-111 | Succeeds exactly when lengths and constant flags agree, and then adds pointwise in value at every x. |
| `Exponents.SumExponents` | pkg/math/polynomial/exponent.go:114-128 | Succeeds exactly when all shapes agree, and then evaluates to the sum of the values at every x. |
| `Polynomials.EvalIsPowerSum` | pkg/math/polynomial/exponent.go:67-87 | What evaluation means, apart from any algorithm: the sum of the coefficients times the powers of the argument. |
| `Polynomials.TooManyRoots` | pkg/math/polynomial/lagrange.go:44-77 | A polynomial with as many distinct roots as coefficients is zero everywhere, which makes interpolation unique. |
| `Polynomials.Interpolation` | pkg/math/polynomial/lagrange.go:44-77 | A polynomial of fewer coefficients than points is the Lagrange combination of its values, at every argument. |
| `Lagrange.LagrangeCoefficients` | pkg/math/polynomial/lagrange.go:10-24 | Every coefficient is the product of all points divided by x_j times the differences to x_j. |
| `Lagrange.ScalarsAndNumerator` | pkg/math/polynomial/lagrange.go:32-42 | The numerator is the product of all party scalars. |
| `Lagrange.Single` | pkg/math/polynomial/lagrange.go:55-77 | The computed quotient is the coefficient of party j. |
| `Lagrange.LambdaIsBasis` | pkg/math/polynomial/lagrange.go:44-77 | The computed coefficient is the value at zero of the Lagrange basis polynomial of that party. |
| `Lagrange.Reconstruct` | pkg/math/polynomial/lagrange.go:10-77 | For any polynomial and any distinct nonzero points, at least as many as coefficients, the coefficients combine the values to the value at zero, in the field and in the exponent. |
| `FrostKeygen.Participant.New` | protocols/frost/keygen/keygen.go:27-72 | A new participant is behind the zero polynomial of degree t. |
| `FrostKeygen.Participant.Refresh` | protocols/frost/keygen/keygen.go:27-72 | A refreshing participant is behind the polynomial of its previous configuration. |
| `FrostKeygen.Participant.Finalize1` | protocols/frost/keygen/round1.go:61-141 | The own commitment is that of the sampled polynomial and opens to it at every x; the constant is zero when refreshing. |
| `FrostKeygen.Participant.StoreBroadcast2` | protocols/frost/keygen/round2.go:48-93 | A commitment is stored exactly when the fields are valid and its constant is the identity (refresh) or the Schnorr proof verifies (keygen); the chain key commitment is stored with it, and nothing else changes. |
| `FrostKeygen.Participant.Finalize2` | protocols/frost/keygen/round2.go:101-128 | Every share sent opens the own commitment at the recipient. |
| `FrostKeygen.Participant.StoreMessage3` | protocols/frost/keygen/round3.go:77-96 | A share is stored exactly when it opens the sender's commitment. |
| `FrostKeygen.Participant.StoreBroadcast3` | protocols/frost/keygen/round3.go:44-65 | A chain key contribution is stored exactly when it is valid and opens the stored commitment. |
| `FrostKeygen.OpeningBound` | protocols/frost/keygen/round3.go:50-58 | A chain key commitment has one accepted opening only, unless the commitment hash collides. |
| `FrostKeygen.AddUp` | protocols/frost/keygen/round3.go:106-155 | Fails exactly when shapes differ; otherwise share, key and all verification shares are values of one polynomial of degree t that depends on the commitments alone. |
| `FrostKeygen.Participant.Finalize3` | protocols/frost/keygen/round3.go:99-176 | The same for the final result, after the BIP-340 negation when Taproot is used. |
| `FrostKeygen.RefreshKeepsPublicKey` | protocols/frost/keygen/round3.go:110-130 | Accepted refresh commitments leave the value at zero unchanged. |
| `FrostKeygen.FinishedAgree` | protocols/frost/keygen/round3.go:99-176 | Two results behind one polynomial have the same key and verification shares, and each private share opens its own. |
| `FrostKeygen.FinishedReconstructs` | protocols/frost/keygen/round3.go:140-176 | Any t+1 verification shares of a result interpolate to its key, the lifted one with Taproot. |
| `FrostKeygen.AddedHolds` | protocols/frost/keygen/round3.go:106-139 | Shares that opened their commitments leave share, key and verification shares behind one polynomial, if all shapes agree. |
| `FrostKeygen.AnyQuorumReconstructs` | protocols/frost/keygen/round3.go:140-155 | Any t+1 verification shares interpolate to the polynomial's value at zero. |
| `FrostKeygenRuns.KeygenShape` | protocols/frost/keygen/round2.go:101-128 | As rounds of the handler, the three rounds follow each other, send for the next round, never end silently, and send at most 1 and n messages. |
| `FrostKeygenRuns.KeygenChannel` | pkg/protocol/handler.go:51-66 | No run of key generation fills the channel of 2n, and the channel is closed exactly once, at the end. |
| `FrostKeygenRuns.KeygenResult` | protocols/frost/keygen/round3.go:99-176 | Whatever peers send: in every run with a result, the key and all shares are values of one polynomial of degree t that is a function of the commitments queued in round 2. |
| `FrostKeygenRuns.RefreshKeepsKey` | protocols/frost/keygen/round2.go:74-79 | Every refresh run with a result leaves the value at zero where it was. |
| `FrostKeygenRuns.ProofsChecked` | protocols/frost/keygen/round2.go:74-90 | In every run that makes a new key and has a result, every peer has proved to know the constant of the commitment that went into the key. |
| `FrostKeygenRuns.KeygenAgreement` | protocols/frost/keygen/round3.go:99-176 | Whatever peers send to each of them: two honest parties whose runs both have a result hold one key and one list of verification shares, each private share opens its own, and any t+1 shares interpolate to the key, also with Taproot. The common polynomial is derived from the echo of round 2. |
| `FrostKeygenHonest.SecondStored` | protocols/frost/keygen/round3.go:39-58 | The opening that an honest party broadcasts in round 3 matches its commitment of round 2 at every peer. |
| `FrostKeygenHonest.ShareStored` | protocols/frost/keygen/round3.go:75-97 | The share that an honest party sends opens its commitment at the recipient. |
| `FrostKeygenHonest.HonestResult` | protocols/frost/keygen/round3.go:99-176 | Among honest parties round 3 ends with a key, whose parts are values of the polynomial behind the sum of all commitments. |
| `FrostKeygenHonest.HonestScript` | protocols/frost/keygen/round2.go:101-128 | A key generation or refresh among honest parties is an undisturbed execution in the sense of the delivery theorem. |
| `FrostKeygenHonest.HonestKeygen` | protocols/frost/keygen/keygen.go:27-72 | Completeness: in whatever order the messages of honest parties arrive, early, repeated or late, the run ends with the key behind the sum of all commitments. |
| `FrostKeygenHonest.HonestAgreement` | protocols/frost/keygen/round3.go:99-176 | Any two parties of an honest session, each with a delivery order of its own, end with keys that fit together. |
| `FrostNetwork.KeygenFits` | protocols/frost/keygen/round2.go:101-128 | What honest parties send to each other in a round is exactly what the others wait for in it. |
| `FrostNetwork.KeygenNetwork` | protocols/frost/keygen/keygen.go:27-72 | A whole network of honest parties: in every possible run, whatever the order, repetition and delay of messages, nobody has an error; and it comes to rest only when all hold keys that fit together. |
| `KeyLifecycle.NextChainKey` | protocols/frost/keygen/config.go:62-68 | Succeeds exactly for a replacement of 32 bytes, or an empty one when the current key has 32; the result is the replacement if there is one, else the current key. |
| `KeyLifecycle.Derive` | protocols/frost/keygen/config.go:62-84 | Share, key and all verification shares move by the adjustment; the chain key is the given one if there is one. |
| `KeyLifecycle.DeriveTaproot` | protocols/frost/keygen/config.go:153-191 | The same for Taproot, with everything negated when the new key has an odd y; fails for a key that does not lift; the chain key is the given one if there is one. |
| `KeyLifecycle.DerivedTaprootHolds` | protocols/frost/keygen/config.go:153-191 | Taproot derivation keeps the shares behind one polynomial whose value at zero is the lifted new key. |
| `KeyLifecycle.Lifecycle` | protocols/frost/keygen/config.go:62-84 | Any sequence of refreshes and derivations keeps one polynomial of the same degree behind every share and moves the key by exactly the sum of the adjustments. |
| `KeyLifecycle.TaprootLifecycle` | protocols/frost/keygen/config.go:153-191 | The same for Taproot keys, up to the sign flip of each derivation. |
| `Curve.LiftXOfPoint` | pkg/math/curve/secp256k1.go:54-64 | Lifting the x coordinate of a point gives it back, or its opposite when its y is odd. |
| `Taproot.VerifyFromEquation` | pkg/taproot/signature.go:174-202 | The BIP-340 equation over even-y points is sufficient for acceptance. |
| `Taproot.EquationFromVerify` | pkg/taproot/signature.go:174-202 | And necessary: every accepted signature satisfies it for the lifted points. |
| `Taproot.BindsMessage` | pkg/taproot/signature.go:174-202 | An accepted signature is accepted for another message iff the two challenges are equal. |
| `Taproot.Sign` | pkg/taproot/signature.go:104-169 | Fails exactly for a zero key or nonce; otherwise the signature is accepted. |
| `FrostSign.GroupCommitment` | protocols/frost/sign/round2.go:95-115 | R is the sum of the shares D + rho E of all signers. |
| `FrostSign.BundleDetermines` | protocols/frost/sign/round2.go:97-108 | What the binding values are computed from is the same iff all nonce commitments D and E of all signers are. |
| `FrostSign.Adjust` | protocols/frost/sign/round2.go:117-129 | With Taproot and an odd R, both nonces and all shares of R change sign together. |
| `FrostSign.Prepare` | protocols/frost/sign/round2.go:83-144 | After the adjustment the own share of R is still the commitment to the own nonces. |
| `FrostSign.HonestResponse` | protocols/frost/sign/round2.go:145-151 | A response computed as specified passes the per-share check. |
| `FrostSign.Signer.constructor` | protocols/frost/sign/sign.go:20-48 | A session starts from at least t+1 signers of one consistent key. |
| `FrostSign.Signer.Finalize1` | protocols/frost/sign/round1.go:54-100 | The two nonces are committed to. |
| `FrostSign.Signer.StoreBroadcast2` | protocols/frost/sign/round2.go:48-74 | Nonce commitments are stored exactly when neither is the identity. |
| `FrostSign.Signer.Finalize2` | protocols/frost/sign/round2.go:83-174 | The own response is stored and passes its own check. |
| `FrostSign.CommittedIs` | protocols/frost/sign/round2.go:83-144 | What round 2 computes is exactly one function of the nonce commitments. |
| `FrostSign.Signer.StoreBroadcast3` | protocols/frost/sign/round3.go:44-79 | A response is stored exactly when it passes the per-share check. |
| `FrostSign.Aggregate` | protocols/frost/sign/round3.go:88-95 | Responses that pass add up to a response for the group key. |
| `FrostSign.AdjustedSum` | protocols/frost/sign/round2.go:109-129 | The shares of R, adjusted or not, add up to R or to its opposite accordingly. |
| `FrostSign.AggregateVerifies` | protocols/frost/sign/round3.go:88-126 | With arbitrary peers: once every response has passed, the aggregate verifies, plain and BIP-340. |
| `FrostSign.BindsMessage` | protocols/frost/sign/types.go:45-58 | An accepted signature is accepted for another message iff the two challenges are equal. |
| `FrostSign.Signer.Finalize3` | protocols/frost/sign/round3.go:88-126 | So the result is a signature that verifies, and an abort exactly when Taproot meets a group commitment that is the identity. |
| `FrostSign.ResultVerifies` | protocols/frost/sign/round3.go:88-126 | Once all responses have passed, the abort branch is taken exactly for Taproot with an identity group commitment. |
| `FrostSignRuns.SignShape` | protocols/frost/sign/round2.go:83-174 | As rounds of the handler, the three rounds follow each other, send for the next round, never end silently, and send one message each in the first two. |
| `FrostSignRuns.SignChannel` | pkg/protocol/handler.go:51-66 | No run of signing fills the channel of 2n, and the channel is closed exactly once, at the end. |
| `FrostSignRuns.SigningSucceeds` | protocols/frost/sign/round3.go:44-126 | Whatever the other signers send: every run that gets past the checks of round 3 has as its result a signature that verifies and no error, or, exactly for Taproot with an identity group commitment, an error and no result. |
| `FrostSignRuns.SignResult` | protocols/frost/sign/round3.go:88-126 | Every result of every run is a signature that verifies, for the nonce commitments queued in round 2. |
| `FrostSignRuns.NoncesChecked` | protocols/frost/sign/round2.go:67-69 | In every run with a result no peer's nonce commitments were the identity. |
| `FrostSignRuns.SignAgreement` | protocols/frost/sign/round3.go:88-126 | Whatever the others send to each of them: two honest signers whose runs both have a result hold the same signature. |
| `FrostSignHonest.HonestRound2` | protocols/frost/sign/round2.go:83-174 | When everybody is honest, all signers work with the same nonce commitments and challenge, and the response of each passes the check of round 3. |
| `FrostSignHonest.HonestScript` | protocols/frost/sign/round3.go:44-126 | A session of honest signers is an undisturbed execution in the sense of the delivery theorem: every message passes its checks, every round leads to the next, and the last to the end described in the next row. |
| `FrostSignHonest.HonestSigning` | protocols/frost/sign/sign.go:20-48 | Completeness: in whatever order the messages of honest signers arrive, early, repeated or late, the run ends with a signature that verifies, or, exactly for Taproot with an identity group commitment, with an error. |
| `FrostSignHonest.HonestAgreement` | protocols/frost/sign/round3.go:88-126 | Any two honest signers, each with a delivery order of its own, end with the same signature, or both without one. |
| `FrostNetwork.SignNetwork` | protocols/frost/sign/sign.go:20-48 | A whole network of honest signers: in every possible run nobody has an error; and it comes to rest only when all hold the same signature, which verifies. |
| `MultiHandler.MultiHandler.constructor` | pkg/protocol/handler.go:51-66 | The new handler is in the state that the transition functions start from. |
| `MultiHandler.MultiHandler.Accept` | pkg/protocol/handler.go:134-167 | Exactly the transition of Accept, with all refusals, aborts and the recursion of finalize. |
| `MultiHandler.MultiHandler.VerifyMessage` | pkg/protocol/handler.go:201-231 | Waits for the sender's broadcast, rejects unexpected messages, and stores what is checked. |
| `MultiHandler.MultiHandler.VerifyBroadcastMessage` | pkg/protocol/handler.go:169-198 | Stores a checked broadcast and goes on to the queued message of the same sender. |
| `MultiHandler.MultiHandler.ReceivedAll` | pkg/protocol/handler.go:359-400 | True exactly when everything is queued; keeps the hash of complete broadcasts once. |
| `MultiHandler.MultiHandler.CheckBroadcastHash` | pkg/protocol/handler.go:462-481 | True exactly when every queued message of the round carries the previous hash. |
| `MultiHandler.MultiHandler.Forward` | pkg/protocol/handler.go:255-274 | Every message gets its header and verification hash; own broadcasts are queued. |
| `MultiHandler.MultiHandler.ReadQueue` | pkg/protocol/handler.go:298-322 | The queue of a new round is read in the given order until the first failure. |
| `MultiHandler.MultiHandler.FinalizeRound` | pkg/protocol/handler.go:233-326 | finalize with its recursion, terminating because every recursion enters a new round number. |
| `MultiHandler.MultiHandler.Conclude` | pkg/protocol/handler.go:245-296 | The five outcomes of Finalize: error, nil round, next round, abort round, output round. |
| `MultiHandler.MultiHandler.Enter` | pkg/protocol/handler.go:276-325 | A round number entered before ends the call; a new one becomes current and reads its queue. |
| `MultiHandler.MultiHandler.Store` | pkg/protocol/handler.go:419-430 | A message is stored only in an open, empty slot. |
| `MultiHandler.MultiHandler.Abort` | pkg/protocol/handler.go:328-346 | Sets the error, sends the abort message if there is room, and closes the channel. |
| `MultiHandler.AllMatch` | pkg/protocol/handler.go:470-479 | The loop over one queue decides whether all its messages carry the hash. |
| `Handler.AdvanceEnters` | pkg/protocol/handler.go:276-325 | finalize recurses only after entering a round number for the first time, so it terminates. |
| `HandlerRuns.AdvanceClosing` | pkg/protocol/handler.go:233-296 | One finalize keeps the account of closes and ends silently exactly on a nil round, an abort without error or an output without value. |
| `HandlerRuns.RunClosing` | pkg/protocol/handler.go:134-167 | In every run each close is accounted for by an error, a result or a silent end, error and result exclude each other, and there was a silent end exactly when some round on the way had a silent outcome. |
| `HandlerRuns.ClosedOnceIff` | pkg/protocol/handler.go:233-346 | In every run the channel has been closed once with a result or error and never without, if and only if no round that was finalized on the way had a silent outcome. |
| `HandlerRuns.LoudClosedOnce` | pkg/protocol/handler.go:233-346 | So every run of a protocol without silent outcomes closes the channel exactly once. |
| `HandlerRuns.SilentCounterexample` | pkg/protocol/handler.go:247-252 | A protocol whose first round finalizes to a nil round breaks the rule. |
| `HandlerRuns.AcceptMoves` | pkg/protocol/handler.go:276-283 | Accepting never goes back: the round stays or its number strictly increases, and an end is final. |
| `HandlerRuns.RunMoves` | pkg/protocol/handler.go:276-283 | In every run the current round is the latest one entered. |
| `HandlerRuns.BufferSuffices` | pkg/protocol/handler.go:62-62 | No run of a protocol whose rounds send at most 2n messages in all ever fills the channel. |
| `HandlerRuns.Ignored` | pkg/protocol/handler.go:91-140 | A message that is not for this party, of another session or protocol, from a stranger, for a past round, for a taken slot or after the end changes nothing. |
| `HandlerRuns.NoiseIgnored` | pkg/protocol/handler.go:91-140 | Every run is the same with and without the messages that do not concern this party. |
| `HandlerStorage.StoredOnce` | pkg/protocol/handler.go:402-430 | In a history no message is stored twice. |
| `HandlerStorage.BroadcastFirst` | pkg/protocol/handler.go:208-214 | In a history a broadcast is stored before the message of the same sender. |
| `HandlerStorage.FinalizedLast` | pkg/protocol/handler.go:359-400 | In a history a round is finalized only after everything it waits for has been stored. |
| `HandlerStorage.NothingAfter` | pkg/protocol/handler.go:402-417 | In a history a round stores nothing after it has been finalized. |
| `HandlerStorage.AcceptStorage` | pkg/protocol/handler.go:134-231 | Accepting any message keeps the storage invariant. |
| `HandlerStorage.RunStorage` | pkg/protocol/handler.go:134-326 | The log of every run is such a history, and what a round has stored was queued and passed its check. |
| `HandlerBlame.AbortHeard` | pkg/protocol/handler.go:143-147 | The abort message of any other party of the session ends a handler that is not done, with an error that names exactly that party; the channel is closed. |
| `HandlerBlame.VerifyIff` | pkg/protocol/handler.go:154-164 | Receiving a message of the current round fails exactly when it, or what its sender had queued with it, is not wanted or fails the checks of the round. |
| `HandlerBlame.AcceptBlames` | pkg/protocol/handler.go:154-164 | And then the protocol ends with an error that names exactly its sender. |
| `HandlerBlame.EnterBlames` | pkg/protocol/handler.go:297-325 | A round that becomes current goes on iff nothing in its queue fails a check; else the error names a sender for whom the queue shows why. |
| `HandlerBlame.RunJustified` | pkg/protocol/handler.go:134-346 | Soundness of blame: in every run an error names a party that sent an abort, or one whose queued messages fail the checks of the current round, or nobody because broadcasts differ, or this party because its round failed, or whom the protocol named. |
| `HandlerBlame.NobodyGetsAway` | pkg/protocol/handler.go:134-346 | Completeness of blame: in every run, while the handler goes on, nothing queued for the current round fails a check. |
| `HandlerBlame.AbortSpreads` | pkg/protocol/handler.go:328-346 | In every run with an error, unless the channel is full, the last message sent is one that ends any other handler of the session that is still running, with an error that names this party. |
| `HandlerTrace.RunTraced` | pkg/protocol/handler.go:233-326 | In every run each round, each own broadcast and the result is what Finalize returned for an earlier round on exactly what was queued for it, all of it complete and checked. |
| `HandlerTrace.RunConcluded` | pkg/protocol/handler.go:233-326 | In every run a finalized round whose outcome ends the protocol has left exactly its result, or its error with exactly the culprits it named; a failing Finalize names this party. |
| `Echo.RunEchoed` | pkg/protocol/handler.go:255-274 | In every run kept hashes are hashes of all broadcasts of their round, and sent messages carry the hash of the round before. |
| `Echo.SameHash` | pkg/protocol/handler.go:462-481 | Past the check of the next round, the hash of any honest party is the own hash. |
| `Echo.Agreement` | pkg/protocol/handler.go:233-273 | Whatever messages two honest handlers are given, with their own secrets and orders of reading: if one is past the check of round k+1, what it stored from the other came from it and the two hashes do not collide, both hold the same broadcasts of round k from every sender. |
| `Echo.EchoSeparates` | pkg/protocol/handler.go:374-386 | Equal hashes of two lists of broadcasts come from equal lists, unless the hash collides on what was hashed for them; by the framing of messages. |
| `Echo.SessionsSeparate` | pkg/protocol/handler.go:376-387 | What is hashed for a list of broadcasts differs between sessions. |
| `Delivery.NeverLate` | pkg/protocol/handler.go:91-128 | An expected message that has not been delivered is never refused. |
| `Delivery.AgainRefused` | pkg/protocol/handler.go:402-417 | A message that has been delivered is refused when it comes again, without effect. |
| `Delivery.AcceptReaches` | pkg/protocol/handler.go:134-167 | Every delivery keeps the correspondence between the state and the set of delivered messages. |
| `Delivery.RunReaches` | pkg/protocol/handler.go:134-326 | After any sequence the handler waits in the first incomplete round of the script, or has come to its end. |
| `Delivery.OrderIndependence` | pkg/protocol/handler.go:91-167 | Any two deliveries of the same messages, in any order, with any repetitions and any orders of reading queues, end with the same result, the same error, or in the same round with the same contents, and have sent the same messages. |
| `Delivery.AllDelivered` | pkg/protocol/handler.go:285-296 | Once all expected messages are in, the handler has the result, or the error, that the undisturbed execution ends with, and has sent exactly the messages of its rounds, with headers and echo hashes. |
| `Network.NetworkSafe` | pkg/protocol/handler.go:134-326 | Handlers whose executions fit together, given each other's messages in any order, any number of times and at any time: nobody has an error, and a result is that of the undisturbed execution. |
| `Network.NetworkEnds` | pkg/protocol/handler.go:134-326 | No deadlock: when everything sent has been handed over, every handler has its result. |
| `Framing.Hash.constructor` | pkg/hash/hash.go:28-35 | New writes the prefix and the frames of all items that can be written, skipping the others. |
| `Framing.Hash.WriteAny` | pkg/hash/hash.go:67-126 | Appends the frames up to the first item that cannot be written, and reports whether there was one. |
| `Framing.FramePrefix` | pkg/hash/hash.go:106-123 | No frame is the beginning of another. |
| `Framing.UniquelyDecodable` | pkg/hash/hash.go:67-126 | Equal byte streams come from equal lists of domain and data. |
| `Framing.BigEndianReads` | pkg/hash/hash.go:106-114 | Lengths are written with the most significant byte first: read back they are the numbers. |
| `Framing.FrameDetermines` | pkg/hash/hash.go:70-95 | Byte slices and big integers never share a frame, and the frame determines the value. |
| `Framing.WrittenDetermines` | pkg/hash/hash.go:67-126 | What WriteAny or New has written determines the list of byte slices and integers it was given. |
| `Framing.PreimageDetermines` | pkg/protocol/message.go:47-63 | Two messages have the same preimage iff they agree in everything but which of the two names was empty. |
| `Framing.HashPreimageInjective` | pkg/protocol/message.go:47-63 | With a nonempty sender the preimage determines the message, although empty recipients and nil fields are skipped. |
| `Framing.EmptySenderCollides` | pkg/party/id.go:32-38 | An empty sender makes the recipient indistinguishable from a sender. |
| `Bits.TransposeBits` | internal/ot/correlated.go:222-231 | Bit j of row i of the result is bit i of row j. |
| `Bits.XorMasked` | internal/ot/correlated.go:267-272 | The masked loop adds the string exactly when the bit is set. |
| `Bits.Select` | internal/ot/random.go:138-141 | The masked exchange selects the second string exactly when the bit is set. |
| `Encoding.ScalarRoundTrip` | pkg/math/curve/secp256k1.go:86-101 | Decoding an encoded scalar gives it back; zero bytes decode to zero. |
| `Encoding.ScalarCanonical` | pkg/math/curve/secp256k1.go:86-101 | Decoding gives a scalar exactly for the bytes it is encoded as; numbers not below the order are refused. |
| `Encoding.WeighedIsValue` | internal/ot/multiply.go:53-66 | The bits of a big-endian string, each weighed by its power of two, add up to the number it spells. |
| `Schnorr.Completeness` | pkg/zk/sch/sch.go:35-115 | An honest proof for a nonzero secret is accepted iff neither its randomness nor its response is zero. |
| `Schnorr.SpecialSoundness` | pkg/zk/sch/sch.go:89-115 | Two accepted proofs with one commitment and different challenges give the secret behind the public point. |
| `RandomOT.PadPoint` | internal/ot/random.go:124-152 | Whatever the choice, the receiver's a*B is the sender's pad point for that choice. |
| `RandomOT.BlindedRead` | internal/ot/random.go:260-270 | The sender reads the receiver's point exactly when it is not the identity. |
| `RandomOT.Transfer` | internal/ot/random.go:124-214 | A whole honest base transfer: unless the blinded point is the identity, nobody aborts and the receiver holds the pad of its choice. |
| `RandomOT.PadsOf` | internal/ot/random.go:260-339 | The pads are hashes of b*A and b*(A - B), different points unless b is zero; round 2 opens them exactly to the double hash of the first. |
| `RandomOT.OpeningBound` | internal/ot/random.go:185-214 | The receiver accepts one pair of openings only, unless the hash collides. |
| `RandomOT.Receiver.Round1` | internal/ot/random.go:124-152 | Sends a*G, plus B when the choice is set, and keeps the hash of a*B. |
| `RandomOT.Receiver.Round2` | internal/ot/random.go:161-180 | The response is the double hash of the pad, plus the challenge when the choice is set. |
| `RandomOT.Receiver.Round3` | internal/ot/random.go:185-214 | Accepts exactly when the openings match the challenge and the chosen one matches the own pad. |
| `RandomOT.Sender.Round1` | internal/ot/random.go:260-309 | Fails exactly on bytes that are no point; otherwise both pads, their commitments and the challenge. |
| `CorrelatedOT.SetupSender.Round1` | internal/ot/correlated.go:54-87 | Fails exactly on a bad proof; otherwise one receiver for every bit of the correlation vector. |
| `CorrelatedOT.SetupSender.Round2` | internal/ot/correlated.go:95-101 | Every base receiver answers its challenge. |
| `CorrelatedOT.SetupSender.Round3` | internal/ot/correlated.go:104-115 | Succeeds exactly when every base transfer opens, with the received pads as keys. |
| `CorrelatedOT.SetupReceiver.Round1` | internal/ot/correlated.go:159-174 | One base sender for every bit, all from one setup. |
| `CorrelatedOT.SetupReceiver.Round2` | internal/ot/correlated.go:182-196 | Succeeds exactly when every blinded point decodes. |
| `CorrelatedOT.SetupReceiver.Round3` | internal/ot/correlated.go:204-217 | Succeeds exactly when every response is right, with both pads of every transfer as keys. |
| `CorrelatedOT.Setup` | internal/ot/correlated.go:54-217 | A whole honest setup succeeds exactly when the proof is not degenerate and no blinded point is the identity; then the sender has the key of each pair that its vector selects. |
| `CorrelatedOT.Send` | internal/ot/correlated.go:249-276 | Fails exactly on columns of the wrong size; otherwise the transposed rows q. |
| `CorrelatedOT.Receive` | internal/ot/correlated.go:299-327 | The matrix U and the transposed rows t for the choices. |
| `CorrelatedOT.RowsRelated` | internal/ot/correlated.go:234-327 | From correlated setups every row q is row t, plus delta where the choice bit is set. |
| `Gf2.Eq` | internal/ot/extended.go:35-41 | The top bit of acc or-ed with its negative decides equality of all coefficients. |
| `Gf2.ShiftLeft` | internal/ot/extended.go:44-56 | Multiplication by X, word by word. |
| `Gf2.Accumulate` | internal/ot/extended.go:62-83 | The word-sliced loops add exactly the unreduced GF(2) polynomial product; no coefficient is lost by the shifts. |
| `Gf2.ConditionalAdd` | internal/ot/extended.go:86-90 | Adds exactly when the bit is set. |
| `Gf2.WeightedLinear` | internal/ot/extended.go:58-61 | Weighted sums of products are linear in the rows. |
| `Gf2.ProductNotZero` | internal/ot/extended.go:58-83 | Degrees add, so the unreduced product of nonzero elements is not zero. |
| `ExtendedOT.AdjustBatchSize` | internal/ot/extended.go:129-138 | Between two and three blocks are added. |
| `ExtendedOT.WholeBlocks` | internal/ot/extended.go:129-138 | The padded size is a whole number of blocks. |
| `ExtendedOT.PluckAll` | internal/ot/extended.go:92-111 | Shifting in 128 bits packs them, first bit highest. |
| `ExtendedOT.CheckColumns` | internal/ot/extended.go:172-188 | True exactly when every column satisfies the monochrome equation. |
| `ExtendedOT.Send` | internal/ot/extended.go:157-213 | Succeeds exactly when sizes and all columns check; then both hashes of every row. |
| `ExtendedOT.Receive` | internal/ot/extended.go:237-279 | The message holds U and the weighted sums of choices and rows; the output hashes the rows. |
| `ExtendedOT.CheckPasses` | internal/ot/extended.go:172-188 | The monochrome check accepts every honest message, whatever the weights. |
| `ExtendedOT.AcceptedEquation` | internal/ot/extended.go:167-187 | Acceptance means the check equation at every one of the 128 columns and every coefficient, with weights sampled after U was written to the hash. |
| `ExtendedOT.ColumnsBound` | internal/ot/extended.go:177-187 | Given the rest of the message, only one t is accepted: a change of any coefficient of any column is refused. |
| `ExtendedOT.ChoicesBound` | internal/ot/extended.go:177-187 | Likewise only one x, as soon as delta has a bit set. |
| `ExtendedOT.CorruptionSeen` | internal/ot/extended.go:177-187 | Rows that differ in one block of one column never both pass for the same sums, unless the weight of that block is zero. |
| `ExtendedOT.PadsMatch` | internal/ot/extended.go:190-213 | After an honest message the receiver holds V_choice at every index. |
| `ExtendedOT.Run` | internal/ot/extended.go:157-279 | A whole honest run: the sender accepts, the receiver holds V_choice everywhere, both hash states agree. |
| `AdditiveOT.SendRound1` | internal/ot/additive.go:52-89 | Fails exactly when the extended transfer does; otherwise own pads and combined pads. |
| `AdditiveOT.Receiver.Round1` | internal/ot/additive.go:122-126 | Runs the extended receiver and keeps its output. |
| `AdditiveOT.Receiver.Round2` | internal/ot/additive.go:134-163 | On any message: succeeds exactly when every index decodes after its masking loops, with the unmasked values; the error is that of the first index that does not. |
| `AdditiveOT.MaskPart` | internal/ot/additive.go:145-150 | A masking loop stops at the first j not below the length of pad j; the pad is masked up to there, or an index is out of range. |
| `AdditiveOT.WellSizedShifted` | internal/ot/additive.go:145-157 | With more pads than bytes in a scalar, all of that length, every pad is masked completely in spite of that bound. |
| `AdditiveOT.TransferAt` | internal/ot/additive.go:134-163 | From the pad of the choice, the receiver's value is choice times alpha less the sender's pad. |
| `Multiplication.MakeGadget` | internal/ot/multiply.go:53-71 | The weights of the 256 bits of a scalar, then noise: 672 entries. |
| `Multiplication.Encode` | internal/ot/multiply.go:24-47 | The bytes of beta less the chosen noise, followed by the coins. |
| `Multiplication.Decodes` | internal/ot/multiply.go:24-71 | For every beta, noise and coins the encoded bits dotted with the gadget give beta. |
| `Multiplication.SendRound1` | internal/ot/multiply.go:124-157 | Fails exactly when the transfer does; otherwise checks and share of the sender. |
| `Multiplication.Receiver.constructor` | internal/ot/multiply.go:177-193 | The choices of a new receiver decode to beta. |
| `Multiplication.Receiver.Round1` | internal/ot/multiply.go:201-204 | Leaves the receiver waiting for the reply to its message. |
| `Multiplication.Receiver.Round2` | internal/ot/multiply.go:207-241 | On any message: succeeds exactly when every pad decodes and passes the integrity check, with the dot product as share. |
| `Multiplication.CheckHolds` | internal/ot/multiply.go:220-233 | Additive shares at one index satisfy the integrity check. |
| `Multiplication.CheckBound` | internal/ot/multiply.go:207-241 | Given the rest of the reply, only one check value is accepted at each index. |
| `Multiplication.ValueBound` | internal/ot/multiply.go:207-241 | Two replies that pass with the same check values carry values of the same weighted sum; a change of the first component alone is refused unless its weight is zero. |
| `Multiplication.SharesAdd` | internal/ot/multiply.go:235-240 | Additive shares at every index make dot products that add up to alpha times what the choices pick. |
| `Multiplication.Product` | internal/ot/multiply.go:124-241 | An honest reply passes every check and the shares add up to alpha times the decoded choices. |
| `Multiplication.ReplyCompletes` | internal/ot/multiply.go:207-241 | Whatever share comes out of the receiver completes the product alpha*beta. |
| `Multiplication.Multiply` | internal/ot/multiply.go:90-241 | A whole honest multiplication ends with shares of alpha*beta, for all inputs and coins. |
| `Ecdsa.VerifyIff` | pkg/ecdsa/signature.go:18-33 | Verification is the equation s*k = m + r*x with r and s nonzero. |
| `Ecdsa.BindsHash` | pkg/ecdsa/signature.go:18-33 | An accepted signature is accepted for another hash iff both hashes are the same scalar. |
| `DoernerSign.SenderRound1` | protocols/doerner/sign/round1S.go:65-130 | Succeeds exactly when D and kA are nonzero and all three transfers are accepted; then the masked phi and sigma. |
| `DoernerSign.Round2R.constructor` | protocols/doerner/sign/round1R.go:36-63 | Three receivers for 1/kB, 1/kB and skB/kB have sent their messages. |
| `DoernerSign.Round2R.Finalize` | protocols/doerner/sign/round2R.go:71-124 | A signature comes out only after the proof and all product checks and only if it verifies; after those checks the result is decided by the unmasked signature. |
| `DoernerSign.SameGamma1` | protocols/doerner/sign/round2R.go:95-101 | Both sides compute the same Gamma1, so phi is recovered. |
| `DoernerSign.SameGamma2` | protocols/doerner/sign/round2R.go:106-112 | Both sides compute the same Gamma2, so the sender's half of sigma is recovered. |
| `DoernerSign.UnmaskedIsExpected` | protocols/doerner/sign/round2R.go:71-114 | From the three products, unmasking gives exactly (m + r*x)/(kA*kB). |
| `DoernerSign.ExpectedVerifies` | protocols/doerner/sign/round2R.go:114-117 | That signature verifies for the joint key iff r and s are nonzero. |
| `DoernerSign.Sign` | protocols/doerner/sign/round2R.go:71-124 | A whole honest run, for all shares, nonces, coins and messages, ends with the expected signature iff the nonces are not zero, the proof is not degenerate and r and s are not zero. |
| `DoernerKeys.DeriveReceiver` | protocols/doerner/keygen/keygen.go:41-56 | Fails exactly when there is no chain key of 32 bytes; else the share moves by the adjustment, the key by its multiple of G, and no chain key is kept. |
| `DoernerKeys.DeriveSender` | protocols/doerner/keygen/keygen.go:152-167 | The same for the sender. |
| `DoernerKeys.SharingKept` | protocols/doerner/keygen/keygen.go:41-56 | After both parties derive, their shares are an additive sharing of the new key iff the adjustment is zero; otherwise they are off by the adjustment once more. |
| `DoernerKeys.SharingLost` | protocols/doerner/keygen/keygen.go:152-167 | An adjustment of one loses every sharing. |
| `DoernerKeys.NextDerivation` | protocols/doerner/keygen/keygen.go:41-56 | A derived configuration derives again exactly when it is given a chain key. |
| `Modulus.FromFactorsValid` | pkg/math/arith/modulus.go:30-44 | Coprime factors give a valid cached modulus. |
| `Modulus.GarnerPower` | pkg/math/arith/modulus.go:48-59 | Recombining x^e mod p and mod q gives x^e mod pq. |
| `Modulus.Exp` | pkg/math/arith/modulus.go:48-61 | Returns x^e mod n for all x and e, with or without factors. |
| `Modulus.ExpI` | pkg/math/arith/modulus.go:65-73 | Agrees with the signed power; for a unit a negative exponent gives the inverse. |
| `Paillier.PhiUnit` | pkg/paillier/secret.go:82-86 | For distinct odd primes of equal length N and phi(N) are coprime, both ways. |
| `Paillier.NewSecretKey` | pkg/paillier/secret.go:72-104 | The cached values, including the factors of N squared, are valid. |
| `Paillier.NewPublicKey` | pkg/paillier/public.go:40-54 | The cached values of a public key are valid. |
| `Paillier.PlusOnePower` | pkg/paillier/public.go:99-100 | (N+1)^m = 1 + mN modulo N squared for m of either sign. |
| `Paillier.EncWithNonce` | pkg/paillier/public.go:91-107 | Defined exactly for m within (N-1)/2 of zero; with a unit nonce the result is (1+mN)*rho^N modulo N squared. |
| `Paillier.EncryptionValid` | pkg/paillier/public.go:117-131 | Every encryption passes ciphertext validation. |
| `Paillier.Dec` | pkg/paillier/secret.go:108-131 | Succeeds exactly on valid ciphertexts; every encryption of m decrypts to the symmetric representative of m. |
| `Paillier.RoundTrip` | pkg/paillier/secret.go:108-131 | What was encrypted in range comes back. |
| `Paillier.DecWithRandomness` | pkg/paillier/secret.go:134-149 | Returns the plaintext and the nonce modulo N. |
| `Paillier.EveryUnitEncrypts` | pkg/paillier/public.go:117-132 | Encryption is onto: every unit modulo N squared encrypts something. |
| `Paillier.ValidIff` | pkg/paillier/secret.go:108-131 | A number is accepted as a ciphertext iff it is an encryption. |
| `Paillier.EncryptsSum` | pkg/paillier/ciphertext.go:19-27 | The product of ciphertexts encrypts the sum. |
| `Paillier.EncryptsMultiple` | pkg/paillier/ciphertext.go:31-39 | A power of either sign encrypts the multiple. |
| `Paillier.Ciphertext.Add` | pkg/paillier/ciphertext.go:19-27 | In place, the homomorphic sum; a nil argument changes nothing. |
| `Paillier.Ciphertext.Mul` | pkg/paillier/ciphertext.go:31-39 | In place, the homomorphic multiple. |
| `Paillier.Ciphertext.Randomize` | pkg/paillier/ciphertext.go:57-65 | In place, a new nonce for the same plaintext. |
| `Mta.NoWrap` | internal/params/params.go:20-31 | The parameter sizes keep a*b plus any mask within half of a 2048-bit modulus. |
| `Mta.NewMta` | internal/mta/mta.go:84-95 | D encrypts a*b - beta under the receiver's key and F encrypts -beta under the sender's. |
| `Mta.Convert` | internal/mta/mta.go:26-46 | Over the integers, the decrypted alpha and the kept beta add up to a*b. |
| `CmpSign.Scale` | protocols/cmp/sign/sign.go:52-69 | Scaled secret shares add up to the secret and scaled public shares to its multiple of G. |
| `CmpSign.EncryptShares` | protocols/cmp/sign/round1.go:58-61 | Every party's share of k is encrypted under its own key. |
| `CmpSign.ConvertAll` | protocols/cmp/sign/round2.go:106-165 | After all pairwise conversions each pair holds shares of its cross product. |
| `CmpSign.ShareOf` | protocols/cmp/sign/round3.go:148-169 | The share loop adds the own product and both values of every other party, reduced at the end. |
| `CmpSign.SharesAddUp` | protocols/cmp/sign/round3.go:148-169 | The shares of all parties add up to the product of the sums. |
| `CmpSign.DeltaConsistent` | protocols/cmp/sign/round4.go:92-109 | The delta check passes and R is the inverse of k times G. |
| `CmpSign.ExpectedVerifies` | protocols/cmp/sign/round5.go:66-82 | The expected signature verifies iff r and s are nonzero. |
| `CmpSign.Finish` | protocols/cmp/sign/round4.go:92-117 | Only verified signatures come out; with honest sums it succeeds iff no broadcast share, r or s is zero. |
| `CmpSign.Sign` | protocols/cmp/sign/round5.go:66-82 | A whole run of any number of honest signers ends with the expected signature for the joint key, or with an error exactly when a broadcast share, r or s is zero. |
| `Presign.Finalize6` | protocols/cmp/presign/presign6.go:71-123 | Succeeds exactly when delta*G is the sum of the Delta shares; then R and all RBar shares. |
| `Presign.Finalize7` | protocols/cmp/presign/presign7.go:89-146 | Succeeds exactly when the S shares add up to the public key. |
| `Presign.VerifySignatureShares` | pkg/ecdsa/presignature.go:70-86 | Names exactly the parties whose share is not what the public data says. |
| `Presign.Finish` | protocols/cmp/presign/sign2.go:52-61 | A verified signature, or exactly those parties. |
| `Presign.SumEquation` | pkg/ecdsa/presignature.go:57-66 | When every share passes, the sum satisfies the verification equation. |
| `Presign.SomebodyBlamed` | protocols/cmp/presign/sign2.go:52-61 | Completeness: a signature that fails with nonzero r and s has a failing share. |
| `Presign.NobodyBlamed` | protocols/cmp/presign/sign2.go:52-61 | When every share passes, the signature verifies iff r and s are nonzero. |
| `Presign.HonestNotBlamed` | pkg/ecdsa/presignature.go:47-54 | Soundness: the share of a party that followed the protocol passes, whatever others did. |
| `Presign.BlameIs` | protocols/cmp/presign/sign2.go:52-61 | For a failing signature nobody is blamed exactly when every share passes and r or s is zero, and never a party that followed the protocol. |
| `Presign.PresignAndSign` | protocols/cmp/presign/presign6.go:71-123 | Rounds 6, 7 and signing on whatever the parties sent: where the run stops, that only verified signatures come out, and exactly who is blamed. |
| `Presign.HonestChecked` | protocols/cmp/presign/presign6.go:71-123 | Any number of honest parties with nonzero k and gamma pass both checks, with an R that is not the identity. |
| `Presign.NobodyToBlame` | protocols/cmp/presign/sign2.go:52-61 | For any number of signers that all follow the protocol: when m + r*x is zero both checks pass, every share passes, s is zero, and the signature fails with nobody to blame. |
| `CmpKeys.StoreCommitment` | protocols/cmp/keygen/round3.go:86-96 | A commitment is stored exactly when its constant flag and degree are right, so all stored ones have one shape. |
| `CmpKeys.StoreShare` | protocols/cmp/keygen/round4.go:93-116 | An accepted share opens the commitment; an honest ciphertext is accepted iff its share does; a plaintext that is no scalar is refused. |
| `CmpKeys.Finalize4` | protocols/cmp/keygen/round4.go:126-173 | Secret and all public shares are values of one polynomial of degree t, the sum of the previous one and all commitments; the chain key is kept. |
| `CmpKeys.PublicPoint` | protocols/cmp/config/config.go:60-71 | The interpolation of all public shares is the polynomial's value at zero. |
| `CmpKeys.CanSign` | protocols/cmp/config/config.go:178-211 | True exactly for more than t signers, t below 2^32, sorted without duplicates, all known, including this party. |
| `CmpKeys.ThresholdSuffices` | protocols/cmp/config/config.go:203-211 | For a consistent configuration, sorted known signers with this party among them are enough iff they are at least as many as the polynomial has coefficients. |
| `Parties.Valid` | pkg/party/idslice.go:31-39 | Comparing neighbours decides whether the list is strictly sorted. |
| `Parties.Contains` | pkg/party/idslice.go:20-27 | On a sorted list bisection finds a party exactly when it is there. |
| `Parties.LessIff` | pkg/party/idslice.go:61-61 | The order is that of byte strings: a proper prefix first, else the smaller byte at the first difference. |
| `CmpKeys.Derive` | protocols/cmp/config/config.go:219-252 | Secret and all public shares move by the adjustment; the chain key is the given one if there is one. |
| `CmpKeys.Lifecycle` | protocols/cmp/config/config.go:219-252 | Any sequence of refreshes and derivations keeps one polynomial of the same degree and moves the key by the sum of the adjustments. |
| `CmpKeys.QuorumCanSign` | protocols/cmp/sign/sign.go:48-69 | Any signers that one of the consistent configurations can sign with hold shares of one polynomial of scalars whose value at zero is the secret. |
| `ZkMod.ResidueProduct` | pkg/zk/mod/mod.go:49-60 | Euler's criterion is multiplicative on units. |
| `ZkMod.MinusOne` | pkg/zk/mod/mod.go:103-108 | Minus one is a non-residue modulo a prime that is 3 modulo 4. |
| `ZkMod.IsQRmodPQ` | pkg/zk/mod/mod.go:49-60 | True exactly for units that are squares modulo pq. |
| `ZkMod.EulerCriterion` | pkg/zk/mod/mod.go:49-60 | At a prime that is 3 modulo 4 the power decides whether a unit is a square. |
| `ZkMod.BothIsQuadratic` | pkg/zk/mod/mod.go:49-60 | Passing at both primes is being a unit and a square modulo the product. |
| `ZkMod.OneTwist` | pkg/zk/mod/mod.go:83-121 | At most one of the four twists is a residue at both primes. |
| `ZkMod.MakeQuadraticResidue` | pkg/zk/mod/mod.go:96-121 | For any y and w: the output is (-1)^a w^b y for the first of three twists that is a quadratic residue modulo n, else for the fourth. |
| `ZkMod.TwistWorks` | pkg/zk/mod/mod.go:83-121 | For a unit y and a w of Jacobi symbol -1 the chosen twist is a quadratic residue and the only one of the four, so the fourth needs no test. |
| `ZkMod.TwistOfNonUnit` | pkg/zk/mod/mod.go:96-121 | For a y that is no unit all tests fail and the fourth twist is taken. |
| `ZkMod.SquareRoot` | pkg/zk/mod/mod.go:75-81 | Raising a residue to (phi+4)/8 takes a square root that is again a residue. |
| `ZkMod.FourthRoot` | pkg/zk/mod/mod.go:62-81 | fourthRootExponent gives true fourth roots modulo n exactly of numbers that are, at each prime, a multiple of it or a residue. |
| `ZkMod.NthRoot` | pkg/zk/mod/mod.go:167-178 | Raising to the inverse of N modulo phi and then to N gives y back, for every y below N. |
| `ZkMod.Respond` | pkg/zk/mod/mod.go:174-192 | The response to any challenge is the specified one. |
| `ZkMod.AnswerVerifies` | pkg/zk/mod/mod.go:200-225 | Over all challenges, an honest response verifies iff the challenge is a unit or zero, or w*y is a square at the prime that does not divide y. |
| `ZkMod.NewProof` | pkg/zk/mod/mod.go:156-198 | The responses of a proof verify exactly where the challenge is answerable in that sense. |
| `ZkMod.RejectedResponse` | pkg/zk/mod/mod.go:262-270 | For p = 7, q = 11, w = 2 the honest response to the challenge 14 is rejected. |
| `ZkMod.AcceptedIff` | pkg/zk/mod/mod.go:200-225 | There is an accepted response iff the challenge is an N-th power and one of its twists a fourth power modulo N. |
| `ZkMod.SquareFactorRejected` | pkg/zk/mod/mod.go:200-225 | Soundness: if the square of a prime p divides N, no response is accepted for a challenge that is 1 + p modulo that square. |
| `ZkNth.PowerCommutes` | pkg/zk/nth/nth.go:51-70 | The N-th power of rho^e, taken modulo N, is (rho^N)^e modulo N squared, for exponents of either sign. |
| `ZkNth.Completeness` | pkg/zk/nth/nth.go:51-91 | An honest proof of an N-th power is accepted for every root, nonce and challenge. |
| `ZkNth.NewProof` | pkg/zk/nth/nth.go:51-70 | Makes such a proof. |
| `ZkNth.Verify` | pkg/zk/nth/nth.go:72-91 | Accepts exactly valid numbers with Z^N = A * R^e modulo N squared. |
| `ZkNth.SpecialSoundness` | pkg/zk/nth/nth.go:72-91 | Two accepted answers to one commitment, for challenges whose difference is invertible modulo N, make an N-th root of R. |

## Left out

- AdditiveOT.Receiver.Round2: an index out of range, which is a panic of the source, is an error here.
- Multiplication.Receiver.Round2: the same.
- RandomOT.Receiver.Round1: the receiver is a value that is returned updated, as the source keeps it by value
  in an array; update in place is not captured. The same holds for the other rounds and for the sender.
- Gf2.Accumulate: the words are values; update in place is not captured.
- Exponents.EvaluatePolynomial: excludes index zero, where the source panics.
- Exponents.SumExponents: excludes the empty list, where the source panics.
- FrostKeygen.Participant.StoreBroadcast2: a commitment without coefficients, where the source panics, is
  refused.
- FrostKeygen.Participant.Finalize3: commitments of different shapes, where the source panics, are an error.
- FrostKeygen.FinishedReconstructs: excludes, for Taproot, a key that is the identity, which does not lift.
- KeyLifecycle.TaprootLifecycle: excludes steps that make the key the identity, for the same reason.
- MultiHandler.MultiHandler.Abort: room in the channel is counted against everything ever sent. The source's
  channel is drained by its reader, so there the abort message may still fit when here it is dropped.
- HandlerRuns.BufferSuffices: blocking on a full channel is not modelled; it cannot happen when this applies.
- ZkMod.IsQRmodPQ: for primes that are 3 modulo 4, as in every use.
- ZkMod.TwistWorks: the Jacobi symbol of w is the product of Euler's criteria at the two primes.
- Handler.AdvanceEnters: needs `Bounded`, that is, round numbers up to the protocol's final round, as every
  protocol of the library has them.
- Delivery.OrderIndependence: it is about the messages of one undisturbed execution; what a wrong message does
  depends on when it comes.
- Curve, scalar and big-number internals, BLAKE3, SHA-256, HMAC and CBOR: foreign libraries.
- Secrecy, zero-knowledge, soundness errors and sampling distributions: not functional properties.
- The range and discrete-log proofs of CMP (enc, affg, affp, logstar, elog, fac, prm): the rounds are modelled
  without them.
- Doerner key generation, apart from deriving a configuration, and its `DeriveBIP32`.
- FrostKeygenHonest.HonestKeygen: excludes randomness that the checks of the peers refuse, such as a zero secret
  or an all-zero chain key (`GoodCoins`).
- FrostNetwork.SignNetwork: excludes, for Taproot, a group commitment that is the identity. Then every signer fails
  in round 3 by itself or hears the abort of another; FrostSignHonest.HonestSigning has the first case.
- HandlerBlame.NobodyGetsAway: is about messages that the round checks. A kind of message that the current round
  does not want is an error when it is received, but is not looked at when it was queued before the round started.
- FrostSignHonest.HonestSigning: excludes nonces that are zero, whose commitments the peers refuse.
- ZkNth.Verify: the nil check of the proof is not modelled.
- Presign rounds 1 to 5, which repeat the conversions of signing, and its two abort rounds.
- `Stop` of the handler and `TwoPartyHandler`.
- The mutex of the handler: `Accept` is modelled as one atomic step.
- The worker pool: Parallelize is a loop.
- FROST chain keys in key generation: they are computed but never placed in the result.
- The previous configuration of a FROST refresh, whose share the source updates in place.
- Key-generation services, JSON and base64 codecs, the example protocol, tests and benchmarks.
- Domain separation of forks with an empty tag and of party lists.
