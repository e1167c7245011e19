/** Configurations of the two-party scheme and their derivation. */
module DoernerKeys {
  import opened Zq
  import opened Party
  import CorrelatedOT
  import KeyLifecycle

  datatype ConfigReceiver = ConfigReceiver(setup: CorrelatedOT.ReceiveSetup, share: Scalar, public: Point,
                                           chainKey: seq<Byte>)

  datatype ConfigSender = ConfigSender(setup: CorrelatedOT.SendSetup, share: Scalar, public: Point,
                                       chainKey: seq<Byte>)

  /** ConfigReceiver.Derive: the share moves by the adjustment, the key by its multiple of G; no chain key is kept. */
  method DeriveReceiver(c: ConfigReceiver, adjust: Scalar, newChainKey: seq<Byte>) returns (r: Result<ConfigReceiver>)
    ensures r.Ok? <==> |newChainKey| == 32 || (newChainKey == [] && |c.chainKey| == 32)
    ensures r.Ok? ==> DerivedReceiver(c, r.value, adjust)
  {
    var chainKey := KeyLifecycle.NextChainKey(c.chainKey, newChainKey);
    if chainKey.Err? {
      return Err(chainKey.error);
    }
    var adjustG := ActOnBase(adjust);
    return Ok(ConfigReceiver(c.setup, Add(c.share, adjust), Add(c.public, adjustG), []));
  }

  /** ConfigSender.Derive: the same. */
  method DeriveSender(c: ConfigSender, adjust: Scalar, newChainKey: seq<Byte>) returns (r: Result<ConfigSender>)
    ensures r.Ok? <==> |newChainKey| == 32 || (newChainKey == [] && |c.chainKey| == 32)
    ensures r.Ok? ==> DerivedSender(c, r.value, adjust)
  {
    var chainKey := KeyLifecycle.NextChainKey(c.chainKey, newChainKey);
    if chainKey.Err? {
      return Err(chainKey.error);
    }
    var adjustG := ActOnBase(adjust);
    return Ok(ConfigSender(c.setup, Add(c.share, adjust), Add(c.public, adjustG), []));
  }

  ghost predicate DerivedReceiver(c: ConfigReceiver, d: ConfigReceiver, adjust: Scalar) {
    d == ConfigReceiver(c.setup, Add(c.share, adjust), Add(c.public, ActOnBase(adjust)), [])
  }

  ghost predicate DerivedSender(c: ConfigSender, d: ConfigSender, adjust: Scalar) {
    d == ConfigSender(c.setup, Add(c.share, adjust), Add(c.public, ActOnBase(adjust)), [])
  }

  /** The two shares are an additive sharing of the secret behind the public key that both hold. */
  ghost predicate Shared(r: ConfigReceiver, s: ConfigSender) {
    r.public == s.public == ActOnBase(Add(r.share, s.share))
  }

  /** Both parties add the whole adjustment, so the sharing is kept exactly when there is nothing to add. */
  lemma SharingKept(r: ConfigReceiver, s: ConfigSender, r': ConfigReceiver, s': ConfigSender, adjust: Scalar)
    requires Shared(r, s) && DerivedReceiver(r, r', adjust) && DerivedSender(s, s', adjust)
    ensures Shared(r', s') <==> adjust == 0
    ensures ActOnBase(Add(r'.share, s'.share)) == Add(r'.public, ActOnBase(adjust))
  {
    hide Mul;
    var x := Add(r.share, s.share);
    AddSwap(r.share, adjust, s.share, adjust);
    MulAdd(G, x, Add(adjust, adjust));
    MulAdd(G, x, adjust);
    MulAdd(G, Add(x, adjust), adjust);
    AddAssoc(x, adjust, adjust);
    BaseInjective(Add(x, adjust), Add(Add(x, adjust), adjust));
  }

  /** A sharing of any secret is lost by an adjustment of one. */
  lemma SharingLost(r: ConfigReceiver, s: ConfigSender, r': ConfigReceiver, s': ConfigSender)
    requires Shared(r, s) && DerivedReceiver(r, r', 1) && DerivedSender(s, s', 1)
    ensures !Shared(r', s')
  {
    SharingKept(r, s, r', s', 1);
  }

  /** After a derivation there is no chain key left, so the next one succeeds exactly when it is given one. */
  lemma NextDerivation(r: ConfigReceiver, s: ConfigSender, r': ConfigReceiver, s': ConfigSender, adjust: Scalar,
                       newChainKey: seq<Byte>)
    requires DerivedReceiver(r, r', adjust) && DerivedSender(s, s', adjust)
    ensures KeyLifecycle.NextChainKey(r'.chainKey, newChainKey).Ok? <==> |newChainKey| == 32
    ensures KeyLifecycle.NextChainKey(s'.chainKey, newChainKey).Ok? <==> |newChainKey| == 32
  {
  }
}
