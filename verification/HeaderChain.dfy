/**
 Validating headers and verifying them against trusted ones (types/src/extended_header.rs,
 types/src/block.rs). Hash functions, signature verification and the clock are parameters.
 */
module HeaderChains {
  import opened Wrappers
  import opened ValidatorSets
  import B = BlockRangeSets
  import DAH = DataAvailabilityHeaders

  const GENESIS_HEIGHT := 1
  const BLOCK_PROTOCOL := 11
  const MAX_CHAIN_ID_LEN := 50
  const SIGNATURE_LENGTH := 64
  const MIN_EXTENDED_SQUARE_WIDTH := 2
  const MAX_EXTENDED_SQUARE_WIDTH := 256
  const VERIFY_CLOCK_DRIFT := 10_000_000_000 // nanoseconds

  /** A validator set whose total power is a number of 64 bits. */
  type Validators = v: seq<Validator> | Total(v) <= B.U64_MAX

  datatype Header = Header(
    blockVersion: nat, appVersion: nat, chainId: string, height: nat, time: int,
    lastBlockId: Option<BlockId>, validatorsHash: Hash, nextValidatorsHash: Hash, dataHash: Option<Hash>,
    otherHashes: seq<Hash>)

  datatype ExtendedHeader = ExtendedHeader(
    header: Header, commit: Commit, validators: Validators, hasProposer: bool, dah: DAH.DataAvailabilityHeader)
  {
    /** The hash of a header is the one its commit names. */
    function Hash(): Hash { commit.blockId.hash }

    function LastHeaderHash(): Hash {
      if header.lastBlockId.Some? then header.lastBlockId.value.hash else NoHash
    }
  }

  /** What the code calls but does not define. */
  datatype Env = Env(
    headerHash: Header -> Hash, validatorsHash: seq<Validator> -> Hash,
    dahHash: DAH.DataAvailabilityHeader -> Hash, verify: Verifier)

  datatype HeaderError =
    | BlockProtocol | ChainIdTooLong | HeightZero | LastBlockIdAtGenesis | LastBlockIdMissing
    | BlockIdZero | NoSignatures | SignatureLength
    | NoValidators | NoProposer
    | ValidatorsHashMismatch | DataHashMismatch | CommitHeightMismatch | CommitHashMismatch
    | UnsupportedAppVersion | RootCountMismatch | SquareTooSmall | SquareTooLarge
    | NotNewer | OtherChain | NotAfter | FromTheFuture | OtherValidators | NotLinked | NotAdjacent
    | BadCommit(error: VerificationError)

  // ---- validation ----------------------------------------------------------------------------

  function ValidateHeader(h: Header): (error: Option<HeaderError>)
    ensures error.None? <==>
              && h.blockVersion == 11 && |h.chainId| <= 50 && 1 <= h.height
              && (h.lastBlockId.None? <==> h.height == 1)
  {
    if h.blockVersion != BLOCK_PROTOCOL then Some(BlockProtocol)
    else if |h.chainId| > MAX_CHAIN_ID_LEN then Some(ChainIdTooLong)
    else if h.height == 0 then Some(HeightZero)
    else if h.height == GENESIS_HEIGHT && h.lastBlockId.Some? then Some(LastBlockIdAtGenesis)
    else if h.height != GENESIS_HEIGHT && h.lastBlockId.None? then Some(LastBlockIdMissing)
    else None
  }

  predicate IsZero(id: BlockId) { id == BlockId(NoHash, 0, NoHash) }

  predicate SignatureOk(s: CommitSig) { s.Absent? || (s.signature.Some? && |s.signature.value| == SIGNATURE_LENGTH) }

  method ValidateCommit(c: Commit) returns (error: Option<HeaderError>)
    ensures error.None? <==> CommitOk(c)
  {
    if c.height >= GENESIS_HEIGHT {
      if IsZero(c.blockId) {
        return Some(BlockIdZero);
      }
      if c.signatures == [] {
        return Some(NoSignatures);
      }
      for i := 0 to |c.signatures|
        invariant forall j :: 0 <= j < i ==> SignatureOk(c.signatures[j])
      {
        if !SignatureOk(c.signatures[i]) {
          return Some(SignatureLength);
        }
      }
    }
    return None;
  }

  ghost predicate CommitOk(c: Commit) {
    c.height >= 1 ==>
      && c.blockId != BlockId(NoHash, 0, NoHash) && c.signatures != []
      && forall i :: 0 <= i < |c.signatures| && !c.signatures[i].Absent? ==>
           c.signatures[i].signature.Some? && |c.signatures[i].signature.value| == 64
  }

  function ValidateDah(dah: DAH.DataAvailabilityHeader): (error: Option<HeaderError>)
    ensures error.None? <==> |dah.rowRoots| == |dah.columnRoots| && 2 <= |dah.rowRoots| <= 256
  {
    if |dah.columnRoots| != |dah.rowRoots| then Some(RootCountMismatch)
    else if |dah.rowRoots| < MIN_EXTENDED_SQUARE_WIDTH then Some(SquareTooSmall)
    else if |dah.rowRoots| > MAX_EXTENDED_SQUARE_WIDTH then Some(SquareTooLarge)
    else None
  }

  /** The parts of a header that belong together do. */
  ghost predicate Consistent(env: Env, h: ExtendedHeader) {
    && env.validatorsHash(h.validators) == h.header.validatorsHash
    && env.dahHash(h.dah) == (if h.header.dataHash.Some? then h.header.dataHash.value else NoHash)
    && h.commit.height == h.header.height
    && h.commit.blockId.hash == env.headerHash(h.header)
  }

  ghost predicate Validated(env: Env, h: ExtendedHeader) {
    && ValidateHeader(h.header).None? && CommitOk(h.commit) && h.validators != [] && h.hasProposer
    && Consistent(env, h)
    && LightAccepts(env.verify, h.header.chainId, h.header.height, h.validators, h.commit)
    && h.header.appVersion in {1, 2, 3} && ValidateDah(h.dah).None?
  }

  /** `validate`. */
  method Validate(env: Env, h: ExtendedHeader) returns (r: Result<(), HeaderError>)
    ensures r.Ok? <==> Validated(env, h)
  {
    var headerError := ValidateHeader(h.header);
    if headerError.Some? {
      return Err(headerError.value);
    }
    var commitError := ValidateCommit(h.commit);
    if commitError.Some? {
      return Err(commitError.value);
    }
    if h.validators == [] {
      return Err(NoValidators);
    }
    if !h.hasProposer {
      return Err(NoProposer);
    }
    if env.validatorsHash(h.validators) != h.header.validatorsHash {
      return Err(ValidatorsHashMismatch);
    }
    if env.dahHash(h.dah) != (if h.header.dataHash.Some? then h.header.dataHash.value else NoHash) {
      return Err(DataHashMismatch);
    }
    if h.commit.height != h.header.height {
      return Err(CommitHeightMismatch);
    }
    if h.commit.blockId.hash != env.headerHash(h.header) {
      return Err(CommitHashMismatch);
    }
    var votes := VerifyCommitLight(env.verify, h.header.chainId, h.header.height, h.validators, h.commit);
    if votes.Err? {
      return Err(BadCommit(votes.error));
    }
    if h.header.appVersion !in {1, 2, 3} {
      return Err(UnsupportedAppVersion);
    }
    var dahError := ValidateDah(h.dah);
    return if dahError.Some? then Err(dahError.value) else Ok(());
  }

  // ---- verification --------------------------------------------------------------------------

  /** A newer header of the same chain, later than the trusted one, not from the future. */
  ghost predicate Newer(trusted: Header, untrusted: Header, now: int) {
    && trusted.height < untrusted.height && trusted.chainId == untrusted.chainId
    && trusted.time < untrusted.time < now + 10_000_000_000
  }

  ghost predicate Adjacent(trusted: ExtendedHeader, untrusted: ExtendedHeader) {
    trusted.header.height + 1 == untrusted.header.height
  }

  /** The next header names the trusted one and has the validators it announced. */
  ghost predicate Linked(trusted: ExtendedHeader, untrusted: ExtendedHeader) {
    && untrusted.header.validatorsHash == trusted.header.nextValidatorsHash
    && untrusted.LastHeaderHash() == trusted.Hash()
  }

  ghost predicate Verified(env: Env, trusted: ExtendedHeader, untrusted: ExtendedHeader, now: int) {
    && Newer(trusted.header, untrusted.header, now)
    && if Adjacent(trusted, untrusted) then Linked(trusted, untrusted)
       else SignedByThird(env.verify, trusted.header.chainId, trusted.validators, untrusted.commit)
  }

  /** Some prefix of the commit is in order and its votes exceed a third of the trusted power. */
  ghost predicate SignedByThird(verify: Verifier, chainId: string, validators: Validators, commit: Commit) {
    exists n: nat :: PrefixInOrder(verify, chainId, validators, commit, n)
                     && 3 * Power(validators, Known(validators, commit, n)) > Total(validators)
  }

  lemma DefaultLevelIsThird(verify: Verifier, chainId: string, validators: Validators, commit: Commit)
    ensures TrustingAccepts(verify, chainId, validators, commit, DEFAULT_TRUST_LEVEL)
            <==> SignedByThird(verify, chainId, validators, commit)
  {
  }

  /** `verify`, with the time at which it reads the clock. */
  method Verify(env: Env, trusted: ExtendedHeader, untrusted: ExtendedHeader, now: int)
    returns (r: Result<(), HeaderError>)
    ensures r.Ok? <==> Verified(env, trusted, untrusted, now)
  {
    if untrusted.header.height <= trusted.header.height {
      return Err(NotNewer);
    }
    if untrusted.header.chainId != trusted.header.chainId {
      return Err(OtherChain);
    }
    if untrusted.header.time <= trusted.header.time {
      return Err(NotAfter);
    }
    if untrusted.header.time >= now + VERIFY_CLOCK_DRIFT {
      return Err(FromTheFuture);
    }
    if trusted.header.height + 1 == untrusted.header.height {
      if untrusted.header.validatorsHash != trusted.header.nextValidatorsHash {
        return Err(OtherValidators);
      }
      if untrusted.LastHeaderHash() != trusted.Hash() {
        return Err(NotLinked);
      }
      return Ok(());
    }
    var votes := VerifyCommitLightTrusting(
      env.verify, trusted.header.chainId, trusted.validators, untrusted.commit, DEFAULT_TRUST_LEVEL);
    DefaultLevelIsThird(env.verify, trusted.header.chainId, trusted.validators, untrusted.commit);
    return if votes.Err? then Err(BadCommit(votes.error)) else Ok(());
  }

  /** The header that header `i` of a range is verified against. */
  ghost function Before(trusted: ExtendedHeader, range: seq<ExtendedHeader>, i: nat): ExtendedHeader
    requires i < |range|
  {
    if i == 0 then trusted else range[i - 1]
  }

  ghost predicate StepVerified(env: Env, trusted: ExtendedHeader, range: seq<ExtendedHeader>, clock: seq<int>, i: nat)
    requires i < |range| == |clock|
  {
    && Verified(env, Before(trusted, range, i), range[i], clock[i])
    && (i > 0 ==> Adjacent(range[i - 1], range[i]))
  }

  ghost predicate RangeVerified(env: Env, trusted: ExtendedHeader, range: seq<ExtendedHeader>, clock: seq<int>)
    requires |range| == |clock|
  {
    forall i: nat :: i < |range| ==> StepVerified(env, trusted, range, clock, i)
  }

  /** `verify_range`; `clock` holds the times at which the headers are verified. */
  method VerifyRange(env: Env, trusted: ExtendedHeader, range: seq<ExtendedHeader>, clock: seq<int>)
    returns (r: Result<(), HeaderError>)
    requires |range| == |clock|
    ensures r.Ok? <==> RangeVerified(env, trusted, range, clock)
  {
    var last := trusted;
    for i := 0 to |range|
      invariant i > 0 ==> last == range[i - 1]
      invariant i == 0 ==> last == trusted
      invariant forall j: nat :: j < i ==> StepVerified(env, trusted, range, clock, j)
    {
      if i != 0 && last.header.height + 1 != range[i].header.height {
        assert !StepVerified(env, trusted, range, clock, i);
        return Err(NotAdjacent);
      }
      var step := Verify(env, last, range[i], clock[i]);
      if step.Err? {
        assert !StepVerified(env, trusted, range, clock, i);
        return Err(step.error);
      }
      last := range[i];
    }
    r := Ok(());
  }

  ghost predicate AdjacentRangeVerified(env: Env, trusted: ExtendedHeader, range: seq<ExtendedHeader>, clock: seq<int>)
    requires |range| == |clock|
  {
    range != [] ==> Adjacent(trusted, range[0]) && RangeVerified(env, trusted, range, clock)
  }

  /** `verify_adjacent_range`. */
  method VerifyAdjacentRange(env: Env, trusted: ExtendedHeader, range: seq<ExtendedHeader>, clock: seq<int>)
    returns (r: Result<(), HeaderError>)
    requires |range| == |clock|
    ensures r.Ok? <==> AdjacentRangeVerified(env, trusted, range, clock)
  {
    if range == [] {
      return Ok(());
    }
    if trusted.header.height + 1 != range[0].header.height {
      return Err(NotAdjacent);
    }
    r := VerifyRange(env, trusted, range, clock);
  }

  // ---- what verification guarantees ----------------------------------------------------------

  /** An accepted adjacent range is one chain: consecutive heights, each header naming the one before. */
  lemma {:induction false} RangeIsChain(env: Env, trusted: ExtendedHeader, range: seq<ExtendedHeader>,
                                        clock: seq<int>, i: nat)
    requires i < |range| == |clock| && AdjacentRangeVerified(env, trusted, range, clock)
    ensures range[i].header.height == trusted.header.height + 1 + i
    ensures range[i].header.chainId == trusted.header.chainId
    ensures Linked(Before(trusted, range, i), range[i])
  {
    assert StepVerified(env, trusted, range, clock, i);
    if i > 0 { RangeIsChain(env, trusted, range, clock, i - 1); }
  }

  lemma {:induction false} TimesIncrease(env: Env, trusted: ExtendedHeader, range: seq<ExtendedHeader>,
                                         clock: seq<int>, i: nat, j: nat)
    requires i <= j < |range| == |clock| && RangeVerified(env, trusted, range, clock)
    ensures trusted.header.time < range[i].header.time <= range[j].header.time
    ensures i < j ==> range[i].header.time < range[j].header.time
    decreases j
  {
    assert StepVerified(env, trusted, range, clock, j);
    if i < j {
      TimesIncrease(env, trusted, range, clock, i, j - 1);
    } else if j > 0 {
      TimesIncrease(env, trusted, range, clock, j - 1, j - 1);
    }
  }

  ghost predicate Collision(env: Env, a: Header, b: Header) { a != b && env.headerHash(a) == env.headerHash(b) }

  ghost predicate AllConsistent(env: Env, range: seq<ExtendedHeader>) {
    forall i :: 0 <= i < |range| ==> Consistent(env, range[i])
  }

  /** Two runs carry the same block at position `k`. */
  ghost predicate SameBlock(env: Env, a: ExtendedHeader, b: ExtendedHeader) {
    && a.header == b.header && a.Hash() == b.Hash()
    && env.validatorsHash(a.validators) == env.validatorsHash(b.validators)
    && env.dahHash(a.dah) == env.dahHash(b.dah)
  }

  /**
   Anchoring at the head pins the range: two validated runs of the same length that verify and
   end in the same hash carry the same block header at every position and start from the same
   hash - or two of their headers at the same position collide.
   */
  lemma HeadPinsRange(env: Env, a: ExtendedHeader, b: ExtendedHeader, u: seq<ExtendedHeader>,
                      v: seq<ExtendedHeader>, clock: seq<int>, clock': seq<int>)
    requires 0 < |u| == |v| == |clock| == |clock'|
    requires forall i :: 0 <= i < |u| ==> Validated(env, u[i]) && Validated(env, v[i])
    requires AdjacentRangeVerified(env, a, u, clock) && AdjacentRangeVerified(env, b, v, clock')
    requires u[|u| - 1].Hash() == v[|v| - 1].Hash()
    ensures || (exists k :: 0 <= k < |u| && Collision(env, u[k].header, v[k].header))
            || (a.Hash() == b.Hash() && forall k :: 0 <= k < |u| ==> SameBlock(env, u[k], v[k]))
  {
    assert AllConsistent(env, u) && AllConsistent(env, v);
    if forall k :: 0 <= k < |u| ==> !Collision(env, u[k].header, v[k].header) {
      AllLinked(env, a, u, clock);
      AllLinked(env, b, v, clock');
      forall k: nat | k < |u| ensures SameBlock(env, u[k], v[k]) {
        PinnedFrom(env, u, v, k);
      }
    }
  }

  /** Each header of the range names the one before it, the first the trusted one. */
  ghost predicate HashLinked(range: seq<ExtendedHeader>) {
    forall i :: 0 < i < |range| ==> range[i].LastHeaderHash() == range[i - 1].Hash()
  }

  lemma {:induction false} AllLinked(env: Env, trusted: ExtendedHeader, range: seq<ExtendedHeader>, clock: seq<int>)
    requires 0 < |range| == |clock| && AdjacentRangeVerified(env, trusted, range, clock)
    ensures HashLinked(range) && range[0].LastHeaderHash() == trusted.Hash()
  {
    forall i: nat | i < |range| ensures range[i].LastHeaderHash() == Before(trusted, range, i).Hash() {
      RangeIsChain(env, trusted, range, clock, i);
    }
  }

  lemma {:induction false} PinnedFrom(env: Env, u: seq<ExtendedHeader>, v: seq<ExtendedHeader>, k: nat)
    requires k < |u| == |v| && u[|u| - 1].Hash() == v[|v| - 1].Hash()
    requires AllConsistent(env, u) && AllConsistent(env, v) && HashLinked(u) && HashLinked(v)
    requires forall i :: 0 <= i < |u| ==> !Collision(env, u[i].header, v[i].header)
    ensures SameBlock(env, u[k], v[k])
    decreases |u| - k
  {
    if k + 1 < |u| {
      PinnedFrom(env, u, v, k + 1);
      assert u[k + 1].LastHeaderHash() == u[k].Hash() && v[k + 1].LastHeaderHash() == v[k].Hash();
    }
    assert Consistent(env, u[k]) && Consistent(env, v[k]);
    assert !Collision(env, u[k].header, v[k].header);
  }

  /**
   A header accepted without its neighbours carries the vote of a trusted validator outside any
   set of faulty ones with at most a third of the trusted power.
   */
  lemma {:induction false} SkippingNeedsHonestVote(env: Env, trusted: ExtendedHeader, untrusted: ExtendedHeader,
                                                   now: int, faulty: set<nat>)
    returns (honest: nat)
    requires Verified(env, trusted, untrusted, now) && !Adjacent(trusted, untrusted)
    requires 3 * Power(trusted.validators, faulty) <= Total(trusted.validators)
    ensures honest < |trusted.validators| && honest !in faulty
    ensures SignedVote(env.verify, trusted.validators[honest].key, trusted.header.chainId,
                       untrusted.commit.height, untrusted.commit.round, untrusted.commit.blockId)
  {
    DefaultLevelIsThird(env.verify, trusted.header.chainId, trusted.validators, untrusted.commit);
    TrustFractionSigned(env.verify, trusted.header.chainId, trusted.validators, untrusted.commit, DEFAULT_TRUST_LEVEL);
    var signers := TrustedSigners(env.verify, trusted.header.chainId, trusted.validators, untrusted.commit);
    honest := MorePowerful(trusted.validators, signers, faulty);
    var i: nat :| i < |untrusted.commit.signatures|
                  && Signed(env.verify, trusted.header.chainId, untrusted.commit, i, trusted.validators[honest].key);
    SignedIsVote(env.verify, trusted.header.chainId, untrusted.commit, i, trusted.validators[honest].key);
  }

  /**
   Two different validated headers of one height with the same validators exist only if validators
   with more than a third of the power signed votes for two different blocks at that height.
   */
  lemma ForkNeedsThird(env: Env, a: ExtendedHeader, b: ExtendedHeader)
    requires Validated(env, a) && Validated(env, b)
    requires a.header.chainId == b.header.chainId && a.header.height == b.header.height
    requires a.validators == b.validators && a.Hash() != b.Hash()
    ensures var both := Signers(env.verify, a.header.chainId, a.validators, a.commit)
                        * Signers(env.verify, b.header.chainId, b.validators, b.commit);
            && 3 * Power(a.validators, both) > Total(a.validators)
            && a.commit.blockId != b.commit.blockId
            && forall i | i in both ::
                 && SignedVote(env.verify, a.validators[i].key, a.header.chainId, a.header.height, a.commit.round,
                               a.commit.blockId)
                 && SignedVote(env.verify, a.validators[i].key, a.header.chainId, a.header.height, b.commit.round,
                               b.commit.blockId)
  {
    NoPower(a.validators);
    forall i: nat | i in Signers(env.verify, a.header.chainId, a.validators, a.commit)
                         * Signers(env.verify, b.header.chainId, b.validators, b.commit)
      ensures SignedVote(env.verify, a.validators[i].key, a.header.chainId, a.header.height, a.commit.round,
                         a.commit.blockId)
      ensures SignedVote(env.verify, a.validators[i].key, a.header.chainId, a.header.height, b.commit.round,
                         b.commit.blockId)
    {
      SignedIsVote(env.verify, a.header.chainId, a.commit, i, a.validators[i].key);
      SignedIsVote(env.verify, a.header.chainId, b.commit, i, a.validators[i].key);
    }
    var _ := QuorumsIntersect(env.verify, a.header.chainId, b.header.chainId, a.header.height, b.header.height,
                              a.validators, a.commit, b.commit, {});
  }
}
