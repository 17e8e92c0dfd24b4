/**
 Checking the votes of a commit against a validator set (types/src/validator_set.rs,
 types/src/trust_level.rs). Signature verification is a parameter.
 */
module ValidatorSets {
  import opened Wrappers
  import B = BlockRangeSets

  datatype Hash = NoHash | Sha256(bytes: seq<nat>)

  datatype BlockId = BlockId(hash: Hash, partsTotal: nat, partsHash: Hash)

  type Address = nat

  type Key = nat

  type Signature = seq<nat>

  datatype Validator = Validator(address: Address, key: Key, power: B.u64)

  datatype CommitSig =
    | Absent
    | ForNil(address: Address, timestamp: int, signature: Option<Signature>)
    | ForBlock(address: Address, timestamp: int, signature: Option<Signature>)

  datatype Commit = Commit(height: nat, round: nat, blockId: BlockId, signatures: seq<CommitSig>)

  /** The canonical precommit that a validator signs. */
  datatype Vote = Vote(chainId: string, height: nat, round: nat, blockId: BlockId, timestamp: int)

  /** Does this key verify this signature of this vote? */
  type Verifier = (Key, Vote, Signature) -> bool

  datatype VerificationError =
    | SignatureCountMismatch
    | HeightMismatch
    | Overflow
    | DivisionByZero
    | NoSignature(index: nat)
    | InvalidSignature(index: nat)
    | DoubleVote(first: nat, second: nat)
    | NotEnoughVotingPower(tallied: nat, needed: nat)

  // ---- trust levels --------------------------------------------------------------------------

  datatype TrustLevelRatio = TrustLevelRatio(numerator: B.u64, denominator: B.u64) {

    /** The power that must be exceeded. */
    function VotingPowerNeeded(total: B.u64): (r: Result<B.u64, VerificationError>)
      ensures r.Ok? <==> numerator as int * total <= B.U64_MAX && denominator != 0
      ensures r.Ok? ==> r.value * denominator <= numerator as int * total < (r.value + 1) * denominator
    {
      if numerator as int * total > B.U64_MAX then Err(Overflow)
      else if denominator == 0 then Err(DivisionByZero)
      else
        QuotientBelow(numerator as int * total, denominator);
        QuotientBounds(numerator as int * total, denominator);
        Ok(numerator as int * total / denominator)
    }
  }

  const TWO_THIRDS := TrustLevelRatio(2, 3)
  const DEFAULT_TRUST_LEVEL := TrustLevelRatio(1, 3)

  lemma QuotientBelow(n: nat, d: nat)
    requires d > 0
    ensures 0 <= n / d <= n
  {
    assert n == d * (n / d) + n % d;
    if n / d >= 0 { Product(1, d, n / d); } else { Product(1, -(n / d), d); }
  }

  lemma QuotientBounds(n: nat, d: nat)
    requires d > 0
    ensures n / d * d <= n < (n / d + 1) * d
  {
    assert n == n / d * d + n % d;
  }

  /** Rounding down loses nothing: exceeding the quotient is exceeding the fraction. */
  lemma ExceedsFraction(level: TrustLevelRatio, total: B.u64, power: nat)
    requires level.VotingPowerNeeded(total).Ok?
    ensures power > level.VotingPowerNeeded(total).value <==>
            power * level.denominator > level.numerator as int * total
  {
    var a: nat, d: nat := level.numerator as int * total, level.denominator;
    var q := a / d;
    assert q * d + a % d == a;
    if power > q {
      Product(q + 1, power, d);
    } else {
      Product(power, q, d);
    }
  }

  lemma Product(x: nat, y: nat, d: nat)
    requires x <= y
    ensures x * d <= y * d
  {
  }

  // ---- voting power of sets of validators ----------------------------------------------------

  function Total(validators: seq<Validator>): nat {
    if validators == [] then 0
    else Total(validators[..|validators| - 1]) + validators[|validators| - 1].power
  }

  ghost function Power(validators: seq<Validator>, who: set<nat>): nat {
    if validators == [] then 0
    else
      var n := |validators| - 1;
      Power(validators[..n], who) + if n in who then validators[n].power else 0
  }

  lemma {:induction false} PowerAtMostTotal(validators: seq<Validator>, who: set<nat>)
    ensures Power(validators, who) <= Total(validators)
  {
    if validators != [] { PowerAtMostTotal(validators[..|validators| - 1], who); }
  }

  lemma {:induction false} PowerMonotone(validators: seq<Validator>, a: set<nat>, b: set<nat>)
    requires forall i | i in a :: i < |validators| ==> i in b
    ensures Power(validators, a) <= Power(validators, b)
  {
    if validators != [] { PowerMonotone(validators[..|validators| - 1], a, b); }
  }

  lemma {:induction false} PowerUnionIntersection(validators: seq<Validator>, a: set<nat>, b: set<nat>)
    ensures Power(validators, a) + Power(validators, b) == Power(validators, a + b) + Power(validators, a * b)
  {
    if validators != [] { PowerUnionIntersection(validators[..|validators| - 1], a, b); }
  }

  lemma {:induction false} PowerAdd(validators: seq<Validator>, who: set<nat>, k: nat)
    requires k < |validators| && k !in who
    ensures Power(validators, who + {k}) == Power(validators, who) + validators[k].power
  {
    var n := |validators| - 1;
    if k < n {
      PowerAdd(validators[..n], who, k);
    } else {
      PowerOutside(validators[..n], who, k);
    }
  }

  lemma {:induction false} PowerOutside(validators: seq<Validator>, who: set<nat>, k: nat)
    requires k >= |validators|
    ensures Power(validators, who + {k}) == Power(validators, who)
  {
    if validators != [] { PowerOutside(validators[..|validators| - 1], who, k); }
  }

  // ---- the full check ------------------------------------------------------------------------

  /** `vote_sign_bytes` at an index that holds a vote for the block. */
  function VoteAt(commit: Commit, chainId: string, i: nat): Vote
    requires i < |commit.signatures| && commit.signatures[i].ForBlock?
  {
    Vote(chainId, commit.height, commit.round, commit.blockId, commit.signatures[i].timestamp)
  }

  /** Entry `i` of the commit is a vote for the block that the key's owner signed. */
  predicate Signed(verify: Verifier, chainId: string, commit: Commit, i: nat, key: Key)
    requires i < |commit.signatures|
  {
    && commit.signatures[i].ForBlock? && commit.signatures[i].signature.Some?
    && verify(key, VoteAt(commit, chainId, i), commit.signatures[i].signature.value)
  }

  /** The owner of the key signed a precommit for this block, in this round, at this height of this chain. */
  ghost predicate SignedVote(verify: Verifier, key: Key, chainId: string, height: nat, round: nat, blockId: BlockId) {
    exists timestamp: int, signature: Signature :: verify(key, Vote(chainId, height, round, blockId, timestamp), signature)
  }

  /** A signature counts only for a vote of this chain, and of the commit's height, round and block. */
  lemma SignedIsVote(verify: Verifier, chainId: string, commit: Commit, i: nat, key: Key)
    requires i < |commit.signatures| && Signed(verify, chainId, commit, i, key)
    ensures SignedVote(verify, key, chainId, commit.height, commit.round, commit.blockId)
  {
    var entry := commit.signatures[i];
    assert verify(key, Vote(chainId, commit.height, commit.round, commit.blockId, entry.timestamp), entry.signature.value);
  }

  /** Which of the first `n` entries vote for the block. */
  ghost function Voters(commit: Commit, n: nat): set<nat>
    requires n <= |commit.signatures|
  {
    set i: nat | i < n && commit.signatures[i].ForBlock?
  }

  ghost predicate PrefixSigned(verify: Verifier, chainId: string, validators: seq<Validator>, commit: Commit, n: nat)
    requires |validators| == |commit.signatures|
  {
    && n <= |validators|
    && forall i: nat :: i < n && commit.signatures[i].ForBlock? ==>
         Signed(verify, chainId, commit, i, validators[i].key)
  }

  /** Some prefix of the commit is in order and its votes exceed two thirds. */
  ghost predicate LightAccepts(verify: Verifier, chainId: string, height: nat, validators: seq<Validator>, commit: Commit) {
    && |validators| == |commit.signatures| && height == commit.height
    && 2 * Total(validators) <= B.U64_MAX
    && exists n: nat :: PrefixSigned(verify, chainId, validators, commit, n)
                        && 3 * Power(validators, Voters(commit, n)) > 2 * Total(validators)
  }

  /** The rounded threshold of two thirds in numbers. */
  lemma TwoThirdsExceeded(total: B.u64, power: nat)
    ensures TWO_THIRDS.VotingPowerNeeded(total).Ok? <==> 2 * total <= B.U64_MAX
    ensures 2 * total <= B.U64_MAX ==>
              (power > TWO_THIRDS.VotingPowerNeeded(total).value <==> 3 * power > 2 * total)
  {
    if 2 * total <= B.U64_MAX { ExceedsFraction(TWO_THIRDS, total, power); }
  }

  /** `verify_commit_light`. */
  method VerifyCommitLight(verify: Verifier, chainId: string, height: nat, validators: seq<Validator>, commit: Commit)
    returns (r: Result<(), VerificationError>)
    requires Total(validators) <= B.U64_MAX
    ensures r.Ok? <==> LightAccepts(verify, chainId, height, validators, commit)
    ensures r.Err? && r.error.NotEnoughVotingPower? ==>
              && |validators| == |commit.signatures|
              && r.error.tallied == Power(validators, Voters(commit, |validators|)) <= r.error.needed
              && 3 * r.error.needed <= 2 * Total(validators) < 3 * (r.error.needed + 1)
  {
    if |validators| != |commit.signatures| {
      return Err(SignatureCountMismatch);
    }
    if height != commit.height {
      return Err(HeightMismatch);
    }
    var needed := TWO_THIRDS.VotingPowerNeeded(Total(validators));
    TwoThirdsExceeded(Total(validators), 0);
    if needed.Err? {
      return Err(needed.error);
    }
    var tallied: B.u64 := 0;
    NoPower(validators);
    assert Voters(commit, 0) == {};
    for idx := 0 to |validators|
      invariant PrefixSigned(verify, chainId, validators, commit, idx)
      invariant tallied == Power(validators, Voters(commit, idx)) <= needed.value
    {
      CountVoter(validators, commit, idx);
      var entry := commit.signatures[idx];
      if !entry.ForBlock? {
        continue;
      }
      if entry.signature.None? {
        NoLongerPrefix(verify, chainId, validators, commit, idx, needed.value);
        return Err(NoSignature(idx));
      }
      if !verify(validators[idx].key, VoteAt(commit, chainId, idx), entry.signature.value) {
        NoLongerPrefix(verify, chainId, validators, commit, idx, needed.value);
        return Err(InvalidSignature(idx));
      }
      PowerAtMostTotal(validators, Voters(commit, idx + 1));
      tallied := tallied + validators[idx].power;
      if tallied > needed.value {
        TwoThirdsExceeded(Total(validators), tallied);
        assert PrefixSigned(verify, chainId, validators, commit, idx + 1);
        return Ok(());
      }
    }
    forall n: nat | n <= |validators| ensures Power(validators, Voters(commit, n)) <= needed.value {
      PowerMonotone(validators, Voters(commit, n), Voters(commit, |validators|));
    }
    r := Err(NotEnoughVotingPower(tallied, needed.value));
  }

  lemma {:induction false} NoPower(validators: seq<Validator>)
    ensures Power(validators, {}) == 0
  {
    if validators != [] { NoPower(validators[..|validators| - 1]); }
  }

  lemma {:induction false} CountVoter(validators: seq<Validator>, commit: Commit, i: nat)
    requires i < |validators| == |commit.signatures|
    ensures Power(validators, Voters(commit, i + 1)) ==
            Power(validators, Voters(commit, i)) + if commit.signatures[i].ForBlock? then validators[i].power else 0
  {
    if commit.signatures[i].ForBlock? {
      assert Voters(commit, i + 1) == Voters(commit, i) + {i};
      PowerAdd(validators, Voters(commit, i), i);
    } else {
      assert Voters(commit, i + 1) == Voters(commit, i);
    }
  }

  /** A bad vote before the quorum is reached: shorter prefixes have no quorum, longer ones are bad. */
  lemma {:induction false} NoLongerPrefix(verify: Verifier, chainId: string, validators: seq<Validator>,
                                          commit: Commit, i: nat, needed: nat)
    requires i < |validators| == |commit.signatures| && commit.signatures[i].ForBlock?
    requires !Signed(verify, chainId, commit, i, validators[i].key)
    requires Power(validators, Voters(commit, i)) <= needed && 3 * needed <= 2 * Total(validators)
    ensures forall n: nat :: PrefixSigned(verify, chainId, validators, commit, n) ==>
                               3 * Power(validators, Voters(commit, n)) <= 2 * Total(validators)
  {
    forall n: nat | PrefixSigned(verify, chainId, validators, commit, n)
      ensures 3 * Power(validators, Voters(commit, n)) <= 2 * Total(validators)
    {
      PowerMonotone(validators, Voters(commit, n), Voters(commit, i));
    }
  }

  // ---- quorums -------------------------------------------------------------------------------

  /** The validators whose own entry in the commit is a vote they signed. */
  ghost function Signers(verify: Verifier, chainId: string, validators: seq<Validator>, commit: Commit): set<nat>
    requires |validators| == |commit.signatures|
  {
    set i: nat | i < |validators| && Signed(verify, chainId, commit, i, validators[i].key)
  }

  lemma {:induction false} AcceptedByTwoThirds(verify: Verifier, chainId: string, height: nat,
                                               validators: seq<Validator>, commit: Commit)
    requires LightAccepts(verify, chainId, height, validators, commit)
    ensures 3 * Power(validators, Signers(verify, chainId, validators, commit)) > 2 * Total(validators)
  {
    var n: nat :| PrefixSigned(verify, chainId, validators, commit, n)
                  && 3 * Power(validators, Voters(commit, n)) > 2 * Total(validators);
    PowerMonotone(validators, Voters(commit, n), Signers(verify, chainId, validators, commit));
  }

  /**
   Two commits accepted on the same validator set have common signers with more than a third of
   the power, so some signer of both is outside any set of faulty validators with at most a third.
   */
  lemma {:induction false} QuorumsIntersect(verify: Verifier, chainId: string, chainId': string,
                                            height: nat, height': nat, validators: seq<Validator>,
                                            commit: Commit, commit': Commit, faulty: set<nat>)
    returns (honest: nat)
    requires LightAccepts(verify, chainId, height, validators, commit)
    requires LightAccepts(verify, chainId', height', validators, commit')
    requires 3 * Power(validators, faulty) <= Total(validators)
    ensures 3 * Power(validators, Signers(verify, chainId, validators, commit) * Signers(verify, chainId', validators, commit'))
            > Total(validators)
    ensures honest < |validators| && honest !in faulty
    ensures SignedVote(verify, validators[honest].key, chainId, height, commit.round, commit.blockId)
    ensures SignedVote(verify, validators[honest].key, chainId', height', commit'.round, commit'.blockId)
  {
    var a, b := Signers(verify, chainId, validators, commit), Signers(verify, chainId', validators, commit');
    AcceptedByTwoThirds(verify, chainId, height, validators, commit);
    AcceptedByTwoThirds(verify, chainId', height', validators, commit');
    PowerUnionIntersection(validators, a, b);
    PowerAtMostTotal(validators, a + b);
    honest := MorePowerful(validators, a * b, faulty);
    SignedIsVote(verify, chainId, commit, honest, validators[honest].key);
    SignedIsVote(verify, chainId', commit', honest, validators[honest].key);
  }

  /** A set with more power than another has a member the other lacks. */
  lemma {:induction false} MorePowerful(validators: seq<Validator>, a: set<nat>, b: set<nat>) returns (i: nat)
    requires Power(validators, a) > Power(validators, b)
    ensures i in a && i !in b && i < |validators|
  {
    if forall i | i in a :: i < |validators| ==> i in b {
      PowerMonotone(validators, a, b);
    }
    i :| i in a && i < |validators| && i !in b;
  }

  // ---- the trusting check --------------------------------------------------------------------

  /** `find_validator`: the first validator with the address. */
  function FindValidator(validators: seq<Validator>, address: Address): (r: Option<nat>)
    ensures r.Some? ==> r.value < |validators| && validators[r.value].address == address
    ensures forall j :: 0 <= j < (if r.Some? then r.value else |validators|) ==> validators[j].address != address
  {
    if validators == [] then None
    else
      var n := |validators| - 1;
      var before := FindValidator(validators[..n], address);
      if before.Some? then before
      else if validators[n].address == address then Some(n)
      else None
  }

  /** The validator that entry `i` counts for. */
  ghost function Named(validators: seq<Validator>, commit: Commit, i: nat): Option<nat>
    requires i < |commit.signatures|
  {
    if commit.signatures[i].ForBlock? then FindValidator(validators, commit.signatures[i].address) else None
  }

  /** The validators that the first `n` entries count for. */
  ghost function Known(validators: seq<Validator>, commit: Commit, n: nat): set<nat>
    requires n <= |commit.signatures|
  {
    if n == 0 then {}
    else
      var before := Known(validators, commit, n - 1);
      match Named(validators, commit, n - 1)
      case None => before
      case Some(k) => before + {k}
  }

  /** Entry `i` is no vote, or a vote of a stranger, or the first vote of a validator, signed by it. */
  ghost predicate InOrder(verify: Verifier, chainId: string, validators: seq<Validator>, commit: Commit, i: nat)
    requires i < |commit.signatures|
  {
    && (commit.signatures[i].ForBlock? ==> commit.signatures[i].signature.Some?)
    && match Named(validators, commit, i)
       case None => true
       case Some(k) => k !in Known(validators, commit, i) && Signed(verify, chainId, commit, i, validators[k].key)
  }

  ghost predicate PrefixInOrder(verify: Verifier, chainId: string, validators: seq<Validator>, commit: Commit, n: nat) {
    n <= |commit.signatures| && forall i: nat :: i < n ==> InOrder(verify, chainId, validators, commit, i)
  }

  ghost predicate TrustingAccepts(verify: Verifier, chainId: string, validators: seq<Validator>, commit: Commit,
                                  level: TrustLevelRatio)
  {
    && level.numerator as int * Total(validators) <= B.U64_MAX && level.denominator != 0
    && exists n: nat :: PrefixInOrder(verify, chainId, validators, commit, n)
                        && Exceeds(level, Total(validators), Power(validators, Known(validators, commit, n)))
  }

  ghost predicate Exceeds(level: TrustLevelRatio, total: nat, power: nat) {
    power * level.denominator > level.numerator as int * total
  }

  /**
   `verify_commit_light_trusting`. The tally cannot overflow: it is the power of the validators
   seen, each counted once.
   */
  method VerifyCommitLightTrusting(verify: Verifier, chainId: string, validators: seq<Validator>, commit: Commit,
                                   level: TrustLevelRatio)
    returns (r: Result<(), VerificationError>)
    requires Total(validators) <= B.U64_MAX
    ensures r.Ok? <==> TrustingAccepts(verify, chainId, validators, commit, level)
    ensures r.Err? && r.error.NotEnoughVotingPower? ==>
              r.error.tallied == Power(validators, Known(validators, commit, |commit.signatures|)) <= r.error.needed
    ensures r.Err? && r.error.DoubleVote? ==>
              && r.error.first < r.error.second < |commit.signatures|
              && Named(validators, commit, r.error.first).Some?
              && Named(validators, commit, r.error.first) == Named(validators, commit, r.error.second)
  {
    var seen: map<nat, nat> := map[];
    var tallied: B.u64 := 0;
    var needed := level.VotingPowerNeeded(Total(validators));
    if needed.Err? {
      return Err(needed.error);
    }
    NoPower(validators);
    for idx := 0 to |commit.signatures|
      invariant PrefixInOrder(verify, chainId, validators, commit, idx)
      invariant seen.Keys == Known(validators, commit, idx)
      invariant forall k | k in seen :: seen[k] < idx && Named(validators, commit, seen[k]) == Some(k)
      invariant tallied == Power(validators, seen.Keys) <= needed.value
    {
      var entry := commit.signatures[idx];
      if !entry.ForBlock? {
        continue;
      }
      if entry.signature.None? {
        NoLongerInOrder(verify, chainId, validators, commit, idx, level);
        return Err(NoSignature(idx));
      }
      var found := FindValidator(validators, entry.address);
      if found.None? {
        continue;
      }
      var valIdx := found.value;
      if valIdx in seen {
        NoLongerInOrder(verify, chainId, validators, commit, idx, level);
        return Err(DoubleVote(seen[valIdx], idx));
      }
      PowerAdd(validators, seen.Keys, valIdx);
      PowerAtMostTotal(validators, seen.Keys + {valIdx});
      seen := seen[valIdx := idx];
      if !verify(validators[valIdx].key, VoteAt(commit, chainId, idx), entry.signature.value) {
        NoLongerInOrder(verify, chainId, validators, commit, idx, level);
        return Err(InvalidSignature(idx));
      }
      tallied := tallied + validators[valIdx].power;
      if tallied > needed.value {
        ExceedsFraction(level, Total(validators), tallied);
        assert PrefixInOrder(verify, chainId, validators, commit, idx + 1);
        return Ok(());
      }
    }
    NoLongerInOrder(verify, chainId, validators, commit, |commit.signatures|, level);
    r := Err(NotEnoughVotingPower(tallied, needed.value));
  }

  lemma {:induction false} KnownGrows(validators: seq<Validator>, commit: Commit, m: nat, n: nat)
    requires m <= n <= |commit.signatures|
    ensures Known(validators, commit, m) <= Known(validators, commit, n)
  {
    if m < n { KnownGrows(validators, commit, m, n - 1); }
  }

  lemma {:induction false} AllBelow(verify: Verifier, chainId: string, validators: seq<Validator>, commit: Commit,
                                    n: nat, needed: nat)
    requires n <= |commit.signatures| && Power(validators, Known(validators, commit, n)) <= needed
    ensures forall m: nat :: m <= n ==> Power(validators, Known(validators, commit, m)) <= needed
  {
    forall m: nat | m <= n ensures Power(validators, Known(validators, commit, m)) <= needed {
      KnownGrows(validators, commit, m, n);
      PowerMonotone(validators, Known(validators, commit, m), Known(validators, commit, n));
    }
  }

  lemma {:induction false} NoLongerInOrder(verify: Verifier, chainId: string, validators: seq<Validator>,
                                           commit: Commit, i: nat, level: TrustLevelRatio)
    requires i <= |commit.signatures| && (i < |commit.signatures| ==> !InOrder(verify, chainId, validators, commit, i))
    requires Total(validators) <= B.U64_MAX && level.VotingPowerNeeded(Total(validators)).Ok?
    requires Power(validators, Known(validators, commit, i)) <= level.VotingPowerNeeded(Total(validators)).value
    ensures !TrustingAccepts(verify, chainId, validators, commit, level)
  {
    AllBelow(verify, chainId, validators, commit, i, level.VotingPowerNeeded(Total(validators)).value);
    forall n: nat | PrefixInOrder(verify, chainId, validators, commit, n)
      ensures !Exceeds(level, Total(validators), Power(validators, Known(validators, commit, n)))
    {
      ExceedsFraction(level, Total(validators), Power(validators, Known(validators, commit, n)));
    }
  }

  /** The validators of whom the commit holds a vote that they signed. */
  ghost function TrustedSigners(verify: Verifier, chainId: string, validators: seq<Validator>, commit: Commit): set<nat> {
    set k: nat | k < |validators| && HasVote(verify, chainId, commit, validators[k].key)
  }

  ghost predicate HasVote(verify: Verifier, chainId: string, commit: Commit, key: Key) {
    exists i: nat :: i < |commit.signatures| && Signed(verify, chainId, commit, i, key)
  }

  lemma {:induction false} KnownSigned(verify: Verifier, chainId: string, validators: seq<Validator>, commit: Commit,
                                       n: nat)
    requires PrefixInOrder(verify, chainId, validators, commit, n)
    ensures Known(validators, commit, n) <= TrustedSigners(verify, chainId, validators, commit)
  {
    if n > 0 {
      KnownSigned(verify, chainId, validators, commit, n - 1);
      assert InOrder(verify, chainId, validators, commit, n - 1);
    }
  }

  /**
   What the trusting check accepts is signed by strictly more than the trust fraction of the
   power, each validator counted once.
   */
  lemma {:induction false} TrustFractionSigned(verify: Verifier, chainId: string, validators: seq<Validator>,
                                               commit: Commit, level: TrustLevelRatio)
    requires TrustingAccepts(verify, chainId, validators, commit, level)
    ensures var signed := Power(validators, TrustedSigners(verify, chainId, validators, commit));
            signed <= Total(validators) && signed * level.denominator > level.numerator as int * Total(validators)
  {
    var n: nat :| PrefixInOrder(verify, chainId, validators, commit, n)
                  && Exceeds(level, Total(validators), Power(validators, Known(validators, commit, n)));
    KnownSigned(verify, chainId, validators, commit, n);
    var signers := TrustedSigners(verify, chainId, validators, commit);
    PowerMonotone(validators, Known(validators, commit, n), signers);
    PowerAtMostTotal(validators, signers);
    Product(Power(validators, Known(validators, commit, n)), Power(validators, signers), level.denominator);
  }
}
