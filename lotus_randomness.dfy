/** The domain separation tags that qualify every randomness draw from the chain. */
module LotusRandomness {
  import opened Ints

  /** Declared in this order, numbered from 1. */
  datatype DomainSeparationTag =
    | TicketProduction
    | ElectionProofProduction
    | WinningPoStChallengeSeed
    | WindowedPoStChallengeSeed
    | SealRandomness
    | InteractiveSealChallengeSeed
    | WindowedPoStDeadlineAssignment
    | MarketDealCronSeed
    | PoStChainCommit
  {
    /** `to_u8`: the tag's discriminant. */
    function ToU8(): (code: u8)
      ensures 1 <= code <= 9
    {
      match this
      case TicketProduction => 1
      case ElectionProofProduction => 2
      case WinningPoStChallengeSeed => 3
      case WindowedPoStChallengeSeed => 4
      case SealRandomness => 5
      case InteractiveSealChallengeSeed => 6
      case WindowedPoStDeadlineAssignment => 7
      case MarketDealCronSeed => 8
      case PoStChainCommit => 9
    }
  }

  const ALL_TAGS: seq<DomainSeparationTag> := [
    TicketProduction, ElectionProofProduction, WinningPoStChallengeSeed, WindowedPoStChallengeSeed,
    SealRandomness, InteractiveSealChallengeSeed, WindowedPoStDeadlineAssignment, MarketDealCronSeed,
    PoStChainCommit]

  /** The codes run 1..9 in declaration order, covering every tag. */
  lemma CodesFollowDeclarationOrder()
    ensures |ALL_TAGS| == 9
    ensures forall i :: 0 <= i < |ALL_TAGS| ==> ALL_TAGS[i].ToU8() as int == i + 1
    ensures forall t: DomainSeparationTag :: t in ALL_TAGS
  {
    forall t: DomainSeparationTag
      ensures t in ALL_TAGS
    {
      assert ALL_TAGS[t.ToU8() - 1] == t;
    }
  }

  /** No two tags share a code. */
  lemma ToU8Injective(s: DomainSeparationTag, t: DomainSeparationTag)
    ensures s.ToU8() == t.ToU8() ==> s == t
  {
  }

  /** The conversion test: sealing randomness is tag 5. */
  lemma SealRandomnessIsFive()
    ensures SealRandomness.ToU8() == 5
    ensures PoStChainCommit.ToU8() == 9 && TicketProduction.ToU8() == 1
  {
  }
}
