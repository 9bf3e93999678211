/** The explicit-content Likelihood enumeration of the video annotation service. */
module Likelihoods {

  datatype Likelihood =
    | LikelihoodUnspecified
    | VeryUnlikely
    | Unlikely
    | Possible
    | Likely
    | VeryLikely

  /** Likelihood.getNumber(): the protobuf rank, 0 to 5. */
  function Rank(l: Likelihood): (n: nat)
    ensures n <= 5
  {
    match l
    case LikelihoodUnspecified => 0
    case VeryUnlikely => 1
    case Unlikely => 2
    case Possible => 3
    case Likely => 4
    case VeryLikely => 5
  }

  /** The rank determines the likelihood. */
  lemma RankInjective(a: Likelihood, b: Likelihood)
    ensures Rank(a) == Rank(b) ==> a == b
  {
  }

  /**
   * The update `if (candidate.getNumber() > current.getNumber()) current = candidate`, used by
   * Scene.amendWith and by the explicit-content pass.
   */
  function Raise(current: Likelihood, candidate: Likelihood): (r: Likelihood)
    ensures r == current || r == candidate
    ensures Rank(r) == if Rank(candidate) > Rank(current) then Rank(candidate) else Rank(current)
  {
    if Rank(candidate) > Rank(current) then candidate else current
  }

  /** Raising is the maximum by rank, so the order of two raises does not matter. */
  lemma RaiseCommutes(l: Likelihood, a: Likelihood, b: Likelihood)
    ensures Raise(Raise(l, a), b) == Raise(Raise(l, b), a)
  {
    RankInjective(Raise(Raise(l, a), b), Raise(Raise(l, b), a));
  }

  /** Raising twice with the same candidate changes nothing the second time. */
  lemma RaiseIdempotent(l: Likelihood, a: Likelihood)
    ensures Raise(Raise(l, a), a) == Raise(l, a)
  {
  }
}
