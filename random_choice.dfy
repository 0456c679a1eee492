/**
 * ''.join(random.choice(alphabet) for _ in range(count)), with the random
 * generator replaced by the indices it picks: the k-th call of
 * random.choice returns alphabet[draws[k]].
 */
module RandomChoice {

  /**
   * draws can serve count calls of random.choice on a sequence of size
   * elements: there are enough of them and each is an index that
   * random.choice could pick.
   */
  predicate ValidDraws(draws: seq<nat>, count: nat, size: nat)
  {
    count <= |draws| && forall k :: 0 <= k < count ==> draws[k] < size
  }

  /** The number of iterations of range(n): zero when n is not positive. */
  function RangeLength(n: int): (r: nat)
    ensures n >= 0 ==> r == n
    ensures n <= 0 ==> r == 0
  {
    if n > 0 then n else 0
  }

  /** The string of the first count choices from alphabet, in the order they were drawn. */
  function JoinChoices(alphabet: string, count: nat, draws: seq<nat>): (s: string)
    requires ValidDraws(draws, count, |alphabet|)
    ensures |s| == count
    ensures forall k :: 0 <= k < count ==> s[k] == alphabet[draws[k]]
    ensures forall c :: c in s ==> c in alphabet
    decreases count
  {
    if count == 0 then "" else JoinChoices(alphabet, count - 1, draws) + [alphabet[draws[count - 1]]]
  }
}
