/** `starsArray(rating)`: the indices `0 .. rating - 1` that drive star rendering. */
module Stars {
  import opened Wrappers

  /** The largest length a JavaScript array can have, 2^32 - 1. */
  const MaxArrayLength: int := 0xFFFF_FFFF

  /** Why `Array.from` threw: the requested length is not a valid array length. */
  datatype StarsError = InvalidArrayLength

  /** The indices `0 .. n - 1` in order, as the map callback `(_, i) => i` fills them. */
  function Indices(n: nat): (r: seq<int>)
    ensures |r| == n
    ensures forall i :: 0 <= i < n ==> r[i] == i
  {
    if n == 0 then [] else Indices(n - 1) + [n - 1]
  }

  /**
   * `Array.from({ length: rating }, (_, i) => i)`.  A negative length is
   * clamped to zero by the array-like length conversion; a length above
   * `MaxArrayLength` makes the array construction throw a RangeError.
   */
  function StarsArray(rating: int): (r: Result<seq<int>, StarsError>)
    ensures r.Failure? <==> rating > MaxArrayLength
    ensures r.Success? ==>
              |r.value| == (if rating > 0 then rating else 0) &&
              forall i :: 0 <= i < |r.value| ==> r.value[i] == i
  {
    if rating > MaxArrayLength then Failure(InvalidArrayLength)
    else Success(Indices(if rating > 0 then rating else 0))
  }

  /** The stars are strictly increasing and each lies in `[0, rating)`. */
  lemma StarsIncreasingAndBounded(rating: int)
    ensures StarsArray(rating).Success? ==>
              (forall i, j :: 0 <= i < j < |StarsArray(rating).value| ==>
                 StarsArray(rating).value[i] < StarsArray(rating).value[j]) &&
              (forall i :: 0 <= i < |StarsArray(rating).value| ==> 0 <= StarsArray(rating).value[i] < rating)
  {
  }

  /** A rating of zero draws no star. */
  lemma NoStarsForZero()
    ensures StarsArray(0) == Success([])
  {
  }

  /** A rating of 2^32 is one past the largest array length: `starsArray` throws. */
  lemma HugeRatingThrows()
    ensures StarsArray(0x1_0000_0000) == Failure(InvalidArrayLength)
    ensures StarsArray(MaxArrayLength).Success?
  {
  }
}
