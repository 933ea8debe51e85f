/**
 * Randomness as explicit draws. Every `random.randint` / `random.choice` of the
 * scheduler becomes a natural-number draw supplied by the caller; the lemmas
 * show that the draws reach exactly the values the library call can return.
 */
module Choice {

  /** `random.randint(lo, hi)` driven by the draw `d`. */
  function RandInt(d: nat, lo: int, hi: int): (r: int)
    requires lo <= hi
    ensures lo <= r <= hi
  {
    lo + d % (hi - lo + 1)
  }

  /** Every value `randint` can return is produced by some draw. */
  lemma RandIntOnto(lo: int, hi: int, v: int) returns (d: nat)
    requires lo <= v <= hi
    ensures RandInt(d, lo, hi) == v
  {
    d := v - lo;
  }

  /** `random.choice(s)` driven by the draw `d`. */
  function Pick<T>(d: nat, s: seq<T>): (r: T)
    requires |s| > 0
    ensures r in s
  {
    s[d % |s|]
  }

  /** Every element of `s` is chosen by some draw. */
  lemma PickOnto<T>(s: seq<T>, k: nat) returns (d: nat)
    requires k < |s|
    ensures Pick(d, s) == s[k]
  {
    d := k;
  }
}
