/** The five-star rows drawn by the review form and the review card: star `i`
    (counting from 0) is filled exactly when `i` is below the level shown. */
module StarRating {

  const StarCount: nat := 5

  /** The first `n` stars for a given level. */
  function StarRow(n: nat, level: int): (lit: seq<bool>)
    ensures |lit| == n
    ensures forall i :: 0 <= i < n ==> (lit[i] <==> i < level)
  {
    seq(n, i => i < level)
  }

  /** The row actually drawn: `Array.from({ length: 5 }, (_, i) => i < level)`. */
  function Stars(level: int): (lit: seq<bool>)
    ensures |lit| == StarCount
    ensures forall i :: 0 <= i < StarCount ==> (lit[i] <==> i < level)
  {
    StarRow(StarCount, level)
  }

  /** Number of filled stars. */
  function CountLit(s: seq<bool>): nat
  {
    if s == [] then 0 else CountLit(s[..|s| - 1]) + (if s[|s| - 1] then 1 else 0)
  }

  /** A row of `n` stars has `level` of them filled, clamped to 0..n. */
  lemma {:induction false} StarRowCount(n: nat, level: int)
    ensures CountLit(StarRow(n, level)) == if level < 0 then 0 else if level > n then n else level
  {
    if n > 0 {
      assert StarRow(n, level)[..n - 1] == StarRow(n - 1, level);
      StarRowCount(n - 1, level);
    }
  }

  /** For a level in 1..5 exactly that many stars are filled; outside 0..5 the row saturates. */
  lemma StarsCount(level: int)
    ensures 0 <= level <= StarCount ==> CountLit(Stars(level)) == level
    ensures level < 0 ==> CountLit(Stars(level)) == 0
    ensures level > StarCount ==> CountLit(Stars(level)) == StarCount
  {
    StarRowCount(StarCount, level);
  }
}
