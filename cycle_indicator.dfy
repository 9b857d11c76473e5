/** The four cycle dots under the timer (`updateCycleIndicator`, script.js:179-190). */
module CycleIndicator {

  /** The classes a dot gets: `completed` and `current` are added independently. */
  datatype Dot = Dot(completed: bool, current: bool)

  const DotCount: nat := 4

  /** Dot `i` of `n` for `currentCycle == c`. */
  function Dots(n: nat, c: int): (dots: seq<Dot>)
    ensures |dots| == n
    ensures forall i :: 0 <= i < n ==> dots[i] == Dot(i < c, i == c)
  {
    if n == 0 then [] else Dots(n - 1, c) + [Dot(n - 1 < c, n - 1 == c)]
  }

  /** The dots for `currentCycle == c`: those before the cycle are completed, the
      one at the cycle is current, and no dot is both. */
  function CycleDots(c: int): (dots: seq<Dot>)
    ensures |dots| == DotCount
    ensures forall i :: 0 <= i < DotCount ==>
      (dots[i].completed <==> i < c) && (dots[i].current <==> i == c) && !(dots[i].completed && dots[i].current)
  {
    Dots(DotCount, c)
  }

  function CountCompleted(dots: seq<Dot>): nat {
    if dots == [] then 0 else CountCompleted(dots[..|dots| - 1]) + (if dots[|dots| - 1].completed then 1 else 0)
  }

  function CountCurrent(dots: seq<Dot>): nat {
    if dots == [] then 0 else CountCurrent(dots[..|dots| - 1]) + (if dots[|dots| - 1].current then 1 else 0)
  }

  /** Of `n` dots, exactly `c` (clamped to 0..n) are completed and one is current
      when `c` is in range, none otherwise. */
  lemma {:induction false} DotsCounts(n: nat, c: int)
    ensures CountCompleted(Dots(n, c)) == if c < 0 then 0 else if c > n then n else c
    ensures CountCurrent(Dots(n, c)) == if 0 <= c < n then 1 else 0
  {
    if n > 0 {
      var d := Dots(n, c);
      assert d[..n - 1] == Dots(n - 1, c);
      DotsCounts(n - 1, c);
    }
  }

  /** For a cycle in 0..3 exactly `c` dots are completed, exactly one is current,
      and no dot is both. */
  lemma CycleDotsCounts(c: int)
    requires 0 <= c < DotCount
    ensures CountCompleted(CycleDots(c)) == c
    ensures CountCurrent(CycleDots(c)) == 1
    ensures forall i :: 0 <= i < DotCount ==> !(CycleDots(c)[i].completed && CycleDots(c)[i].current)
  {
    DotsCounts(DotCount, c);
  }
}
