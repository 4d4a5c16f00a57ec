/** Helpers the game model shares: an optional value, `Math.min` and
    `Math.max` on integers, removal of one element by index (what
    `splice(j, 1)` does to an array), and sums over a sequence. */
module Prelude {

  datatype Option<+T> = None | Some(value: T)

  function Min(a: int, b: int): (m: int)
    ensures m <= a && m <= b
    ensures m == a || m == b
  {
    if a <= b then a else b
  }

  function Max(a: int, b: int): (m: int)
    ensures m >= a && m >= b
    ensures m == a || m == b
  {
    if a >= b then a else b
  }

  /** `s` without its element at index `j`; the elements before `j` keep
      their indices and the ones after it move down by one. */
  function RemoveAt<T>(s: seq<T>, j: nat): (r: seq<T>)
    requires j < |s|
    ensures |r| == |s| - 1
    ensures forall k :: 0 <= k < j ==> r[k] == s[k]
    ensures forall k :: j <= k < |r| ==> r[k] == s[k + 1]
    ensures multiset(r) == multiset(s) - multiset{s[j]}
    ensures forall x :: x in r ==> x in s
  {
    assert s == s[..j] + [s[j]] + s[j + 1..];
    s[..j] + s[j + 1..]
  }

  /** The sum of `f` over the elements of `s`. */
  function SumOf<T>(s: seq<T>, f: T -> int): int
    decreases |s|
  {
    if |s| == 0 then 0 else f(s[0]) + SumOf(s[1..], f)
  }

  lemma {:induction false} SumOfAppend<T>(a: seq<T>, b: seq<T>, f: T -> int)
    ensures SumOf(a + b, f) == SumOf(a, f) + SumOf(b, f)
    decreases |a|
  {
    if |a| == 0 {
      assert a + b == b;
    } else {
      assert (a + b)[1..] == a[1..] + b;
      SumOfAppend(a[1..], b, f);
    }
  }

  /** Taking one element out lowers the sum by exactly that element's share. */
  lemma SumOfRemoveAt<T>(s: seq<T>, j: nat, f: T -> int)
    requires j < |s|
    ensures SumOf(RemoveAt(s, j), f) == SumOf(s, f) - f(s[j])
  {
    assert s == s[..j] + ([s[j]] + s[j + 1..]);
    SumOfAppend(s[..j], [s[j]] + s[j + 1..], f);
    SumOfAppend([s[j]], s[j + 1..], f);
    SumOfAppend(s[..j], s[j + 1..], f);
  }

  /** Replacing one element changes the sum by the difference of the two shares. */
  lemma SumOfUpdate<T>(s: seq<T>, j: nat, v: T, f: T -> int)
    requires j < |s|
    ensures SumOf(s[j := v], f) == SumOf(s, f) - f(s[j]) + f(v)
  {
    assert s == s[..j] + ([s[j]] + s[j + 1..]);
    assert s[j := v] == s[..j] + ([v] + s[j + 1..]);
    SumOfAppend(s[..j], [s[j]] + s[j + 1..], f);
    SumOfAppend([s[j]], s[j + 1..], f);
    SumOfAppend(s[..j], [v] + s[j + 1..], f);
    SumOfAppend([v], s[j + 1..], f);
  }
}
