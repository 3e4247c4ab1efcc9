/**
 * The positional list edits the screens share: dropping the element at a
 * position (`list.filter((_, i) => i !== index)`) and replacing one
 * (`next = [...list]; next[index] = value`).
 */
module Lists {

  /** `s.filter((_, i) => i !== k)` over the positions `from` onwards. */
  function DropIndexFrom<T>(s: seq<T>, k: int, from: nat): seq<T>
    requires from <= |s|
    decreases |s| - from
  {
    if from == |s| then []
    else (if from == k then [] else [s[from]]) + DropIndexFrom(s, k, from + 1)
  }

  /** Filtering out position `k` cuts exactly that element out, or nothing when `k` is not a position. */
  lemma {:induction false} DropIndexFromSplice<T>(s: seq<T>, k: int, from: nat)
    requires from <= |s|
    ensures DropIndexFrom(s, k, from) == if from <= k < |s| then s[from..k] + s[k + 1..] else s[from..]
    decreases |s| - from
  {
    if from < |s| {
      DropIndexFromSplice(s, k, from + 1);
      var rest := DropIndexFrom(s, k, from + 1);
      if from == k {
        assert DropIndexFrom(s, k, from) == rest;
        assert rest == s[from + 1..];
        assert s[from..k] + s[k + 1..] == s[from + 1..];
      } else if from < k < |s| {
        assert rest == s[from + 1..k] + s[k + 1..];
        assert s[from..k] == [s[from]] + s[from + 1..k];
      } else {
        assert rest == s[from + 1..];
        assert s[from..] == [s[from]] + s[from + 1..];
      }
    }
  }

  /**
   * `s.filter((_, i) => i !== k)`: when `k` is a position the result is one
   * shorter, keeps the elements before `k` where they were and moves the
   * elements after `k` down by one; otherwise nothing is dropped.
   */
  function DropIndex<T>(s: seq<T>, k: int): (r: seq<T>)
    ensures 0 <= k < |s| ==> |r| == |s| - 1
    ensures 0 <= k < |s| ==> forall i :: 0 <= i < k ==> r[i] == s[i]
    ensures 0 <= k < |s| ==> forall i :: k <= i < |r| ==> r[i] == s[i + 1]
    ensures !(0 <= k < |s|) ==> r == s
  {
    DropIndexFromSplice(s, k, 0);
    DropIndexFrom(s, k, 0)
  }
}
