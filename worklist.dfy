/**
 * Facts about a work list that a scanning loop keeps in pieces: the
 * entries decided so far and the ones still ahead, with an entry either
 * passed over or removed in place, as `Vec::remove(i)` does.
 */
module Worklist {

  /** The prefix of `s` one entry longer, and the suffix one entry shorter. */
  lemma SliceStep<T>(s: seq<T>, j: nat)
    requires j < |s|
    ensures s[..j + 1] == s[..j] + [s[j]]
    ensures s[j..] == [s[j]] + s[j + 1..]
  {
  }

  /** A non-empty list is its entries but the last, then the last. */
  lemma LastSplit<T>(s: seq<T>)
    requires s != []
    ensures s == s[..|s| - 1] + [s[|s| - 1]]
  {
  }

  /** Removing the first entry of `rest` from `kept + rest`. */
  lemma RemoveAfter<T>(kept: seq<T>, rest: seq<T>)
    requires rest != []
    ensures (kept + rest)[|kept|] == rest[0]
    ensures (kept + rest)[..|kept|] + (kept + rest)[|kept| + 1..] == kept + rest[1..]
  {
    assert (kept + rest)[..|kept|] == kept;
    assert (kept + rest)[|kept| + 1..] == rest[1..];
  }

  /** Passing over the first of `rest` moves it to the end of `kept`. */
  lemma KeepAfter<T>(kept: seq<T>, rest: seq<T>)
    requires rest != []
    ensures kept + rest == (kept + [rest[0]]) + rest[1..]
  {
    assert rest == [rest[0]] + rest[1..];
  }

  /** How the slices of `work` at `m` relate to those of `work` without its last entry. */
  lemma SnocSlices<T>(work: seq<T>, m: nat)
    requires work != [] && m <= |work| - 1
    ensures var init, x := work[..|work| - 1], work[|work| - 1];
            init[m..] + [x] == work[m..] && init[..m] == work[..m] &&
            (m == |init| ==> init[..m] + [x] == work[..m + 1])
  {
    var init, x := work[..|work| - 1], work[|work| - 1];
    assert init[..m] == work[..m];
    assert init[m..] + [x] == work[m..];
    if m == |init| {
      assert init[..m] + [x] == work[..m + 1];
    }
  }

  /** The tails of a three-entry list. */
  lemma ThreeTails<T>(s: seq<T>)
    requires |s| == 3
    ensures s[1..] != [] && s[1..][0] == s[1] && s[1..][1..] == [s[2]]
  {
  }
}
