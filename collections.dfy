/** The three Kotlin collection operations the game-state derivation relies on
    (`firstOrNull`, `maxByOrNull` and `sum`), written over sequences that list a
    map's entries in iteration order. */
module Collections {

  /** Kotlin's nullable result: `null` is `None`. */
  datatype Option<T> = None | Some(value: T)

  /** `firstOrNull { pred }`: the first element satisfying `pred`, or `None`
      when no element does. */
  function FirstOrNull<T>(s: seq<T>, pred: T -> bool): (r: Option<T>)
    ensures r.None? <==> forall i :: 0 <= i < |s| ==> !pred(s[i])
    ensures r.Some? ==> exists i :: 0 <= i < |s| && s[i] == r.value && pred(s[i]) && IsFirst(s, pred, i)
  {
    if |s| == 0 then None
    else if pred(s[0]) then
      assert IsFirst(s, pred, 0);
      Some(s[0])
    else
      var r := FirstOrNull(s[1..], pred);
      if r.Some? then
        assert exists k :: 0 <= k < |s| && s[k] == r.value && pred(s[k]) && IsFirst(s, pred, k) by {
          var i :| 0 <= i < |s[1..]| && s[1..][i] == r.value && pred(s[1..][i]) && IsFirst(s[1..], pred, i);
          forall j | 0 <= j < i + 1 ensures !pred(s[j]) {
            if j > 0 { assert s[j] == s[1..][j - 1]; }
          }
          assert s[i + 1] == r.value && IsFirst(s, pred, i + 1);
        }
        r
      else
        r
  }

  /** No element before index `i` satisfies `pred`. */
  ghost predicate IsFirst<T>(s: seq<T>, pred: T -> bool, i: int)
    requires 0 <= i <= |s|
  {
    forall j :: 0 <= j < i ==> !pred(s[j])
  }

  /** `maxByOrNull { key }`: Kotlin keeps the current maximum and replaces it only
      when a later element's key is strictly greater, so the result is the FIRST
      element with the largest key, or `None` for an empty sequence. The
      recursion follows that left-to-right scan: the maximum of all but the last
      element is replaced by the last one only if the last key is larger. */
  function MaxByOrNull<T>(s: seq<T>, key: T -> int): (r: Option<T>)
    ensures r.None? <==> |s| == 0
    ensures r.Some? ==> exists i :: 0 <= i < |s| && s[i] == r.value && IsFirstMax(s, key, i)
  {
    if |s| == 0 then None
    else if |s| == 1 then
      assert IsFirstMax(s, key, 0);
      Some(s[0])
    else
      var init := s[..|s| - 1];
      var m := MaxByOrNull(init, key);
      var last := s[|s| - 1];
      if key(m.value) < key(last) then
        assert IsFirstMax(s, key, |s| - 1) by {
          var i :| 0 <= i < |init| && init[i] == m.value && IsFirstMax(init, key, i);
          forall j | 0 <= j < |s| - 1 ensures key(s[j]) < key(last) {
            assert s[j] == init[j];
          }
        }
        Some(last)
      else
        assert exists k :: 0 <= k < |s| && s[k] == m.value && IsFirstMax(s, key, k) by {
          var i :| 0 <= i < |init| && init[i] == m.value && IsFirstMax(init, key, i);
          forall j | 0 <= j < |s| ensures key(s[j]) <= key(s[i]) {
            if j < |s| - 1 { assert s[j] == init[j]; }
          }
          forall j | 0 <= j < i ensures key(s[j]) < key(s[i]) {
            assert s[j] == init[j];
          }
          assert s[i] == m.value && IsFirstMax(s, key, i);
        }
        m
  }

  /** Index `i` holds a largest key and every earlier key is strictly smaller. */
  ghost predicate IsFirstMax<T>(s: seq<T>, key: T -> int, i: int)
    requires 0 <= i < |s|
  {
    && (forall j :: 0 <= j < |s| ==> key(s[j]) <= key(s[i]))
    && (forall j :: 0 <= j < i ==> key(s[j]) < key(s[i]))
  }

  /** `sum()` of a collection of counts: never negative, and zero exactly when
      every count is zero; at least as large as any single count. */
  function Sum(s: seq<nat>): (r: nat)
    ensures r == 0 <==> forall i :: 0 <= i < |s| ==> s[i] == 0
    ensures forall i :: 0 <= i < |s| ==> s[i] <= r
  {
    if |s| == 0 then 0
    else
      var rest := Sum(s[1..]);
      assert forall i :: 1 <= i < |s| ==> s[i] == s[1..][i - 1];
      s[0] + rest
  }
}
