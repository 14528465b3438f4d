/**
 * `manager/PermissionManager.java` of the `java/org/mcw` tree: the extra
 * spawner limit a player's permissions grant, `mcw.limit.<type>.extra.<n>`
 * for `n` in 0..100, and the total limit built on it. Whether the player
 * holds a permission is an input (`hasPermission`).
 *
 * The source looks for the largest `n` by binary search, which is only
 * right when the held values form a downward-closed set. The search and
 * the limit built on it are modelled as written; the limit on the largest
 * held value, which a plain scan finds, is modelled beside them.
 */
module McwPermissions {
  import opened Common
  import opened Text
  import S = Spawners

  const SEARCH_MAX: int := 100

  /** The permission prefix of a spawner type. */
  function ExtraPrefix(t: S.SpawnerType): string {
    if t == S.Normal then "mcw.limit.normal.extra." else "mcw.limit.premium.extra."
  }

  /** The values `n` for which the player holds `prefix + n`. */
  function HeldBy(hasPermission: string -> bool, t: S.SpawnerType): int -> bool {
    n => hasPermission(ExtraPrefix(t) + IntToString(n))
  }

  /** The largest held value in 0..hi, or 0 when none is held. */
  function LargestHeld(held: int -> bool, hi: int): (r: int)
    ensures 0 <= r && (hi >= 0 ==> r <= hi)
    ensures r == 0 || held(r)
    ensures forall n :: r < n <= hi ==> !held(n)
    decreases hi
  {
    if hi <= 0 then 0 else if held(hi) then hi else LargestHeld(held, hi - 1)
  }

  /** A held value implies every smaller one in 0..100. */
  predicate DownwardClosed(held: int -> bool) {
    forall i, j :: 0 <= i <= j <= SEARCH_MAX && held(j) ==> held(i)
  }

  /** The probe `(left + right) / 2` of a search range within the naturals. */
  function Mid(left: int, right: int): (r: int)
    requires 0 <= left <= right
    ensures left <= r <= right
  {
    (left + right) / 2
  }

  /**
   * The loop of `getPermissionExtraLimit` from the state (left, right,
   * maxExtra): it probes the middle, moves up past a held value and down
   * past one that is not held. `right - left` shrinks on every probe.
   */
  function Search(held: int -> bool, left: int, right: int, maxExtra: int): int
    requires 0 <= left
    decreases right - left + 1
  {
    if left > right then maxExtra
    else
      var mid := Mid(left, right);
      if held(mid) then Search(held, mid + 1, right, mid) else Search(held, left, mid - 1, maxExtra)
  }

  /**
   * `getPermissionExtraLimit(player, type)` as written: a binary search
   * over 0..100 (`left + right` is never negative, so Dafny's division is
   * Java's).
   */
  method GetPermissionExtraLimitAsWritten(hasPermission: string -> bool, t: S.SpawnerType) returns (maxExtra: int)
    ensures maxExtra == Search(HeldBy(hasPermission, t), 0, SEARCH_MAX, 0)
  {
    ghost var held := HeldBy(hasPermission, t);
    var prefix := ExtraPrefix(t);
    var left := 0;
    var right := SEARCH_MAX;
    maxExtra := 0;
    while left <= right
      invariant 0 <= left
      invariant Search(held, left, right, maxExtra) == Search(held, 0, SEARCH_MAX, 0)
      decreases right - left + 1
    {
      var mid := (left + right) / 2;
      if hasPermission(prefix + IntToString(mid)) {
        maxExtra := mid;
        left := mid + 1;
      } else {
        right := mid - 1;
      }
    }
  }

  /** The search always answers 0 or a held value in 0..100. */
  lemma {:induction false} SearchBounds(held: int -> bool, left: int, right: int, maxExtra: int)
    requires 0 <= left && right <= SEARCH_MAX && 0 <= maxExtra <= SEARCH_MAX && (maxExtra == 0 || held(maxExtra))
    ensures var r := Search(held, left, right, maxExtra); 0 <= r <= SEARCH_MAX && (r == 0 || held(r))
    decreases right - left + 1
  {
    if left <= right {
      var mid := Mid(left, right);
      if held(mid) {
        SearchBounds(held, mid + 1, right, mid);
      } else {
        SearchBounds(held, left, mid - 1, maxExtra);
      }
    }
  }

  /**
   * On a downward-closed set the search is exact: everything below `left`
   * is held (and `maxExtra` is `left - 1`), nothing above `right` is.
   */
  lemma {:induction false} SearchExact(held: int -> bool, left: int, right: int, maxExtra: int)
    requires DownwardClosed(held)
    requires 0 <= left <= right + 1 && right <= SEARCH_MAX
    requires maxExtra == (if left == 0 then 0 else left - 1)
    requires left > 0 ==> held(left - 1)
    requires forall n :: right < n <= SEARCH_MAX ==> !held(n)
    ensures var r := Search(held, left, right, maxExtra);
      0 <= r <= SEARCH_MAX && (r == 0 || held(r)) && forall n :: r < n <= SEARCH_MAX ==> !held(n)
    decreases right - left + 1
  {
    if left <= right {
      var mid := Mid(left, right);
      if held(mid) {
        SearchExact(held, mid + 1, right, mid);
      } else {
        NothingHeldAbove(held, mid);
        SearchExact(held, left, mid - 1, maxExtra);
      }
    }
  }

  /** On a downward-closed set, a value that is not held has nothing held above it. */
  lemma NothingHeldAbove(held: int -> bool, m: int)
    requires DownwardClosed(held) && 0 <= m && !held(m)
    ensures forall n :: m <= n <= SEARCH_MAX ==> !held(n)
  {
  }

  /** The search gives the largest held value when the held values are downward closed; it gives 0 when none is held. */
  lemma SearchCorrectWhenDownwardClosed(held: int -> bool)
    ensures DownwardClosed(held) ==> Search(held, 0, SEARCH_MAX, 0) == LargestHeld(held, SEARCH_MAX)
    ensures (forall n :: 0 <= n <= SEARCH_MAX ==> !held(n)) ==> Search(held, 0, SEARCH_MAX, 0) == 0
    ensures var r := Search(held, 0, SEARCH_MAX, 0); 0 <= r <= SEARCH_MAX && (r == 0 || held(r))
  {
    SearchBounds(held, 0, SEARCH_MAX, 0);
    if DownwardClosed(held) {
      SearchExact(held, 0, SEARCH_MAX, 0);
      LargestHeldIs(held, Search(held, 0, SEARCH_MAX, 0), SEARCH_MAX);
    }
  }

  /**
   * A player holding only `extra.3` gets 0 from the search: it probes 50,
   * 24, 11, 5, 2 and 0, none of them held, while the largest held value is 3.
   */
  lemma SearchMissesLoneValue()
    ensures Search(n => n == 3, 0, SEARCH_MAX, 0) == 0
    ensures LargestHeld(n => n == 3, SEARCH_MAX) == 3
  {
    var held: int -> bool := n => n == 3;
    assert Search(held, 0, 1, 0) == 0;
    assert Search(held, 0, 4, 0) == 0;
    assert Search(held, 0, 10, 0) == 0;
    assert Search(held, 0, 23, 0) == 0;
    assert Search(held, 0, 49, 0) == 0;
    LargestHeldIs(held, 3, SEARCH_MAX);
  }

  /** Nothing held between `k` and `hi` leaves the largest held value in 0..hi at that of 0..k. */
  lemma {:induction false} LargestAbove(held: int -> bool, k: int, hi: int)
    requires 0 <= k <= hi
    requires forall n :: k < n <= hi ==> !held(n)
    ensures LargestHeld(held, hi) == LargestHeld(held, k)
    decreases hi - k
  {
    if hi > k {
      LargestAbove(held, k, hi - 1);
    }
  }

  /** A value that is 0 or held, with nothing held above it up to `hi`, is the largest held value. */
  lemma LargestHeldIs(held: int -> bool, k: int, hi: int)
    requires 0 <= k <= hi
    requires k == 0 || held(k)
    requires forall n :: k < n <= hi ==> !held(n)
    ensures LargestHeld(held, hi) == k
  {
    LargestAbove(held, k, hi);
  }

  /**
   * The extra limit as evidently intended: the largest held value in
   * 0..100, found by scanning down from 100 to the first held value.
   */
  method GetPermissionExtraLimit(hasPermission: string -> bool, t: S.SpawnerType) returns (extra: int)
    ensures extra == LargestHeld(HeldBy(hasPermission, t), SEARCH_MAX)
    ensures 0 <= extra <= SEARCH_MAX
  {
    ghost var held := HeldBy(hasPermission, t);
    var prefix := ExtraPrefix(t);
    extra := SEARCH_MAX;
    while extra > 0 && !hasPermission(prefix + IntToString(extra))
      invariant 0 <= extra <= SEARCH_MAX
      invariant LargestHeld(held, SEARCH_MAX) == LargestHeld(held, extra)
    {
      extra := extra - 1;
    }
  }

  /** The total limit: base (`limits.yml`, default 5) + extra + purchased, as a JVM `Int` sum. */
  function SpawnerLimit(limitsBase: Option<int>, extra: int, purchased: int): (r: int)
    ensures IsInt32(limitsBase.GetOr(5) + extra + purchased) ==> r == limitsBase.GetOr(5) + extra + purchased
  {
    Wrap32(limitsBase.GetOr(5) + extra + purchased)
  }

  /** `getSpawnerLimit(player, type)` as written, on the extra limit the binary search finds. */
  method GetSpawnerLimit(limitsBase: Option<int>, hasPermission: string -> bool, t: S.SpawnerType, purchased: int)
    returns (limit: int)
    ensures limit == SpawnerLimit(limitsBase, Search(HeldBy(hasPermission, t), 0, SEARCH_MAX, 0), purchased)
    ensures DownwardClosed(HeldBy(hasPermission, t)) ==>
              limit == SpawnerLimit(limitsBase, LargestHeld(HeldBy(hasPermission, t), SEARCH_MAX), purchased)
  {
    var permExtra := GetPermissionExtraLimitAsWritten(hasPermission, t);
    SearchCorrectWhenDownwardClosed(HeldBy(hasPermission, t));
    limit := SpawnerLimit(limitsBase, permExtra, purchased);
  }

  /** `getSpawnerLimit` on the extra limit the player's permissions actually grant. */
  method GetSpawnerLimitCorrected(limitsBase: Option<int>, hasPermission: string -> bool, t: S.SpawnerType, purchased: int)
    returns (limit: int)
    ensures limit == SpawnerLimit(limitsBase, LargestHeld(HeldBy(hasPermission, t), SEARCH_MAX), purchased)
  {
    var permExtra := GetPermissionExtraLimit(hasPermission, t);
    limit := SpawnerLimit(limitsBase, permExtra, purchased);
  }

  /** With no extra permission and no configured base, an `Int` purchase count gives 5 + purchased, short of overflow. */
  lemma DefaultLimit(hasPermission: string -> bool, t: S.SpawnerType, purchased: int)
    requires forall n :: 0 <= n <= SEARCH_MAX ==> !HeldBy(hasPermission, t)(n)
    requires 0 <= purchased <= INT_MAX - 5
    ensures SpawnerLimit(None, LargestHeld(HeldBy(hasPermission, t), SEARCH_MAX), purchased) == 5 + purchased
  {
  }
}
