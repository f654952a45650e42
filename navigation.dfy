/**
 * Index arithmetic of the results list: wrap-around Up/Down and the clamp that
 * keeps the selected row inside the visible window.
 */
module Navigation {
  import opened Wrappers

  /** `max(1, n)`: the bound the selection stays below, also when the list is empty. */
  function Max1(n: nat): (m: nat)
    ensures m >= 1 && m >= n && (n >= 1 ==> m == n)
  {
    if n == 0 then 1 else n
  }

  /** Down: `idx + 1` while that is in the list, otherwise back to 0. */
  function NextIndex(idx: nat, len: nat): (r: nat)
    ensures idx < len ==> r == (idx + 1) % len
    ensures len == 0 ==> r == 0
    ensures r < Max1(len)
  {
    if idx + 1 < len then idx + 1 else 0
  }

  /**
   * Up: `idx - 1` above the top, otherwise `len - 1`; `None` where the source
   * computes `0 - 1` on a `usize` (an empty list with the selection at 0).
   */
  function PrevIndex(idx: nat, len: nat): (r: Option<nat>)
    ensures r.None? <==> idx == 0 && len == 0
    ensures idx < len ==> r == Some((idx + len - 1) % len)
    ensures r.Some? && idx < Max1(len) ==> r.value < Max1(len)
  {
    if idx > 0 then Some(idx - 1)
    else if len >= 1 then Some(len - 1)
    else None
  }

  /** Row `sel` is in the window of `height` rows starting at `offset`. */
  predicate Visible(offset: nat, sel: nat, height: nat) {
    offset <= sel < offset + height
  }

  function Dist(a: nat, b: nat): nat {
    if a <= b then b - a else a - b
  }

  /**
   * The scroll reconciliation of the results list: an offset above the
   * selection moves up to it, a window that ends at or before the selection
   * moves down so that the selection is its last row.
   */
  function ReconcileOffset(sel: nat, offset: nat, maxVisible: nat): (r: nat)
    ensures maxVisible >= 1 ==> Visible(r, sel, maxVisible)
    ensures Visible(offset, sel, maxVisible) ==> r == offset
    ensures maxVisible >= 1 ==> forall o: nat :: Visible(o, sel, maxVisible) ==> Dist(r, offset) <= Dist(o, offset)
  {
    if sel < offset then sel
    else if sel >= offset + maxVisible then sel - maxVisible + 1
    else offset
  }

  /** Reconciling a second time changes nothing. */
  lemma ReconcileIsIdempotent(sel: nat, offset: nat, maxVisible: nat)
    requires maxVisible >= 1
    ensures ReconcileOffset(sel, ReconcileOffset(sel, offset, maxVisible), maxVisible) == ReconcileOffset(sel, offset, maxVisible)
  {
  }

  /**
   * With a window of no rows (a terminal of at most 6 rows) the reconciliation
   * never settles: an offset no greater than `sel` moves to `sel + 1`, and
   * from there the next turn moves it back to `sel`.
   */
  lemma ZeroWindowAlternates(sel: nat, offset: nat)
    ensures offset <= sel ==> ReconcileOffset(sel, offset, 0) == sel + 1
    ensures ReconcileOffset(sel, sel + 1, 0) == sel
    ensures ReconcileOffset(sel, ReconcileOffset(sel, sel, 0), 0) != ReconcileOffset(sel, sel, 0)
  {
  }
}
