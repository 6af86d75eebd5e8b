/**
 * The booking-to-cleaner assignment rules, stated on values. The workflows
 * add join rows one cleaner id at a time; `AddEach` is that loop's meaning,
 * and `Replace` is the end state the update workflows promise for a
 * non-null cleaner list: the booking's rows become exactly the rows the
 * list requests, and every other booking keeps its rows.
 */
module Assignments {
  import opened Wrappers
  import opened Entities
  import opened Store

  /** The rows a cleaner-id list requests for one booking: one per listed id that names an employee. */
  function Requested(bookingId: int, ids: seq<int>, employees: set<int>): (r: set<BookingCleaner>)
    ensures forall bc :: bc in r <==> bc.bookingId == bookingId && bc.cleanerId in ids && bc.cleanerId in employees
  {
    set c | c in ids && c in employees :: BookingCleaner(bookingId, c)
  }

  /** Where the one-by-one add stopped: the rows so far, and the id whose row already existed, if any. */
  datatype Added = Added(rows: set<BookingCleaner>, conflict: Option<int>)

  /**
   * Adding the rows of `ids` in list order: an id that is not an employee is
   * skipped; an id whose row is already present stops the loop (its key is
   * taken); any other id gets its row. Where it stops, the id's row is present.
   */
  function AddEach(rows: set<BookingCleaner>, bookingId: int, ids: seq<int>, employees: set<int>): (r: Added)
    ensures r.conflict.Some? ==> BookingCleaner(bookingId, r.conflict.value) in r.rows
    decreases |ids|
  {
    if ids == [] then Added(rows, None)
    else
      var prev := AddEach(rows, bookingId, ids[..|ids| - 1], employees);
      var c := ids[|ids| - 1];
      if prev.conflict.Some? || c !in employees then prev
      else if BookingCleaner(bookingId, c) in prev.rows then Added(prev.rows, Some(c))
      else Added(prev.rows + {BookingCleaner(bookingId, c)}, None)
  }

  /** No listed employee id already has a row for the booking, and none is listed twice. */
  ghost predicate Addable(rows: set<BookingCleaner>, bookingId: int, ids: seq<int>, employees: set<int>) {
    forall i | 0 <= i < |ids| && ids[i] in employees ::
      BookingCleaner(bookingId, ids[i]) !in rows && forall j | 0 <= j < i :: ids[j] != ids[i]
  }

  /** No id that names an employee appears twice in the list. */
  ghost predicate NoRepeatedEmployee(ids: seq<int>, employees: set<int>) {
    forall i, j | 0 <= j < i < |ids| && ids[i] in employees :: ids[j] != ids[i]
  }

  /** The add only ever inserts requested rows, and never removes one. */
  lemma {:induction false} AddEachBounds(rows: set<BookingCleaner>, bookingId: int, ids: seq<int>, employees: set<int>)
    ensures rows <= AddEach(rows, bookingId, ids, employees).rows <= rows + Requested(bookingId, ids, employees)
    ensures AddEach(rows, bookingId, ids, employees).conflict.Some? ==>
      var c := AddEach(rows, bookingId, ids, employees).conflict.value; c in ids && c in employees
    decreases |ids|
  {
    if ids != [] {
      var init := ids[..|ids| - 1];
      AddEachBounds(rows, bookingId, init, employees);
      assert forall c | c in init :: c in ids;
      assert Requested(bookingId, init, employees) <= Requested(bookingId, ids, employees);
    }
  }

  /** When the add runs to the end it has added every requested row. */
  lemma {:induction false} AddEachRows(rows: set<BookingCleaner>, bookingId: int, ids: seq<int>, employees: set<int>)
    ensures AddEach(rows, bookingId, ids, employees).conflict.None? ==>
      AddEach(rows, bookingId, ids, employees).rows == rows + Requested(bookingId, ids, employees)
    decreases |ids|
  {
    if ids != [] {
      var n := |ids| - 1;
      var init, c := ids[..n], ids[n];
      AddEachRows(rows, bookingId, init, employees);
      assert ids == init + [c];
      assert Requested(bookingId, ids, employees) ==
        Requested(bookingId, init, employees) + (if c in employees then {BookingCleaner(bookingId, c)} else {});
    }
  }

  /** A list is addable when its prefix is and its last id, if an employee, is new. */
  lemma AddableSnoc(rows: set<BookingCleaner>, bookingId: int, ids: seq<int>, employees: set<int>)
    requires ids != []
    ensures var n := |ids| - 1;
      Addable(rows, bookingId, ids, employees) <==>
        && Addable(rows, bookingId, ids[..n], employees)
        && (ids[n] in employees ==> BookingCleaner(bookingId, ids[n]) !in rows && ids[n] !in ids[..n])
  {
    var n := |ids| - 1;
    var init, c := ids[..n], ids[n];
    if Addable(rows, bookingId, ids, employees) {
      forall i | 0 <= i < |init| && init[i] in employees
        ensures BookingCleaner(bookingId, init[i]) !in rows && forall j | 0 <= j < i :: init[j] != init[i]
      {
        assert ids[i] == init[i];
        forall j | 0 <= j < i ensures init[j] != init[i] { assert ids[j] == init[j]; }
      }
      if c in employees {
        forall j | 0 <= j < n ensures init[j] != c { assert ids[j] == init[j]; }
      }
    }
    if Addable(rows, bookingId, init, employees) && (c in employees ==> BookingCleaner(bookingId, c) !in rows && c !in init) {
      forall i | 0 <= i < |ids| && ids[i] in employees
        ensures BookingCleaner(bookingId, ids[i]) !in rows && forall j | 0 <= j < i :: ids[j] != ids[i]
      {
        if i < n {
          assert init[i] == ids[i];
          forall j | 0 <= j < i ensures ids[j] != ids[i] { assert init[j] == ids[j]; }
        } else {
          forall j | 0 <= j < i ensures ids[j] != ids[i] { assert init[j] == ids[j]; }
        }
      }
    }
  }

  /** The add runs to the end exactly when the list is addable. */
  lemma {:induction false} AddEachComplete(rows: set<BookingCleaner>, bookingId: int, ids: seq<int>, employees: set<int>)
    ensures AddEach(rows, bookingId, ids, employees).conflict.None? <==> Addable(rows, bookingId, ids, employees)
    ensures AddEach(rows, bookingId, ids, employees).conflict.None? ==>
      AddEach(rows, bookingId, ids, employees).rows == rows + Requested(bookingId, ids, employees)
    decreases |ids|
  {
    AddEachRows(rows, bookingId, ids, employees);
    if ids != [] {
      var n := |ids| - 1;
      var init, c := ids[..n], ids[n];
      AddEachComplete(rows, bookingId, init, employees);
      AddEachRows(rows, bookingId, init, employees);
      AddableSnoc(rows, bookingId, ids, employees);
    }
  }

  /** Every existing row is refused only if listed twice once the booking's own rows are gone. */
  lemma AddableAfterClear(rows: set<BookingCleaner>, bookingId: int, ids: seq<int>, employees: set<int>)
    requires RowsOf(rows, bookingId) == {}
    ensures Addable(rows, bookingId, ids, employees) <==> NoRepeatedEmployee(ids, employees)
  {
    forall i | 0 <= i < |ids| && ids[i] in employees ensures BookingCleaner(bookingId, ids[i]) !in rows {
      assert BookingCleaner(bookingId, ids[i]) !in RowsOf(rows, bookingId);
    }
  }

  /**
   * The end state of replacing a booking's cleaners by a list: its old rows go,
   * the requested rows come, and the rows of every other booking stay.
   */
  function Replace(rows: set<BookingCleaner>, bookingId: int, ids: seq<int>, employees: set<int>): (r: set<BookingCleaner>)
    ensures forall bc :: bc in r <==>
      if bc.bookingId == bookingId then bc.cleanerId in ids && bc.cleanerId in employees else bc in rows
  {
    rows - RowsOf(rows, bookingId) + Requested(bookingId, ids, employees)
  }

  /** After a replace the booking has exactly the requested rows, and every other booking its old ones. */
  lemma ReplaceRows(rows: set<BookingCleaner>, bookingId: int, ids: seq<int>, employees: set<int>, other: int)
    requires other != bookingId
    ensures RowsOf(Replace(rows, bookingId, ids, employees), bookingId) == Requested(bookingId, ids, employees)
    ensures RowsOf(Replace(rows, bookingId, ids, employees), other) == RowsOf(rows, other)
  {
  }

  /** Replacing twice with the same list is the same as replacing once. */
  lemma ReplaceIdempotent(rows: set<BookingCleaner>, bookingId: int, ids: seq<int>, employees: set<int>)
    ensures Replace(Replace(rows, bookingId, ids, employees), bookingId, ids, employees) == Replace(rows, bookingId, ids, employees)
  {
    var once := Replace(rows, bookingId, ids, employees);
    assert RowsOf(once, bookingId) == Requested(bookingId, ids, employees);
  }

  /**
   * The delete-all-then-re-add ends where the minimal diff ends (remove the
   * current rows not requested, insert the requested rows not present), and
   * after it that diff is empty: a second identical request changes no row.
   */
  lemma ReplaceIsDiff(rows: set<BookingCleaner>, bookingId: int, ids: seq<int>, employees: set<int>)
    ensures var current, target := RowsOf(rows, bookingId), Requested(bookingId, ids, employees);
      Replace(rows, bookingId, ids, employees) == rows - (current - target) + (target - current)
    ensures var after := Replace(rows, bookingId, ids, employees);
      RowsOf(after, bookingId) - Requested(bookingId, ids, employees) == {}
      && Requested(bookingId, ids, employees) - RowsOf(after, bookingId) == {}
  {
    var after := Replace(rows, bookingId, ids, employees);
    assert RowsOf(after, bookingId) == Requested(bookingId, ids, employees);
  }

  /** An empty (non-null) list clears the booking's rows. */
  lemma EmptyListClears(rows: set<BookingCleaner>, bookingId: int, employees: set<int>)
    ensures RowsOf(Replace(rows, bookingId, [], employees), bookingId) == {}
  {
    assert Requested(bookingId, [], employees) == {};
  }

  /** The one-by-one add into a booking with no rows ends in the replace state when nothing is listed twice. */
  lemma AddEachAfterClearIsReplace(rows: set<BookingCleaner>, bookingId: int, ids: seq<int>, employees: set<int>)
    ensures var cleared := rows - RowsOf(rows, bookingId);
      AddEach(cleared, bookingId, ids, employees).conflict.None? <==> NoRepeatedEmployee(ids, employees)
    ensures var cleared := rows - RowsOf(rows, bookingId);
      AddEach(cleared, bookingId, ids, employees).conflict.None? ==>
        AddEach(cleared, bookingId, ids, employees).rows == Replace(rows, bookingId, ids, employees)
  {
    var cleared := rows - RowsOf(rows, bookingId);
    assert RowsOf(cleared, bookingId) == {};
    AddableAfterClear(cleared, bookingId, ids, employees);
    AddEachComplete(cleared, bookingId, ids, employees);
  }

  /** Once the add has stopped at a repeated row, the rest of the list changes nothing. */
  lemma {:induction false} AddEachStops(rows: set<BookingCleaner>, bookingId: int, ids: seq<int>, employees: set<int>, k: nat)
    requires k <= |ids|
    requires AddEach(rows, bookingId, ids[..k], employees).conflict.Some?
    ensures AddEach(rows, bookingId, ids, employees) == AddEach(rows, bookingId, ids[..k], employees)
    decreases |ids|
  {
    if k < |ids| {
      var init := ids[..|ids| - 1];
      assert init[..k] == ids[..k];
      AddEachStops(rows, bookingId, init, employees, k);
    } else {
      assert ids[..k] == ids;
    }
  }

  /** Into a booking that has no rows yet the add succeeds exactly when no employee is listed twice. */
  lemma AddEachFresh(rows: set<BookingCleaner>, bookingId: int, ids: seq<int>, employees: set<int>)
    requires RowsOf(rows, bookingId) == {}
    ensures AddEach(rows, bookingId, ids, employees).conflict.None? <==> NoRepeatedEmployee(ids, employees)
    ensures AddEach(rows, bookingId, ids, employees).conflict.None? ==>
      AddEach(rows, bookingId, ids, employees).rows == rows + Requested(bookingId, ids, employees)
  {
    AddableAfterClear(rows, bookingId, ids, employees);
    AddEachComplete(rows, bookingId, ids, employees);
  }
}
