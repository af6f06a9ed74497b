/** The physical block allocator as a set of used block numbers and a next-fit cursor. */
module Blocks {
  import opened Machine

  ghost predicate FreeRun(used: set<nat>, first: nat, count: nat) {
    forall b | first <= b < first + count :: b !in used
  }

  /** The lowest run of count free blocks at or above start and below total. */
  ghost function NextFit(used: set<nat>, total: nat, start: nat, count: nat): Option<nat>
    decreases total - start
  {
    if start + count > total || start >= total then None
    else if FreeRun(used, start, count) then Some(start)
    else NextFit(used, total, start + 1, count)
  }

  lemma {:induction false} NextFitIsLowest(used: set<nat>, total: nat, start: nat, count: nat)
    requires count > 0
    ensures match NextFit(used, total, start, count)
      case Some(f) =>
        && start <= f && f + count <= total && FreeRun(used, f, count)
        && forall g | start <= g < f :: !FreeRun(used, g, count)
      case None => forall g | start <= g && g + count <= total :: !FreeRun(used, g, count)
    decreases total - start
  {
    if start + count <= total && !FreeRun(used, start, count) {
      NextFitIsLowest(used, total, start + 1, count);
    }
  }

  lemma NextFitUnique(used: set<nat>, total: nat, start: nat, count: nat, f: nat)
    requires count > 0 && start <= f && f + count <= total && FreeRun(used, f, count)
    requires forall g | start <= g < f :: !FreeRun(used, g, count)
    ensures NextFit(used, total, start, count) == Some(f)
  {
    NextFitIsLowest(used, total, start, count);
  }

  /** The block numbers first, ..., first + count - 1. */
  function Range(first: nat, count: nat): (r: set<nat>)
    ensures forall b: nat :: b in r <==> first <= b < first + count
    ensures |r| == count
  {
    if count == 0 then {} else Range(first, count - 1) + {first + count - 1}
  }

  datatype State = State(used: set<nat>, cursor: nat)

  /** Where a request starts to look: the cursor goes back to 0 once it has reached the end. */
  function Start(st: State, total: nat): nat {
    if st.cursor == total then 0 else st.cursor
  }

  ghost function Outcome(st: State, total: nat, count: nat): Option<nat> {
    if count == 0 then None else NextFit(st.used, total, Start(st, total), count)
  }

  /** On success the cursor stays on the last block handed out; on failure it is at the end. */
  ghost function AfterRequest(st: State, total: nat, count: nat): State {
    if count == 0 then State(st.used, Start(st, total))
    else match Outcome(st, total, count)
      case Some(f) => State(st.used + Range(f, count), f + count - 1)
      case None => State(st.used, total)
  }

  ghost predicate WellFormed(st: State, total: nat) {
    st.cursor <= total && forall b | b in st.used :: b < total
  }

  /** A success marks exactly count contiguous blocks that were free, and nothing else. */
  lemma RequestMarksItsRun(st: State, total: nat, count: nat)
    requires WellFormed(st, total)
    ensures WellFormed(AfterRequest(st, total, count), total)
    ensures match Outcome(st, total, count)
      case Some(f) =>
        && 0 < count && f + count <= total
        && st.used !! Range(f, count)
        && AfterRequest(st, total, count).used == st.used + Range(f, count)
        && |AfterRequest(st, total, count).used| == |st.used| + count
        && (0 in st.used ==> f > 0)
      case None => AfterRequest(st, total, count).used == st.used
  {
    if count > 0 {
      NextFitIsLowest(st.used, total, Start(st, total), count);
    }
  }

  /**
    Completeness over two calls: a request that fails and is repeated at once scans everything,
    and fails again exactly when no run of that many free blocks exists anywhere.
   */
  lemma SecondTryIsComplete(st: State, total: nat, count: nat)
    requires WellFormed(st, total) && count > 0 && Outcome(st, total, count).None?
    ensures Outcome(AfterRequest(st, total, count), total, count).None?
      <==> forall f: nat | f + count <= total :: !FreeRun(st.used, f, count)
  {
    NextFitIsLowest(st.used, total, 0, count);
  }

  /** One call alone is complete only for the blocks at or above its starting point. */
  lemma FirstTryMissesBelow(st: State, total: nat, count: nat)
    requires WellFormed(st, total) && count > 0
    ensures Outcome(st, total, count).None?
      <==> forall f: nat | Start(st, total) <= f && f + count <= total :: !FreeRun(st.used, f, count)
  {
    NextFitIsLowest(st.used, total, Start(st, total), count);
  }

  /** Four blocks, the first and the last used, the cursor at 2: two blocks are free, and the request for them fails. */
  lemma FreeRunMissed()
    ensures FreeRun({0, 3}, 1, 2) && Outcome(State({0, 3}, 2), 4, 2) == None
    ensures Outcome(AfterRequest(State({0, 3}, 2), 4, 2), 4, 2) == Some(1)
  {
    FirstTryMissesBelow(State({0, 3}, 2), 4, 2);
    assert forall f: nat | 2 <= f && f + 2 <= 4 :: 3 in {0, 3} && !FreeRun({0, 3}, f, 2);
    NextFitUnique({0, 3}, 4, 0, 2, 1);
  }

  /**
    The cursor stays on the last block that was handed out: if that block is freed again, it is what the next
    request for one block gets, and a failed request starts the next search from block 0.
   */
  lemma LastBlockComesBack(st: State, total: nat, count: nat)
    requires WellFormed(st, total) && count > 0
    ensures var after := AfterRequest(st, total, count);
      match Outcome(st, total, count)
      case Some(f) =>
        && after.cursor == f + count - 1
        && Outcome(State(after.used - {after.cursor}, after.cursor), total, 1) == Some(f + count - 1)
      case None => Start(after, total) == 0
  {
    NextFitIsLowest(st.used, total, Start(st, total), count);
    var after := AfterRequest(st, total, count);
    if Outcome(st, total, count).Some? {
      NextFitUnique(after.used - {after.cursor}, total, after.cursor, 1, after.cursor);
    }
  }

  /** A list of requests made one after the other all succeed. */
  ghost predicate CanServe(st: State, total: nat, counts: seq<nat>)
    decreases counts
  {
    counts == [] ||
    (Outcome(st, total, counts[0]).Some? && CanServe(AfterRequest(st, total, counts[0]), total, counts[1..]))
  }
}
