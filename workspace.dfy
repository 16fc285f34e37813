/**
 * The project workspace (components/project-workspace.tsx): a checklist of
 * the project's milestones whose completed flags the student toggles, and a
 * progress percentage derived from them.
 */
module Workspace {
  import opened Store

  /** A project-milestone row as the page receives it. */
  datatype PmRow = PmRow(id: Id, completed: bool)

  /** A request the page sends. */
  datatype Patch =
    | MilestonePatch(pmId: Id, completed: bool)
    | ProgressPatch(projectId: Id, percent: int)

  /** The ids of the rows, as a set. */
  function RowIds(rows: seq<PmRow>): (ids: set<Id>)
    ensures forall i | 0 <= i < |rows| :: rows[i].id in ids
    ensures forall k | k in ids :: exists i | 0 <= i < |rows| :: rows[i].id == k
  {
    set i | 0 <= i < |rows| :: rows[i].id
  }

  /** Row `i` is the last row with its id. */
  predicate LastWithId(rows: seq<PmRow>, i: int)
    requires 0 <= i < |rows|
  {
    forall j | i < j < |rows| :: rows[j].id != rows[i].id
  }

  /**
   * The `reduce` that builds the initial state: rows are folded in order into
   * a record from id to completed flag, so a later row with the same id wins.
   */
  function InitialStates(rows: seq<PmRow>): (m: map<Id, bool>)
    ensures m.Keys == RowIds(rows)
    ensures forall i | 0 <= i < |rows| && LastWithId(rows, i) :: m[rows[i].id] == rows[i].completed
  {
    if rows == [] then map[]
    else
      var init := rows[..|rows| - 1];
      var last := rows[|rows| - 1];
      var m := InitialStates(init)[last.id := last.completed];
      assert RowIds(rows) == RowIds(init) + {last.id} by {
        forall k | k in RowIds(rows) ensures k in RowIds(init) + {last.id} {
          var i :| 0 <= i < |rows| && rows[i].id == k;
          if i < |rows| - 1 { assert init[i] == rows[i]; }
        }
      }
      forall i | 0 <= i < |rows| && LastWithId(rows, i) ensures m[rows[i].id] == rows[i].completed {
        if i < |rows| - 1 {
          assert init[i] == rows[i];
          assert LastWithId(init, i);
        }
      }
      m
  }

  /** With distinct ids, every row's entry is that row's flag, and there are as many entries as rows. */
  lemma InitialStatesOfDistinct(rows: seq<PmRow>)
    requires DistinctIds(rows)
    ensures forall i | 0 <= i < |rows| :: rows[i].id in InitialStates(rows)
                                          && InitialStates(rows)[rows[i].id] == rows[i].completed
    ensures |InitialStates(rows).Keys| == |rows|
  {
    forall i | 0 <= i < |rows| ensures LastWithId(rows, i) { }
    RowIdsSize(rows);
  }

  /** Adding a row adds its id. */
  lemma RowIdsOfSnoc(rows: seq<PmRow>)
    requires rows != []
    ensures RowIds(rows) == RowIds(rows[..|rows| - 1]) + {rows[|rows| - 1].id}
  {
    var init := rows[..|rows| - 1];
    forall k | k in RowIds(rows) ensures k in RowIds(init) + {rows[|rows| - 1].id} {
      var i :| 0 <= i < |rows| && rows[i].id == k;
      if i < |rows| - 1 { assert init[i] == rows[i]; }
    }
    forall i | 0 <= i < |init| ensures init[i] == rows[i] { }
  }

  predicate DistinctIds(rows: seq<PmRow>)
  {
    forall i, j | 0 <= i < j < |rows| :: rows[i].id != rows[j].id
  }

  /** With distinct ids, the last row's id is new and the other rows' ids stay distinct. */
  lemma DistinctSnoc(rows: seq<PmRow>)
    requires rows != [] && DistinctIds(rows)
    ensures DistinctIds(rows[..|rows| - 1])
    ensures rows[|rows| - 1].id !in RowIds(rows[..|rows| - 1])
  {
    var init := rows[..|rows| - 1];
    forall i | 0 <= i < |init| ensures init[i] == rows[i] { }
  }

  /** There are at most as many ids as rows, and exactly as many when the ids are distinct. */
  lemma {:induction false} RowIdsSize(rows: seq<PmRow>)
    ensures |RowIds(rows)| <= |rows|
    ensures DistinctIds(rows) ==> |RowIds(rows)| == |rows|
  {
    if rows != [] {
      RowIdsSize(rows[..|rows| - 1]);
      RowIdsOfSnoc(rows);
      if DistinctIds(rows) {
        DistinctSnoc(rows);
      }
    }
  }

  /** The set of completed entries. */
  function DoneKeys(m: map<Id, bool>): (done: set<Id>)
    ensures done <= m.Keys
    ensures forall k | k in m :: k in done <==> m[k]
  {
    set k | k in m && m[k]
  }

  /** `Object.values(states).filter(Boolean).length`: the number of completed entries. */
  function CountDone(m: map<Id, bool>): (n: nat)
    ensures n <= |m.Keys|
  {
    SubsetCardinality(DoneKeys(m), m.Keys);
    |DoneKeys(m)|
  }

  lemma SubsetCardinality(a: set<Id>, b: set<Id>)
    requires a <= b
    ensures |a| <= |b|
  {
    assert b == a + (b - a);
  }

  /** Setting one entry takes its key out of the completed set, and puts it back when the new flag is true. */
  lemma DoneKeysAfterSet(m: map<Id, bool>, k: Id, v: bool)
    ensures DoneKeys(m[k := v]) == (DoneKeys(m) - {k}) + (if v then {k} else {})
  {
    var m' := m[k := v];
    forall j | j in DoneKeys(m') && j != k ensures j in DoneKeys(m) { assert m'[j] == m[j]; }
    forall j | j in DoneKeys(m) && j != k ensures j in DoneKeys(m') { assert m'[j] == m[j]; }
  }

  /** Setting one entry changes the count by at most one, as the old and new flags say. */
  lemma CountAfterSet(m: map<Id, bool>, k: Id, v: bool)
    ensures CountDone(m[k := v])
            == CountDone(m) - (if k in m && m[k] then 1 else 0) + (if v then 1 else 0)
  {
    DoneKeysAfterSet(m, k, v);
    var rest := DoneKeys(m) - {k};
    var before, after := DoneKeys(m), DoneKeys(m[k := v]);
    if k in before {
      assert before == rest + {k};
      assert |before| == |rest| + 1;
    } else {
      assert before == rest;
    }
    if v {
      assert after == rest + {k};
      assert |after| == |rest| + 1;
    } else {
      assert after == rest;
    }
  }

  /** No completed entry gives a count of 0; all entries completed gives the number of entries. */
  lemma CountExtremes(m: map<Id, bool>)
    ensures (forall k | k in m :: !m[k]) ==> CountDone(m) == 0
    ensures (forall k | k in m :: m[k]) ==> CountDone(m) == |m.Keys|
  {
    if forall k | k in m :: m[k] {
      assert DoneKeys(m) == m.Keys;
    }
    if forall k | k in m :: !m[k] {
      assert DoneKeys(m) == {};
    }
  }

  /**
   * `Math.round(done / total * 100)`, computed exactly: the percentage
   * rounded to the nearest integer, halves rounded up.
   */
  function Progress(done: nat, total: nat): (p: int)
    requires total > 0
    ensures 2 * total * p <= 200 * done + total < 2 * total * (p + 1)
  {
    (200 * done + total) / (2 * total)
  }

  lemma MulMonotone(t: int, a: int, b: int)
    requires t >= 0 && a <= b
    ensures t * a <= t * b
  {
    assert t * b - t * a == t * (b - a);
  }

  /** A strict inequality between two multiples of a positive number is one between the factors. */
  lemma MulCancel(t: int, a: int, b: int)
    requires t > 0 && t * a < t * b
    ensures a < b
  {
    if a >= b {
      MulMonotone(t, b, a);
    }
  }

  /** The percentage lies in 0..100, is 0 with nothing done and 100 with everything done. */
  lemma ProgressBounds(done: nat, total: nat)
    requires 0 < total && done <= total
    ensures 0 <= Progress(done, total) <= 100
    ensures done == 0 ==> Progress(done, total) == 0
    ensures done == total ==> Progress(done, total) == 100
  {
    var p := Progress(done, total);
    var t2 := 2 * total;
    assert t2 * p <= 200 * done + total < t2 * (p + 1);
    MulCancel(t2, p, 101);
    MulCancel(t2, 0, p + 1);
    if done == 0 {
      MulCancel(t2, p, 1);
    }
    if done == total {
      MulCancel(t2, 100, p + 1);
    }
  }

  /** Completing more milestones never lowers the percentage. */
  lemma ProgressMonotone(a: nat, b: nat, total: nat)
    requires 0 < total && a <= b
    ensures Progress(a, total) <= Progress(b, total)
  {
    var p, q := Progress(a, total), Progress(b, total);
    var t2 := 2 * total;
    assert t2 * p <= 200 * a + total <= 200 * b + total < t2 * (q + 1);
    MulCancel(t2, p, q + 1);
  }

  /** The page state: the project, its milestone rows, and the record of completed flags. */
  class Page {
    const projectId: Id
    const rows: seq<PmRow>
    const status: Status
    var states: map<Id, bool>
    /** The PATCH requests sent so far, in order. */
    var sent: seq<Patch>

    /** The record has one entry per row id, and nothing else. */
    ghost predicate Valid()
      reads this
    {
      states.Keys == RowIds(rows)
    }

    constructor (projectId: Id, rows: seq<PmRow>, status: Status)
      ensures Valid()
      ensures this.projectId == projectId && this.rows == rows && this.status == status
      ensures states == InitialStates(rows) && sent == []
    {
      this.projectId := projectId;
      this.rows := rows;
      this.status := status;
      states := InitialStates(rows);
      sent := [];
    }

    /** The "n of m completed" count. */
    function CompletedCount(): (n: nat)
      reads this
      requires Valid()
      ensures n <= |rows|
    {
      RowIdsSize(rows);
      CountDone(states)
    }

    /** The progress bar; the page always has rows when it shows one. */
    function DisplayedProgress(): (p: int)
      reads this
      requires Valid() && |rows| > 0
      ensures 0 <= p <= 100
      ensures CountDone(states) == 0 ==> p == 0
      ensures CountDone(states) == |rows| ==> p == 100
    {
      var n := CompletedCount();
      ProgressBounds(n, |rows|);
      Progress(n, |rows|)
    }

    /** The request-review button is offered only while the project is in progress. */
    predicate ShowsReviewButton()
      reads this
    {
      status == InProgress
    }

    /**
     * `handleToggleMilestone(pmId, completed)`. The milestone PATCH is always
     * sent; `patchOk` is whether it succeeded. Only on success is the entry
     * updated and the new percentage sent for the project.
     */
    method ToggleMilestone(pmId: Id, completed: bool, patchOk: bool)
      requires Valid() && pmId in states
      modifies this
      ensures Valid()
      ensures states == if patchOk then old(states)[pmId := completed] else old(states)
      ensures sent == old(sent) + [MilestonePatch(pmId, completed)]
                      + if patchOk then [ProgressPatch(projectId, Progress(CountDone(states), |rows|))] else []
    {
      sent := sent + [MilestonePatch(pmId, completed)];
      if patchOk {
        states := states[pmId := completed];
        var percent := Progress(CountDone(states), |rows|);
        sent := sent + [ProgressPatch(projectId, percent)];
      }
    }
  }

  /** A successful toggle changes exactly one entry and moves the count by at most one. */
  lemma ToggleIsLocal(m: map<Id, bool>, pmId: Id, completed: bool)
    requires pmId in m
    ensures m[pmId := completed].Keys == m.Keys
    ensures forall k | k in m && k != pmId :: m[pmId := completed][k] == m[k]
    ensures CountDone(m[pmId := completed]) == CountDone(m) - (if m[pmId] then 1 else 0) + (if completed then 1 else 0)
  {
    CountAfterSet(m, pmId, completed);
  }

  /** Completing an open milestone and then reopening it restores the record, the count and the percentage. */
  lemma ToggleOnThenOffRestores(m: map<Id, bool>, pmId: Id, total: nat)
    requires pmId in m && !m[pmId] && total > 0
    ensures m[pmId := true][pmId := false] == m
    ensures CountDone(m[pmId := true]) == CountDone(m) + 1
    ensures Progress(CountDone(m[pmId := true][pmId := false]), total) == Progress(CountDone(m), total)
  {
    CountAfterSet(m, pmId, true);
    assert m[pmId := true][pmId := false] == m;
  }
}
