/**
 * The order in which the task list is displayed: a copy of the stored tasks
 * sorted so that incomplete tasks come first and, within each group, tasks
 * are ordered by due date.  Date parsing is outside the model: `due` maps a
 * task to the timestamp its `dueDate` denotes.
 */
module TaskOrder {
  import opened Records

  predicate Done(t: Record) {
    FieldTruthy(t, "completed")
  }

  /** The comparator of renderTasks read as "a may be shown before b". */
  predicate Precedes(a: Record, b: Record, due: Record -> int) {
    (!Done(a) && Done(b)) || (Done(a) == Done(b) && due(a) <= due(b))
  }

  ghost predicate Sorted(s: seq<Record>, due: Record -> int) {
    forall i, j :: 0 <= i < j < |s| ==> Precedes(s[i], s[j], due)
  }

  /** A task that may precede every task of a sorted list keeps it sorted
      when placed in front. */
  lemma PrependSorted(x: Record, s: seq<Record>, due: Record -> int)
    requires Sorted(s, due)
    requires forall y :: y in multiset(s) ==> Precedes(x, y, due)
    ensures Sorted([x] + s, due)
  {
  }

  /** Inserts `t` in front of the first task it may precede. */
  function Insert(t: Record, s: seq<Record>, due: Record -> int): (r: seq<Record>)
    ensures multiset(r) == multiset(s) + multiset{t}
    decreases |s|
  {
    if |s| == 0 then [t]
    else if Precedes(t, s[0], due) then [t] + s
    else
      assert s == [s[0]] + s[1..];
      [s[0]] + Insert(t, s[1..], due)
  }

  /** Insertion into a sorted list yields a sorted list. */
  lemma {:induction false} InsertSorted(t: Record, s: seq<Record>, due: Record -> int)
    requires Sorted(s, due)
    ensures Sorted(Insert(t, s, due), due)
    decreases |s|
  {
    if |s| == 0 {
    } else if Precedes(t, s[0], due) {
      forall y | y in multiset(s) ensures Precedes(t, y, due) {
        var k :| 0 <= k < |s| && s[k] == y;
      }
      PrependSorted(t, s, due);
    } else {
      var tail := s[1..];
      assert Sorted(tail, due) by {
        forall i, j | 0 <= i < j < |tail| ensures Precedes(tail[i], tail[j], due) {
          assert tail[i] == s[i + 1] && tail[j] == s[j + 1];
        }
      }
      InsertSorted(t, tail, due);
      var rest := Insert(t, tail, due);
      forall y | y in multiset(rest) ensures Precedes(s[0], y, due) {
        if y != t {
          assert y in multiset(tail);
          var k :| 0 <= k < |tail| && tail[k] == y;
          assert s[k + 1] == y;
        }
      }
      PrependSorted(s[0], rest, due);
    }
  }

  /** `[...tasks].sort(comparator)`: the stored tasks rearranged so that every
      incomplete task is shown before every completed one and due dates never
      decrease within either group. */
  function DisplayOrder(tasks: seq<Record>, due: Record -> int): (r: seq<Record>)
    ensures multiset(r) == multiset(tasks)
    ensures forall i, j :: 0 <= i < j < |r| && Done(r[i]) ==> Done(r[j])
    ensures forall i, j :: 0 <= i < j < |r| && Done(r[i]) == Done(r[j]) ==> due(r[i]) <= due(r[j])
    decreases |tasks|
  {
    if |tasks| == 0 then []
    else
      var rest := DisplayOrder(tasks[1..], due);
      assert Sorted(rest, due);
      InsertSorted(tasks[0], rest, due);
      assert tasks == [tasks[0]] + tasks[1..];
      Insert(tasks[0], rest, due)
  }
}
