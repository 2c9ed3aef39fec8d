/**
 * The figures the dashboard derives from the planner state: guest head
 * counts, pending tasks, the committed budget, what remains of the total
 * and the rounded utilisation percentage with its progress bar.
 */
module Stats {
  import opened Records
  import Collection
  import opened Planner

  /** `s.reduce((sum, r) => sum + (parseInt(r[f]) || 0), 0)`. */
  function SumOf(s: seq<Record>, f: string): (r: int)
    ensures (forall j :: 0 <= j < |s| ==> NumOr0(s[j], f) >= 0) ==> r >= 0
    decreases |s|
  {
    if |s| == 0 then 0 else NumOr0(s[0], f) + SumOf(s[1..], f)
  }

  /** `s.filter(r => r[f] === v)`. */
  function Where(s: seq<Record>, f: string, v: string): (r: seq<Record>)
    ensures |r| <= |s|
    ensures forall x :: x in r <==> x in s && FieldIs(x, f, v)
    decreases |s|
  {
    if |s| == 0 then []
    else if FieldIs(s[0], f, v) then [s[0]] + Where(s[1..], f, v)
    else Where(s[1..], f, v)
  }

  /** Reference definition: the sum of field `g` over the records whose
      field `f` is `v`, taken in one pass without filtering first. */
  ghost function SumWhere(s: seq<Record>, f: string, v: string, g: string): int
    decreases |s|
  {
    if |s| == 0 then 0
    else (if FieldIs(s[0], f, v) then NumOr0(s[0], g) else 0) + SumWhere(s[1..], f, v, g)
  }

  /** Every record's field `f` counts as a non-negative number. */
  predicate NonNegative(s: seq<Record>, f: string) {
    forall j :: 0 <= j < |s| ==> NumOr0(s[j], f) >= 0
  }

  /** Filtering and then summing is the one-pass conditional sum. */
  lemma {:induction false} SumOfWhere(s: seq<Record>, f: string, v: string, g: string)
    ensures SumOf(Where(s, f, v), g) == SumWhere(s, f, v, g)
    decreases |s|
  {
    if |s| > 0 {
      SumOfWhere(s[1..], f, v, g);
      if FieldIs(s[0], f, v) {
        var w := [s[0]] + Where(s[1..], f, v);
        assert w[1..] == Where(s[1..], f, v);
      }
    }
  }

  /** With non-negative values, a conditional sum never exceeds the full sum. */
  lemma {:induction false} SumWhereAtMostSum(s: seq<Record>, f: string, v: string, g: string)
    ensures NonNegative(s, g) ==> 0 <= SumWhere(s, f, v, g) <= SumOf(s, g)
    decreases |s|
  {
    if |s| > 0 && NonNegative(s, g) {
      assert NonNegative(s[1..], g) by {
        forall j | 0 <= j < |s[1..]| ensures NumOr0(s[1..][j], g) >= 0 {
          assert s[1..][j] == s[j + 1];
        }
      }
      assert NumOr0(s[0], g) >= 0;
      SumWhereAtMostSum(s[1..], f, v, g);
    }
  }

  lemma {:induction false} SumOfConcat(a: seq<Record>, b: seq<Record>, f: string)
    ensures SumOf(a + b, f) == SumOf(a, f) + SumOf(b, f)
    decreases |a|
  {
    if |a| == 0 {
      assert a + b == b;
    } else {
      assert (a + b)[1..] == a[1..] + b;
      SumOfConcat(a[1..], b, f);
    }
  }

  lemma {:induction false} SumWhereConcat(a: seq<Record>, b: seq<Record>, f: string, v: string, g: string)
    ensures SumWhere(a + b, f, v, g) == SumWhere(a, f, v, g) + SumWhere(b, f, v, g)
    decreases |a|
  {
    if |a| == 0 {
      assert a + b == b;
    } else {
      assert (a + b)[1..] == a[1..] + b;
      SumWhereConcat(a[1..], b, f, v, g);
    }
  }

  /** The tasks whose `completed` field is falsy, in order. */
  function Incomplete(s: seq<Record>): (r: seq<Record>)
    ensures |r| <= |s|
    ensures forall x :: x in r <==> x in s && !FieldTruthy(x, "completed")
    decreases |s|
  {
    if |s| == 0 then []
    else if FieldTruthy(s[0], "completed") then Incomplete(s[1..])
    else [s[0]] + Incomplete(s[1..])
  }

  /** Number of incomplete tasks, counted position by position. */
  ghost function Pending(s: seq<Record>): nat
    decreases |s|
  {
    if |s| == 0 then 0
    else (if FieldTruthy(s[0], "completed") then 0 else 1) + Pending(s[1..])
  }

  /** Number of completed tasks, counted position by position. */
  ghost function Completed(s: seq<Record>): nat
    decreases |s|
  {
    if |s| == 0 then 0
    else (if FieldTruthy(s[0], "completed") then 1 else 0) + Completed(s[1..])
  }

  /** The filtered length is the pending count, and pending plus completed
      tasks make up the whole list. */
  lemma {:induction false} IncompleteCount(s: seq<Record>)
    ensures |Incomplete(s)| == Pending(s)
    ensures Pending(s) + Completed(s) == |s|
    decreases |s|
  {
    if |s| > 0 {
      IncompleteCount(s[1..]);
    }
  }

  /** Replacing one task changes the pending count only by what that task contributes. */
  lemma {:induction false} PendingUpdate(s: seq<Record>, i: int, x: Record)
    requires 0 <= i < |s|
    ensures Pending(s[i := x]) + (if FieldTruthy(s[i], "completed") then 0 else 1)
         == Pending(s) + (if FieldTruthy(x, "completed") then 0 else 1)
    decreases |s|
  {
    if i == 0 {
      assert s[i := x][1..] == s[1..];
    } else {
      assert s[i := x][0] == s[0];
      assert s[i := x][1..] == s[1..][i - 1 := x];
      PendingUpdate(s[1..], i - 1, x);
    }
  }

  /** The five dashboard figures of updateStats. */
  datatype Dashboard = Dashboard(
    totalGuests: int,
    confirmedGuests: int,
    ceremonies: nat,
    vendors: nat,
    pendingTasks: nat)

  function TotalGuests(st: State): int {
    SumOf(st.guests, "members")
  }

  /** Head count over confirmed guests; with non-negative party sizes it
      lies between 0 and the head count over all guests. */
  function ConfirmedGuests(st: State): (r: int)
    ensures r == SumWhere(st.guests, "status", "confirmed", "members")
    ensures NonNegative(st.guests, "members") ==> 0 <= r <= TotalGuests(st)
  {
    SumOfWhere(st.guests, "status", "confirmed", "members");
    SumWhereAtMostSum(st.guests, "status", "confirmed", "members");
    SumOf(Where(st.guests, "status", "confirmed"), "members")
  }

  function PendingTasks(st: State): (r: nat)
    ensures r == Pending(st.tasks)
    ensures r + Completed(st.tasks) == |st.tasks|
  {
    IncompleteCount(st.tasks);
    |Incomplete(st.tasks)|
  }

  function UpdateStats(st: State): (d: Dashboard)
    ensures d.totalGuests == SumOf(st.guests, "members")
    ensures d.confirmedGuests == SumWhere(st.guests, "status", "confirmed", "members")
    ensures d.ceremonies == |st.ceremonies| && d.vendors == |st.vendors|
    ensures d.pendingTasks <= |st.tasks|
    ensures d.pendingTasks == |st.tasks| - Completed(st.tasks)
  {
    Dashboard(TotalGuests(st), ConfirmedGuests(st), |st.ceremonies|, |st.vendors|, PendingTasks(st))
  }

  /** Toggling a task moves it between the pending and the completed counts. */
  lemma ToggleTaskPending(st: State, id: string)
    ensures var i := Collection.FindIndex(st.tasks, id);
      PendingTasks(ToggleTask(st, id)) ==
        if i == -1 then PendingTasks(st)
        else if FieldTruthy(st.tasks[i], "completed") then PendingTasks(st) + 1
        else PendingTasks(st) - 1
  {
    var i := Collection.FindIndex(st.tasks, id);
    if i != -1 {
      var t' := FlipCompleted(st.tasks[i]);
      assert ToggleTask(st, id).tasks == st.tasks[i := t'];
      assert FieldTruthy(t', "completed") == !FieldTruthy(st.tasks[i], "completed");
      PendingUpdate(st.tasks, i, t');
    }
  }

  /** Sum of all ceremony budgets (the "Ceremonies Budget" line). */
  function CeremonyBudget(st: State): int {
    SumOf(st.ceremonies, "budget")
  }

  /** Sum of prices of booked vendors (the "Booked Vendors" line). */
  function VendorBudget(st: State): int {
    SumOf(Where(st.vendors, "status", "booked"), "price")
  }

  /** calculateSpentBudget: ceremony budgets plus booked vendors' prices;
      vendors in any other status contribute nothing. */
  function CommittedBudget(st: State): (r: int)
    ensures r == SumOf(st.ceremonies, "budget") + SumWhere(st.vendors, "status", "booked", "price")
    ensures NonNegative(st.ceremonies, "budget") && NonNegative(st.vendors, "price") ==> r >= 0
  {
    SumOfWhere(st.vendors, "status", "booked", "price");
    SumWhereAtMostSum(st.vendors, "status", "booked", "price");
    SumOf(st.ceremonies, "budget") + SumOf(Where(st.vendors, "status", "booked"), "price")
  }

  /** Adding a ceremony commits its budget, adding a booked vendor commits
      its price; adding anything else leaves the committed budget alone. */
  lemma AddCommitted(st: State, k: Kind, rec: Record, id: string)
    ensures CommittedBudget(AddEntity(st, k, rec, id)) == CommittedBudget(st) +
      match k
      case Ceremonies => NumOr0(rec, "budget")
      case Vendors => if FieldIs(rec, "status", "booked") then NumOr0(rec, "price") else 0
      case _ => 0
  {
    var r := AddEntity(st, k, rec, id);
    var s, s' := Entities(st, k), Entities(r, k);
    var e := s'[|s|];
    assert s' == s + [e];
    assert SumOf([e], "budget") == NumOr0(e, "budget");
    assert SumWhere([e], "status", "booked", "price") ==
      if FieldIs(e, "status", "booked") then NumOr0(e, "price") else 0;
    match k {
      case Ceremonies =>
        SumOfConcat(s, [e], "budget");
        assert NumOr0(e, "budget") == NumOr0(rec, "budget");
      case Vendors =>
        SumWhereConcat(s, [e], "status", "booked", "price");
        assert FieldIs(e, "status", "booked") == FieldIs(rec, "status", "booked");
        assert NumOr0(e, "price") == NumOr0(rec, "price");
      case Guests =>
      case Tasks =>
    }
  }

  /** Tone of the progress bar. */
  datatype Tone = OverBudget | NearLimit | Normal

  /** `Math.round(committed / total * 100)` for a positive total, computed
      exactly: the integer nearest to 100 * committed / total, halves upward. */
  function RoundPercent(committed: int, total: int): (p: int)
    requires total > 0
    ensures 2 * total * p - total <= 200 * committed < 2 * total * p + total
  {
    var q := (200 * committed + total) / (2 * total);
    var m := (200 * committed + total) % (2 * total);
    assert 200 * committed + total == 2 * total * q + m && 0 <= m < 2 * total;
    q
  }

  /** What updateBudgetDisplay shows. */
  datatype BudgetView = BudgetView(
    total: int,
    committed: int,
    remaining: int,
    percent: int,
    barWidth: int,
    tone: Tone,
    ceremonyPart: int,
    vendorPart: int)

  function BudgetDisplay(st: State): (v: BudgetView)
    ensures v.total == NumOr0(st.budget, "total")
    ensures v.committed == CommittedBudget(st)
    ensures v.committed == v.ceremonyPart + v.vendorPart
    ensures v.ceremonyPart == SumOf(st.ceremonies, "budget")
    ensures v.vendorPart == SumWhere(st.vendors, "status", "booked", "price")
    ensures v.remaining + v.committed == v.total
    ensures v.total <= 0 ==> v.percent == 0
    ensures v.total > 0 ==>
      2 * v.total * v.percent - v.total <= 200 * v.committed < 2 * v.total * v.percent + v.total
    ensures v.barWidth <= 100 && (v.percent <= 100 ==> v.barWidth == v.percent)
    ensures v.percent > 100 ==> v.barWidth == 100
    ensures v.tone == OverBudget <==> v.percent > 100
    ensures v.tone == NearLimit <==> 80 < v.percent <= 100
  {
    var total := NumOr0(st.budget, "total");
    var committed := CommittedBudget(st);
    var percent := if total > 0 then RoundPercent(committed, total) else 0;
    SumOfWhere(st.vendors, "status", "booked", "price");
    BudgetView(
      total,
      committed,
      total - committed,
      percent,
      if percent < 100 then percent else 100,
      if percent > 100 then OverBudget else if percent > 80 then NearLimit else Normal,
      CeremonyBudget(st),
      VendorBudget(st))
  }

  /** Committing more than the total shows a negative remainder and a
      percentage of at least 100, which is not clamped. */
  lemma OverspentDisplay(st: State)
    requires 0 < NumOr0(st.budget, "total") < CommittedBudget(st)
    ensures BudgetDisplay(st).remaining < 0
    ensures BudgetDisplay(st).percent >= 100
    ensures BudgetDisplay(st).barWidth == 100
  {
    var v := BudgetDisplay(st);
    RoundedAtLeast100(v.committed, v.total, v.percent);
  }

  /** A rounded percentage of a committed sum above the total is at least 100. */
  lemma RoundedAtLeast100(committed: int, total: int, p: int)
    requires 0 < total < committed
    requires 200 * committed < 2 * total * p + total
    ensures p >= 100
  {
  }

  /** Replacing the budget record leaves the committed budget unchanged; the
      stored `spent` field plays no part in what is displayed. */
  lemma BudgetSpentIgnored(st: State, b: Record, spent: Value)
    ensures CommittedBudget(UpdateBudget(st, b)) == CommittedBudget(st)
    ensures BudgetDisplay(UpdateBudget(st, b)).total == NumOr0(b, "total")
    ensures BudgetDisplay(UpdateBudget(st, b["spent" := spent])) == BudgetDisplay(UpdateBudget(st, b))
  {
  }

  /** Two ceremonies budgeted at 50000 and 100000, a booked vendor at 150000
      and a vendor still negotiating at 500000, against a total of 2500000. */
  const SampleState := State(
    [map["budget" := Num(50000)], map["budget" := Num(100000)]],
    [],
    [map["price" := Num(150000), "status" := Text("booked")],
     map["price" := Num(500000), "status" := Text("negotiating")]],
    [],
    map["total" := Num(2500000), "spent" := Num(0)])

  /** For SampleState, 300000 is committed (the negotiating vendor does not
      count), 2200000 remains and the bar reads 12%. */
  lemma SampleBudget()
    ensures var v := BudgetDisplay(SampleState);
      v.committed == 300000 && v.remaining == 2200000 && v.percent == 12 && v.tone == Normal
  {
    var st := SampleState;
    var booked := st.vendors[0];
    assert Where(st.vendors, "status", "booked") == [booked];
    assert SumOf([booked], "price") == 150000 by {
      assert [booked][1..] == [];
    }
    assert SumOf(st.ceremonies, "budget") == 150000 by {
      assert st.ceremonies[1..][1..] == [];
    }
    assert CommittedBudget(st) == 300000;
    var v := BudgetDisplay(st);
    assert v.total == 2500000 && v.committed == 300000;
    assert 5000000 * v.percent - 2500000 <= 60000000 < 5000000 * v.percent + 2500000;
  }
}
