/**
 * The planner's in-memory state: four ordered collections and a budget
 * record, with the per-kind add/edit/delete operations, the two in-place
 * toggles, the budget replacement and the "first time" test.
 */
module Planner {
  import opened Wrappers
  import opened Records
  import Collection

  datatype State = State(
    ceremonies: seq<Record>,
    guests: seq<Record>,
    vendors: seq<Record>,
    tasks: seq<Record>,
    budget: Record)

  datatype Kind = Ceremonies | Guests | Vendors | Tasks

  function Entities(st: State, k: Kind): seq<Record> {
    match k
    case Ceremonies => st.ceremonies
    case Guests => st.guests
    case Vendors => st.vendors
    case Tasks => st.tasks
  }

  /** Every collection except the one of kind `k`, and the budget, are the same in both states. */
  ghost predicate OthersUnchanged(st: State, r: State, k: Kind) {
    && r.budget == st.budget
    && forall k' :: k' != k ==> Entities(r, k') == Entities(st, k')
  }

  function WithEntities(st: State, k: Kind, s: seq<Record>): (r: State)
    ensures Entities(r, k) == s
    ensures OthersUnchanged(st, r, k)
  {
    match k
    case Ceremonies => st.(ceremonies := s)
    case Guests => st.(guests := s)
    case Vendors => st.(vendors := s)
    case Tasks => st.(tasks := s)
  }

  const EmptyBudget: Record := map["total" := Num(0), "spent" := Num(0)]

  /** The state the constructor starts from, and the one clear-all restores. */
  const Empty: State := State([], [], [], [], EmptyBudget)

  predicate IsFirstTime(st: State) {
    |st.ceremonies| == 0 && |st.guests| == 0 && |st.vendors| == 0 && |st.tasks| == 0
  }

  /** What the add operation of each kind does to the caller's record before
      pushing it: a ceremony gets an empty checklist unless it has a truthy
      one, a task always starts incomplete. */
  function Prepare(k: Kind, rec: Record): Record {
    match k
    case Ceremonies => if FieldTruthy(rec, "checklist") then rec else rec["checklist" := Items([])]
    case Tasks => rec["completed" := Flag(false)]
    case _ => rec
  }

  /** addCeremony / addGuest / addVendor / addTask with `id` the freshly generated id. */
  function AddEntity(st: State, k: Kind, rec: Record, id: string): (r: State)
    ensures OthersUnchanged(st, r, k)
    ensures |Entities(r, k)| == |Entities(st, k)| + 1
    ensures Entities(r, k)[..|Entities(st, k)|] == Entities(st, k)
    ensures HasId(Entities(r, k)[|Entities(st, k)|], id)
    ensures Entities(r, k)[|Entities(st, k)|].Keys ==
      rec.Keys + {"id"}
      + (if k == Tasks then {"completed"} else {})
      + (if k == Ceremonies then {"checklist"} else {})
    ensures var e := Entities(r, k)[|Entities(st, k)|];
      && (k == Tasks ==> "completed" in e && e["completed"] == Flag(false))
      && (k == Ceremonies ==>
            && "checklist" in e
            && e["checklist"] == (if FieldTruthy(rec, "checklist") then rec["checklist"] else Items([])))
      && (forall f :: f in rec && f != "id"
            && !(k == Tasks && f == "completed") && !(k == Ceremonies && f == "checklist")
            ==> f in e && e[f] == rec[f])
  {
    WithEntities(st, k, Collection.Add(Entities(st, k), Prepare(k, rec), id))
  }

  /** A fresh id keeps the ids of the grown collection unique. */
  lemma AddEntityKeepsUnique(st: State, k: Kind, rec: Record, id: string)
    requires Collection.UniqueIds(Entities(st, k))
    requires Collection.NoMatch(Entities(st, k), id)
    ensures Collection.UniqueIds(Entities(AddEntity(st, k, rec, id), k))
  {
  }

  /** editCeremony / editGuest / editVendor / editTask. */
  function EditEntity(st: State, k: Kind, id: string, upd: Record): (r: State)
    ensures OthersUnchanged(st, r, k)
    ensures Collection.NoMatch(Entities(st, k), id) ==> r == st
    ensures |Entities(r, k)| == |Entities(st, k)|
    ensures forall j :: 0 <= j < |Entities(st, k)| ==>
      Entities(r, k)[j] ==
        (if Collection.IsFirstMatch(Entities(st, k), j, id)
         then Spread(Entities(st, k)[j], upd, id) else Entities(st, k)[j])
  {
    var s := Entities(st, k);
    if Collection.NoMatch(s, id) then st
    else WithEntities(st, k, Collection.Edit(s, id, upd))
  }

  /** deleteCeremony / deleteGuest / deleteVendor / deleteTask. */
  function DeleteEntity(st: State, k: Kind, id: string): (r: State)
    ensures OthersUnchanged(st, r, k)
    ensures forall x :: x in Entities(r, k) <==> x in Entities(st, k) && !HasId(x, id)
    ensures Entities(r, k) == Collection.Delete(Entities(st, k), id)
  {
    WithEntities(st, k, Collection.Delete(Entities(st, k), id))
  }

  /** Deleting an id twice gives the state deleting it once gives. */
  lemma DeleteEntityIdempotent(st: State, k: Kind, id: string)
    ensures DeleteEntity(DeleteEntity(st, k, id), k, id) == DeleteEntity(st, k, id)
  {
    Collection.DeleteIdempotent(Entities(st, k), id);
  }

  /** Deleting an id no record of that kind carries changes nothing. */
  lemma DeleteEntityAbsent(st: State, k: Kind, id: string)
    requires Collection.NoMatch(Entities(st, k), id)
    ensures DeleteEntity(st, k, id) == st
  {
    Collection.DeleteAbsent(Entities(st, k), id);
  }

  /** The checklist a ceremony record holds, when it holds a list. */
  function ChecklistOf(c: Record): Option<seq<Item>> {
    if "checklist" in c && c["checklist"].Items? then Some(c["checklist"].items) else None
  }

  /** `b` is `a` with only the `done` flag of checklist item `idx` negated. */
  ghost predicate ItemFlipped(a: Record, b: Record, idx: int) {
    && b.Keys == a.Keys
    && (forall f :: f in a && f != "checklist" ==> b[f] == a[f])
    && ChecklistOf(a).Some? && ChecklistOf(b).Some?
    && var x, y := ChecklistOf(a).value, ChecklistOf(b).value;
      && |y| == |x|
      && 0 <= idx < |x|
      && y[idx].text == x[idx].text
      && y[idx].done == !x[idx].done
      && forall m :: 0 <= m < |x| && m != idx ==> y[m] == x[m]
  }

  /** Whether toggleChecklistItem finds something to toggle: the first
      ceremony with that id exists, has a checklist, and item `idx` exists. */
  predicate CanToggleItem(st: State, ceremonyId: string, idx: int) {
    var i := Collection.FindIndex(st.ceremonies, ceremonyId);
    i != -1 && ChecklistOf(st.ceremonies[i]).Some? && 0 <= idx < |ChecklistOf(st.ceremonies[i]).value|
  }

  function ToggleChecklistItem(st: State, ceremonyId: string, idx: int): (r: State)
    ensures OthersUnchanged(st, r, Ceremonies)
    ensures !CanToggleItem(st, ceremonyId, idx) ==> r == st
    ensures |r.ceremonies| == |st.ceremonies|
    ensures CanToggleItem(st, ceremonyId, idx) ==>
      forall j :: 0 <= j < |st.ceremonies| ==>
        if Collection.IsFirstMatch(st.ceremonies, j, ceremonyId)
        then ItemFlipped(st.ceremonies[j], r.ceremonies[j], idx)
        else r.ceremonies[j] == st.ceremonies[j]
  {
    if !CanToggleItem(st, ceremonyId, idx) then st
    else
      var i := Collection.FindIndex(st.ceremonies, ceremonyId);
      var c := st.ceremonies[i];
      var items := c["checklist"].items;
      var c' := c["checklist" := Items(items[idx := items[idx].(done := !items[idx].done)])];
      st.(ceremonies := st.ceremonies[i := c'])
  }

  /** Toggling the same checklist item twice restores the state. */
  lemma ToggleChecklistItemTwice(st: State, ceremonyId: string, idx: int)
    ensures ToggleChecklistItem(ToggleChecklistItem(st, ceremonyId, idx), ceremonyId, idx) == st
  {
    if CanToggleItem(st, ceremonyId, idx) {
      var r := ToggleChecklistItem(st, ceremonyId, idx);
      var i := Collection.FindIndex(st.ceremonies, ceremonyId);
      var c := st.ceremonies[i];
      var items := c["checklist"].items;
      var flipped := items[idx := items[idx].(done := !items[idx].done)];
      var c' := c["checklist" := Items(flipped)];
      assert r.ceremonies == st.ceremonies[i := c'];
      assert HasId(c', ceremonyId);
      Collection.FindIndexSameIds(st.ceremonies, r.ceremonies, ceremonyId);
      assert CanToggleItem(r, ceremonyId, idx);
      var back := flipped[idx := flipped[idx].(done := !flipped[idx].done)];
      assert back == items;
      assert c'["checklist" := Items(back)] == c;
    }
  }

  /** `b` is `a` with `completed` replaced by the boolean negation of its truthiness. */
  ghost predicate CompletedFlipped(a: Record, b: Record) {
    && b.Keys == a.Keys + {"completed"}
    && b["completed"] == Flag(!FieldTruthy(a, "completed"))
    && forall f :: f in a && f != "completed" ==> b[f] == a[f]
  }

  /** `t.completed = !t.completed`. */
  function FlipCompleted(t: Record): Record {
    t["completed" := Flag(!FieldTruthy(t, "completed"))]
  }

  /** Negating a boolean `completed` twice gives the task back. */
  lemma FlipCompletedTwice(t: Record)
    requires "completed" in t && t["completed"].Flag?
    ensures FlipCompleted(FlipCompleted(t)) == t
  {
    assert FlipCompleted(FlipCompleted(t)).Keys == t.Keys;
  }

  /** toggleTask: the first task with that id has `completed` negated. */
  function ToggleTask(st: State, id: string): (r: State)
    ensures OthersUnchanged(st, r, Tasks)
    ensures Collection.NoMatch(st.tasks, id) ==> r == st
    ensures |r.tasks| == |st.tasks|
    ensures forall j :: 0 <= j < |st.tasks| ==>
      if Collection.IsFirstMatch(st.tasks, j, id)
      then CompletedFlipped(st.tasks[j], r.tasks[j])
      else r.tasks[j] == st.tasks[j]
  {
    var i := Collection.FindIndex(st.tasks, id);
    if i == -1 then st else st.(tasks := st.tasks[i := FlipCompleted(st.tasks[i])])
  }

  /** Toggling a task twice restores the state when its `completed` field
      holds a boolean (the only kind of value add and toggle ever store). */
  lemma ToggleTaskTwice(st: State, id: string)
    requires forall j :: Collection.IsFirstMatch(st.tasks, j, id) ==>
      "completed" in st.tasks[j] && st.tasks[j]["completed"].Flag?
    ensures ToggleTask(ToggleTask(st, id), id) == st
  {
    var i := Collection.FindIndex(st.tasks, id);
    if i != -1 {
      var r := st.(tasks := st.tasks[i := FlipCompleted(st.tasks[i])]);
      assert HasId(r.tasks[i], id);
      Collection.FindIndexSameIds(st.tasks, r.tasks, id);
      FlipCompletedTwice(st.tasks[i]);
      assert r.tasks[i := FlipCompleted(r.tasks[i])] == st.tasks;
    }
  }

  /** updateBudget: the budget record is replaced wholesale. */
  function UpdateBudget(st: State, budget: Record): (r: State)
    ensures r.budget == budget
    ensures forall k :: Entities(r, k) == Entities(st, k)
  {
    st.(budget := budget)
  }
}
