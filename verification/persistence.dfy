/**
 * Whole-state transitions: loading the stored snapshot, exporting and
 * importing a snapshot, and clearing everything.  Reading storage, parsing
 * text and asking the user for confirmation happen outside the model; they
 * arrive here as their outcomes.
 */
module Persistence {
  import opened Wrappers
  import opened Records
  import opened Planner

  /** A parsed snapshot document.  Each top-level field is `None` when it is
      absent or holds a falsy value, so `doc.f || default` picks the default
      exactly when the field is `None`. */
  datatype Doc = Doc(
    ceremonies: Option<seq<Record>>,
    guests: Option<seq<Record>>,
    vendors: Option<seq<Record>>,
    tasks: Option<seq<Record>>,
    budget: Option<Record>)

  /** What reading the storage slot yields: nothing stored (or an empty
      string), text that could not be read or parsed, or a parsed document. */
  datatype Stored = Nothing | Unreadable | Parsed(doc: Doc)

  /** The state after loading, and whether the "starting fresh" warning was shown. */
  datatype Loaded = Loaded(state: State, warned: bool)

  /** Every top-level field of the document is present. */
  predicate Complete(doc: Doc) {
    doc.ceremonies.Some? && doc.guests.Some? && doc.vendors.Some? && doc.tasks.Some? && doc.budget.Some?
  }

  /** The document is laid field by field over the empty state: present
      fields are kept, missing collections become empty and a missing
      budget becomes `{total: 0, spent: 0}`. */
  function Merge(doc: Doc): (st: State)
    ensures st.ceremonies == (if doc.ceremonies.Some? then doc.ceremonies.value else [])
    ensures st.guests == (if doc.guests.Some? then doc.guests.value else [])
    ensures st.vendors == (if doc.vendors.Some? then doc.vendors.value else [])
    ensures st.tasks == (if doc.tasks.Some? then doc.tasks.value else [])
    ensures st.budget == (if doc.budget.Some? then doc.budget.value else Empty.budget)
  {
    State(
      doc.ceremonies.GetOr([]),
      doc.guests.GetOr([]),
      doc.vendors.GetOr([]),
      doc.tasks.GetOr([]),
      doc.budget.GetOr(EmptyBudget))
  }

  /** loadData, starting from `current` (the constructor's empty state). */
  function LoadData(current: State, stored: Stored): (r: Loaded)
    ensures r.warned <==> stored.Unreadable?
    ensures !stored.Parsed? ==> r.state == current
    ensures stored.Parsed? ==> r.state == Merge(stored.doc)
  {
    match stored
    case Nothing => Loaded(current, false)
    case Unreadable => Loaded(current, true)
    case Parsed(doc) => Loaded(Merge(doc), false)
  }

  /** The snapshot exportData and saveData serialise: every field present. */
  function Export(st: State): (doc: Doc)
    ensures Complete(doc)
  {
    Doc(Some(st.ceremonies), Some(st.guests), Some(st.vendors), Some(st.tasks), Some(st.budget))
  }

  /** Merging an exported snapshot gives back the state, and exporting a
      merged complete document gives back the document. */
  lemma ExportMergeInverse(st: State, doc: Doc)
    ensures Merge(Export(st)) == st
    ensures Complete(doc) ==> Export(Merge(doc)) == doc
  {
  }

  /** A saved state survives a reload unchanged. */
  lemma LoadAfterSave(current: State, st: State)
    ensures LoadData(current, Parsed(Export(st))) == Loaded(st, false)
  {
  }

  /** At start-up a corrupt or missing slot leaves the empty state, so the
      planner counts as first-time. */
  lemma StartupFallback(stored: Stored)
    requires !stored.Parsed?
    ensures IsFirstTime(LoadData(Empty, stored).state)
    ensures LoadData(Empty, stored).state.budget == map["total" := Num(0), "spent" := Num(0)]
  {
  }

  /** The import check: ceremonies, guests and vendors must be present
      (tasks and budget are not checked). */
  predicate Acceptable(doc: Doc) {
    doc.ceremonies.Some? && doc.guests.Some? && doc.vendors.Some?
  }

  datatype ImportError = Unparseable | InvalidFormat

  /** The state after an import attempt, and the error reported, if any. */
  datatype Imported = Imported(state: State, error: Option<ImportError>)

  /** importData as written: the document that becomes the planner's data,
      or None when the data is left alone.  An accepted document is installed
      raw, whatever top-level fields it lacks. */
  function ImportAsWritten(parsed: Option<Doc>, confirmed: bool): (r: Option<Doc>)
    ensures r.Some? <==> parsed.Some? && Acceptable(parsed.value) && confirmed
    ensures r.Some? ==> r.value == parsed.value
  {
    if parsed.Some? && Acceptable(parsed.value) && confirmed then parsed else None
  }

  /** A document with only the three checked collections passes the check
      and is installed without tasks or budget, so the budget display that
      runs next reads `total` of a missing budget. */
  lemma ImportAsWrittenInstallsIncomplete()
    ensures var doc := Doc(Some([]), Some([]), Some([]), None, None);
      && ImportAsWritten(Some(doc), true) == Some(doc)
      && !Complete(doc)
  {
  }

  /** importData with the missing fields back-filled as loadData does.
      `parsed` is None when the file is not valid JSON; `confirmed` is the
      user's answer to the replace-everything dialog. */
  function Import(st: State, parsed: Option<Doc>, confirmed: bool): (r: Imported)
    ensures parsed.None? ==> r == Imported(st, Some(Unparseable))
    ensures parsed.Some? && !Acceptable(parsed.value) ==> r == Imported(st, Some(InvalidFormat))
    ensures r.error.Some? ==> r.state == st
    ensures r.error.None? <==> parsed.Some? && Acceptable(parsed.value)
    ensures r.error.None? && !confirmed ==> r.state == st
    ensures r.error.None? && confirmed ==>
      && r.state.ceremonies == parsed.value.ceremonies.value
      && r.state.guests == parsed.value.guests.value
      && r.state.vendors == parsed.value.vendors.value
      && r.state.tasks == (if parsed.value.tasks.Some? then parsed.value.tasks.value else [])
      && r.state.budget == (if parsed.value.budget.Some? then parsed.value.budget.value else Empty.budget)
  {
    match parsed
    case None => Imported(st, Some(Unparseable))
    case Some(doc) =>
      if !Acceptable(doc) then Imported(st, Some(InvalidFormat))
      else if confirmed then Imported(Merge(doc), None)
      else Imported(st, None)
  }

  /** Import agrees with the as-written replacement on every complete
      document: the two differ only in what they install for missing fields. */
  lemma ImportMatchesAsWritten(st: State, parsed: Option<Doc>, confirmed: bool)
    requires parsed.Some? ==> Complete(parsed.value)
    ensures var r := ImportAsWritten(parsed, confirmed);
      r.Some? ==> Export(Import(st, parsed, confirmed).state) == r.value
    ensures ImportAsWritten(parsed, confirmed).None? ==> Import(st, parsed, confirmed).state == st
  {
  }

  /** Importing an exported snapshot reproduces the exported state. */
  lemma ExportImportRoundTrip(current: State, st: State)
    ensures Import(current, Some(Export(st)), true) == Imported(st, None)
  {
  }

  /** clearAllData: both confirmations reset everything to the empty state. */
  function ClearAll(st: State, firstConfirm: bool, secondConfirm: bool): (r: State)
    ensures firstConfirm && secondConfirm ==>
      && IsFirstTime(r)
      && r.budget == map["total" := Num(0), "spent" := Num(0)]
    ensures !(firstConfirm && secondConfirm) ==> r == st
  {
    if firstConfirm && secondConfirm then Empty else st
  }
}
