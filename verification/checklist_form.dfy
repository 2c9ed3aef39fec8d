/**
 * The checklist the ceremony form submits.  Each input line is trimmed,
 * blank lines are dropped, and when an existing ceremony is being edited
 * the item at position i takes its `done` flag from the existing item at
 * position i, if there is one.
 */
module ChecklistForm {
  import opened Wrappers
  import opened Records
  import Collection
  import Planner

  /** White space and line terminators, the characters `String.prototype.trim` strips. */
  predicate IsSpace(c: char) {
    || c == ' ' || c == '\t' || c == '\n' || c == '\r' || c == '\U{000B}' || c == '\U{000C}'
    || c == '\U{00A0}' || c == '\U{FEFF}' || c == '\U{1680}'
    || ('\U{2000}' <= c <= '\U{200A}')
    || c == '\U{2028}' || c == '\U{2029}' || c == '\U{202F}' || c == '\U{205F}' || c == '\U{3000}'
  }

  /** Drops the leading characters that satisfy `sp`. */
  function TrimStart(s: string, sp: char -> bool): (r: string)
    ensures |r| <= |s| && r == s[|s| - |r|..]
    ensures forall k :: 0 <= k < |s| - |r| ==> sp(s[k])
    ensures |r| == 0 || !sp(r[0])
    decreases |s|
  {
    if |s| > 0 && sp(s[0]) then TrimStart(s[1..], sp) else s
  }

  /** Drops the trailing characters that satisfy `sp`. */
  function TrimEnd(s: string, sp: char -> bool): (r: string)
    ensures |r| <= |s| && r == s[..|r|]
    ensures forall k :: |r| <= k < |s| ==> sp(s[k])
    ensures |r| == 0 || !sp(r[|r| - 1])
    decreases |s|
  {
    if |s| > 0 && sp(s[|s| - 1]) then TrimEnd(s[..|s| - 1], sp) else s
  }

  /** Number of leading characters of `s` that satisfy `sp`. */
  function Lead(s: string, sp: char -> bool): nat
    ensures Lead(s, sp) <= |s|
    decreases |s|
  {
    if |s| > 0 && sp(s[0]) then 1 + Lead(s[1..], sp) else 0
  }

  /** TrimStart drops exactly the leading run. */
  lemma {:induction false} LeadTrimStart(s: string, sp: char -> bool)
    ensures |TrimStart(s, sp)| == |s| - Lead(s, sp)
    decreases |s|
  {
    if |s| > 0 && sp(s[0]) {
      LeadTrimStart(s[1..], sp);
    }
  }

  /** `r` is `s` trimmed by `sp`: `s` is a leading run of characters
      satisfying `sp`, then `r`, then a trailing run satisfying `sp`, and
      `r` neither starts nor ends with such a character. */
  ghost predicate TrimmedBy(s: string, sp: char -> bool, r: string) {
    && Lead(s, sp) + |r| <= |s|
    && r == s[Lead(s, sp)..Lead(s, sp) + |r|]
    && (forall k :: 0 <= k < Lead(s, sp) ==> sp(s[k]))
    && (forall k :: Lead(s, sp) + |r| <= k < |s| ==> sp(s[k]))
    && (|r| == 0 || (!sp(r[0]) && !sp(r[|r| - 1])))
  }

  /** Dropping the leading run, then the trailing run, trims. */
  lemma TrimStartEnd(s: string, sp: char -> bool)
    ensures TrimmedBy(s, sp, TrimEnd(TrimStart(s, sp), sp))
  {
    LeadTrimStart(s, sp);
    var i := Lead(s, sp);
    var a := TrimStart(s, sp);
    var r := TrimEnd(a, sp);
    assert a == s[i..];
    assert r == s[i..i + |r|];
    forall k | i + |r| <= k < |s| ensures sp(s[k]) {
      var m := k - i;
      assert |r| <= m < |a|;
      assert sp(a[m]);
    }
  }

  /** `s.trim()`. */
  function Trim(s: string): (r: string)
    ensures TrimmedBy(s, IsSpace, r)
  {
    TrimStartEnd(s, IsSpace);
    TrimEnd(TrimStart(s, IsSpace), IsSpace)
  }

  /** The items built from the form's input lines: trimmed text, blank lines
      dropped, nothing done yet. */
  function FormItems(inputs: seq<string>): (r: seq<Item>)
    ensures |r| <= |inputs|
    ensures forall k :: 0 <= k < |r| ==> r[k].text != "" && !r[k].done
    decreases |inputs|
  {
    if |inputs| == 0 then []
    else
      var t := Trim(inputs[0]);
      if t == "" then FormItems(inputs[1..]) else [Item(t, false)] + FormItems(inputs[1..])
  }

  /** The items of consecutive input lines are the items of each part, in order. */
  lemma {:induction false} FormItemsConcat(a: seq<string>, b: seq<string>)
    ensures FormItems(a + b) == FormItems(a) + FormItems(b)
    decreases |a|
  {
    if |a| == 0 {
      assert a + b == b;
    } else {
      assert (a + b)[1..] == a[1..] + b;
      FormItemsConcat(a[1..], b);
    }
  }

  /** One input line gives one item, its trimmed text, exactly when it is not blank. */
  lemma FormItemsSingle(line: string)
    ensures FormItems([line]) == if Trim(line) == "" then [] else [Item(Trim(line), false)]
  {
  }

  /** The `done` flag the item at position `k` inherits from the checklist of
      the ceremony being edited. */
  function InheritedDone(existing: Option<Record>, k: nat): bool {
    existing.Some? && Planner.ChecklistOf(existing.value).Some?
    && k < |Planner.ChecklistOf(existing.value).value|
    && Planner.ChecklistOf(existing.value).value[k].done
  }

  /** Carries the `done` flags over by position. */
  function CarryOver(items: seq<Item>, existing: Option<Record>): (r: seq<Item>)
    ensures |r| == |items|
    ensures forall k :: 0 <= k < |r| ==> r[k].text == items[k].text
    ensures forall k :: 0 <= k < |r| ==> r[k].done == InheritedDone(existing, k)
  {
    seq(|items|, k requires 0 <= k < |items| => items[k].(done := InheritedDone(existing, k)))
  }

  /** The checklist handleFormSubmit attaches to a ceremony form.  `editId`
      is the id of the ceremony being edited, None when adding. */
  function SubmittedChecklist(inputs: seq<string>, ceremonies: seq<Record>, editId: Option<string>): (r: seq<Item>)
    ensures r == CarryOver(FormItems(inputs),
      if editId.Some? && Collection.FindIndex(ceremonies, editId.value) != -1
      then Some(ceremonies[Collection.FindIndex(ceremonies, editId.value)]) else None)
    ensures forall k :: 0 <= k < |r| ==> r[k].text != ""
    ensures editId.None? ==> forall k :: 0 <= k < |r| ==> !r[k].done
  {
    var items := FormItems(inputs);
    if editId.None? then items
    else
      var i := Collection.FindIndex(ceremonies, editId.value);
      if i == -1 then items
      else CarryOver(items, Some(ceremonies[i]))
  }

  /** Saving an edited ceremony whose form lists the same texts in the same
      order keeps every item's `done` flag. */
  lemma SameTextsKeepDone(items: seq<Item>, c: Record)
    requires Planner.ChecklistOf(c).Some?
    requires |items| == |Planner.ChecklistOf(c).value|
    requires forall k :: 0 <= k < |items| ==> items[k].text == Planner.ChecklistOf(c).value[k].text
    ensures CarryOver(items, Some(c)) == Planner.ChecklistOf(c).value
  {
  }
}
