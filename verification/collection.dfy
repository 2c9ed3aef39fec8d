/**
 * Id-keyed operations shared by the four planner collections (ceremonies,
 * guests, vendors, tasks): append with a fresh id, edit by spread-merge,
 * delete by filtering.  Every collection is an ordered sequence of records;
 * insertion order is display order.
 */
module Collection {
  import opened Records

  /** No record of `s` carries the id `id`. */
  predicate NoMatch(s: seq<Record>, id: string) {
    forall j :: 0 <= j < |s| ==> !HasId(s[j], id)
  }

  /** `j` is the position of the first record of `s` whose id is `id`. */
  ghost predicate IsFirstMatch(s: seq<Record>, j: int, id: string) {
    && 0 <= j < |s|
    && HasId(s[j], id)
    && forall k :: 0 <= k < j ==> !HasId(s[k], id)
  }

  /** No two records of `s` carry the same id. */
  ghost predicate UniqueIds(s: seq<Record>) {
    forall i, j, x :: 0 <= i < j < |s| && HasId(s[i], x) ==> !HasId(s[j], x)
  }

  /** `findIndex(r => r.id === id)`: the first position with that id, or -1. */
  function FindIndex(s: seq<Record>, id: string): (i: int)
    ensures -1 <= i < |s|
    ensures i == -1 <==> NoMatch(s, id)
    ensures i != -1 ==> IsFirstMatch(s, i, id)
  {
    if |s| == 0 then -1
    else if HasId(s[0], id) then 0
    else
      var k := FindIndex(s[1..], id);
      if k == -1 then -1 else k + 1
  }

  /** Two sequences that agree, position by position, on which records carry
      `id` have their first match in the same place. */
  lemma FindIndexSameIds(s: seq<Record>, t: seq<Record>, id: string)
    requires |s| == |t|
    requires forall j :: 0 <= j < |s| ==> (HasId(s[j], id) <==> HasId(t[j], id))
    ensures FindIndex(s, id) == FindIndex(t, id)
  {
  }

  /** Add: the record, with its id replaced by the freshly generated one, is
      pushed onto the end. */
  function Add(s: seq<Record>, rec: Record, id: string): (r: seq<Record>)
    ensures |r| == |s| + 1
    ensures r[..|s|] == s
    ensures r[|s|].Keys == rec.Keys + {"id"}
    ensures HasId(r[|s|], id)
    ensures forall f :: f in rec && f != "id" ==> r[|s|][f] == rec[f]
  {
    s + [rec["id" := Text(id)]]
  }

  /** A fresh id keeps the ids of a collection unique. */
  lemma AddKeepsUnique(s: seq<Record>, rec: Record, id: string)
    requires UniqueIds(s)
    requires NoMatch(s, id)
    ensures UniqueIds(Add(s, rec, id))
  {
  }

  /** Edit: the first record carrying `id` becomes the spread-merge of itself
      and `upd`, with its id forced back to `id`; every other position is
      untouched, and an unknown id leaves the collection as it is. */
  function Edit(s: seq<Record>, id: string, upd: Record): (r: seq<Record>)
    ensures |r| == |s|
    ensures NoMatch(s, id) ==> r == s
    ensures forall j :: 0 <= j < |s| ==>
      r[j] == (if IsFirstMatch(s, j, id) then Spread(s[j], upd, id) else s[j])
    ensures forall j, x :: 0 <= j < |s| ==> (HasId(r[j], x) <==> HasId(s[j], x))
  {
    var i := FindIndex(s, id);
    if i == -1 then s else s[i := Spread(s[i], upd, id)]
  }

  /** Edit never changes which ids are present, so uniqueness survives it. */
  lemma EditKeepsUnique(s: seq<Record>, id: string, upd: Record)
    requires UniqueIds(s)
    ensures UniqueIds(Edit(s, id, upd))
  {
  }

  /** Delete: `filter(r => r.id !== id)`. */
  function Delete(s: seq<Record>, id: string): (r: seq<Record>)
    ensures |r| <= |s|
    ensures forall x :: x in r <==> x in s && !HasId(x, id)
    decreases |s|
  {
    if |s| == 0 then []
    else if HasId(s[0], id) then Delete(s[1..], id)
    else [s[0]] + Delete(s[1..], id)
  }

  /** Deleting from a concatenation deletes from each part and keeps the
      parts in order, so the survivors keep their relative order. */
  lemma {:induction false} DeleteConcat(a: seq<Record>, b: seq<Record>, id: string)
    ensures Delete(a + b, id) == Delete(a, id) + Delete(b, id)
    decreases |a|
  {
    if |a| == 0 {
      assert a + b == b;
    } else {
      assert (a + b)[1..] == a[1..] + b;
      DeleteConcat(a[1..], b, id);
    }
  }

  /** Deleting an id that no record carries is a no-op. */
  lemma {:induction false} DeleteAbsent(s: seq<Record>, id: string)
    requires NoMatch(s, id)
    ensures Delete(s, id) == s
    decreases |s|
  {
    if |s| > 0 {
      DeleteAbsent(s[1..], id);
      assert [s[0]] + s[1..] == s;
    }
  }

  /** Deleting twice is deleting once. */
  lemma DeleteIdempotent(s: seq<Record>, id: string)
    ensures Delete(Delete(s, id), id) == Delete(s, id)
  {
  }

  /** Deleting keeps the ids of a collection unique. */
  lemma {:induction false} DeleteKeepsUnique(s: seq<Record>, id: string)
    requires UniqueIds(s)
    ensures UniqueIds(Delete(s, id))
    decreases |s|
  {
    if |s| > 0 {
      var t := s[1..];
      assert UniqueIds(t) by {
        forall i, j, x | 0 <= i < j < |t| && HasId(t[i], x) ensures !HasId(t[j], x) {
          assert t[i] == s[i + 1] && t[j] == s[j + 1];
        }
      }
      DeleteKeepsUnique(t, id);
      if !HasId(s[0], id) {
        var d := Delete(t, id);
        var r := [s[0]] + d;
        forall i, j, x | 0 <= i < j < |r| && HasId(r[i], x) ensures !HasId(r[j], x) {
          if i == 0 {
            assert r[j] == d[j - 1] && d[j - 1] in d;
            var k :| 0 <= k < |t| && t[k] == d[j - 1];
            assert s[k + 1] == r[j];
          } else {
            assert r[i] == d[i - 1] && r[j] == d[j - 1];
          }
        }
      }
    }
  }
}
