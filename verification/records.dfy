/**
 * The planner keeps every ceremony, guest, vendor and task as a plain
 * JavaScript object.  A record is modelled as a map from field names to
 * field values, which is what the spread-merge of the edit operations and
 * the "missing field" checks of the statistics operate on.
 */
module Records {

  /** One entry of a ceremony's checklist. */
  datatype Item = Item(text: string, done: bool)

  /** The values a record field can hold. */
  datatype Value =
    | Null
    | Flag(b: bool)
    | Num(n: int)
    | Text(s: string)
    | Items(items: seq<Item>)

  type Record = map<string, Value>

  /** JavaScript truthiness of a field value. */
  predicate Truthy(v: Value) {
    match v
    case Null => false
    case Flag(b) => b
    case Num(n) => n != 0
    case Text(s) => s != ""
    case Items(_) => true
  }

  /** `r[f]` is truthy; an absent field reads as `undefined`, which is falsy. */
  predicate FieldTruthy(r: Record, f: string) {
    f in r && Truthy(r[f])
  }

  /** `parseInt(r[f]) || 0` for a numeric field: a number counts as itself,
      anything else (absent, text, flag, list) counts as 0. */
  function NumOr0(r: Record, f: string): int {
    if f in r && r[f].Num? then r[f].n else 0
  }

  /** `r[f] === s` for a string constant `s`. */
  predicate FieldIs(r: Record, f: string, s: string) {
    f in r && r[f] == Text(s)
  }

  /** `r.id === id`. */
  predicate HasId(r: Record, id: string) {
    FieldIs(r, "id", id)
  }

  /** `{ ...base, ...upd, id: id }`: fields of `upd` override those of `base`,
      and `id` overrides both. */
  function Spread(base: Record, upd: Record, id: string): (r: Record)
    ensures r.Keys == base.Keys + upd.Keys + {"id"}
    ensures HasId(r, id)
    ensures forall x :: HasId(r, x) <==> x == id
    ensures forall f :: f in upd && f != "id" ==> r[f] == upd[f]
    ensures forall f :: f in base && f !in upd && f != "id" ==> r[f] == base[f]
  {
    (base + upd)["id" := Text(id)]
  }
}
