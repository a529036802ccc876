/** JSON values and records, as `src/storage/file_store.ts` keeps them. */
module Values {

  datatype Option<+T> = None | Some(value: T)

  /** What reading a record field can give. `Undefined` is the answer for an absent field. */
  datatype Value = Undefined | Null | Bool(b: bool) | Num(n: int) | Str(s: string)

  /** Field names. Those the store and its repositories read by name are listed. */
  datatype Field =
    | Id | CreatedAt | UpdatedAt
    | Openid | Unionid | Phone | Nickname | AvatarUrl | UserId | Provider | SessionKey
    | CommunityName | DetailAddress | CustomerPhone | AuthCode | CategoryId | Status | IsFeatured | SortOrder
    | OrderNo | TotalAmount | Version | Remark | FieldName | OldValue | NewValue | Operator
    | ProductId | PropertyId | Stock | WelfareCodeId | Code | Name | Type | TotalCount | UsedCount | ValidFrom | ValidTo
    | Other(name: string)

  /** A stored record. A field that was set to `undefined` is the same as an absent field:
      reading it gives the same answer and `JSON.stringify` drops it. */
  type Row = map<Field, Value>

  function Get(r: Row, field: Field): Value {
    if field in r then r[field] else Undefined
  }

  /** JavaScript truthiness, used by every `||` and `if (query.x)` of the source. */
  predicate Truthy(v: Value) {
    match v
    case Undefined => false
    case Null => false
    case Bool(b) => b
    case Num(n) => n != 0
    case Str(s) => s != ""
  }

  /** `a || b` */
  function Or(a: Value, b: Value): Value {
    if Truthy(a) then a else b
  }

  /** `a ?? b` */
  function Coalesce(a: Value, b: Value): Value {
    if a.Undefined? || a.Null? then b else a
  }

  /** `{ ...r, ...u }`: every field reads as in `u` where `u` has it, and as in `r` elsewhere. */
  function Spread(r: Row, u: Row): (res: Row)
    ensures forall f :: Get(res, f) == if f in u then u[f] else Get(r, f)
  {
    map f | f in r.Keys + u.Keys && (if f in u then u[f] else r[f]) != Undefined
      :: if f in u then u[f] else r[f]
  }

  /** `{ ...r, a: r.a ?? x, b: r.b ?? y }` */
  function Defaulted(r: Row, defaults: seq<(Field, Value)>): (res: Row)
    ensures forall f :: (forall i :: 0 <= i < |defaults| ==> defaults[i].0 != f) ==> Get(res, f) == Get(r, f)
  {
    if defaults == [] then r
    else
      var n := |defaults| - 1;
      Spread(Defaulted(r, defaults[..n]), map[defaults[n].0 := Coalesce(Get(r, defaults[n].0), defaults[n].1)])
  }

  /** A numeric field with `|| 0` */
  function NumOr0(v: Value): int {
    if v.Num? then v.n else 0
  }

  function IdOf(r: Row): int {
    NumOr0(Get(r, Id))
  }

  /** A string field with `|| ''` */
  function StrOrEmpty(v: Value): string {
    if v.Str? then v.s else ""
  }

  /** `a <= b` on strings, by character codes */
  predicate StrLeq(a: string, b: string) {
    a == "" || (b != "" && (a[0] < b[0] || (a[0] == b[0] && StrLeq(a[1..], b[1..]))))
  }
}
