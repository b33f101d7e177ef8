/** JSON text as the printer lays it out. */
module JsonText {
  import opened Records
  import opened JsonString
  import opened Decimal

  /** A value to print. Object members are in key order; a `Leaf` is a value encoded by
      somebody else, as the text it appends. */
  datatype Json =
    | Null | Bool(b: bool) | Int(n: int) | Str(s: Bytes) | Leaf(text: Bytes)
    | Arr(items: seq<Json>) | Obj(members: seq<Member>)
  datatype Member = Member(key: Bytes, value: Json)

  // ---- printing ----

  function PrintInt(n: int): Bytes {
    if n < 0 then [45] + Digits(-n) else Digits(n)
  }

  function Print(j: Json): (text: Bytes)
    decreases j, 1, 0
  {
    match j
    case Null => [110, 117, 108, 108]
    case Bool(b) => if b then [116, 114, 117, 101] else [102, 97, 108, 115, 101]
    case Int(n) => PrintInt(n)
    case Str(s) => Quoted(s)
    case Leaf(text) => text
    case Arr(items) => [91] + PrintItems(items) + [93]
    case Obj(members) => [123] + PrintMembers(members) + [125]
  }

  /** Values separated by commas. */
  function PrintItems(items: seq<Json>): Bytes
    decreases items, 0, |items|
  {
    if items == [] then []
    else if |items| == 1 then Print(items[0])
    else Print(items[0]) + [44] + PrintItems(items[1..])
  }

  function PrintMember(m: Member): Bytes
    decreases m, 0, 0
  {
    Quoted(m.key) + [58] + Print(m.value)
  }

  function PrintMembers(members: seq<Member>): Bytes
    decreases members, 0, |members|
  {
    if members == [] then []
    else if |members| == 1 then PrintMember(members[0])
    else PrintMember(members[0]) + [44] + PrintMembers(members[1..])
  }
}
