/** How a logger's With chain, a record, its source, its context and the handler's extra
    fields become one tree of attributes, with no ReplaceAttr installed. */
module AttrTree {
  import opened Options

  // ---- slog values ----

  /** What converts the same way every time. */
  datatype Scalar =
    | Text(s: string)
    | Int64(i: int)
    | Uint64(u: nat)
    | Float64(f: real)
    | Bool(b: bool)
    | Duration(ns: int)
    | Time(wall: int, monotonic: Option<int>)

  /** `Valuer` is a LogValuer and what it answers for this record. The zero Value is `Nil`. */
  datatype Value =
    | Static(scalar: Scalar)
    | Group(members: seq<Attr>)
    | Valuer(answer: Value)
    | Error(message: string, typeName: string)
    | Other(id: int)
    | Nil

  datatype Attr = Attr(key: string, value: Value)

  const MAX_LOG_VALUES := 100

  /** slog's Resolve gives up after so many calls. */
  function Resolve(v: Value, calls: nat): (r: Value)
    ensures !r.Valuer? && (r == v || r < v || r.Error?)
    decreases calls
  {
    if calls == 0 then Error("LogValue called too many times", "*errors.errorString")
    else if v.Valuer? then Resolve(v.answer, calls - 1)
    else v
  }

  function Resolved(v: Value): (r: Value)
    ensures !r.Valuer? && (r == v || r < v || r.Error?)
    ensures !v.Valuer? ==> r == v
  {
    Resolve(v, MAX_LOG_VALUES)
  }

  // ---- the tree ----

  /** `Span` is a duration's text, `Instant` a time without its monotonic reading. */
  datatype Leaf = Str(s: string) | Int(i: int) | Uint(u: nat) | Float(f: real) | Boolean(b: bool)
                | Span(ns: int) | Instant(wall: int) | Opaque(id: int) | Null

  datatype Node = Leaf(leaf: Leaf) | Sub(tree: Tree)

  type Tree = map<string, Node>

  function StaticValue(v: Value): Option<Node> {
    if !v.Static? then None
    else
      Some(Leaf(match v.scalar
                case Text(s) => Str(s)
                case Int64(i) => Int(i)
                case Uint64(u) => Uint(u)
                case Float64(f) => Float(f)
                case Bool(b) => Boolean(b)
                case Duration(ns) => Span(ns)
                case Time(wall, _) => Instant(wall)))
  }

  /** A resolved value that is no group. */
  function Converted(v: Value): Node
    requires !v.Group? && !v.Valuer?
  {
    match StaticValue(v)
    case Some(n) => n
    case None =>
      if v.Error? then Sub(map["message" := Leaf(Str(v.message)), "type" := Leaf(Str(v.typeName))])
      else if v.Other? then Leaf(Opaque(v.id))
      else Leaf(Null)
  }

  /** The tree after one more attribute. */
  function Append(t: Tree, a: Attr): Tree
    decreases a
  {
    var v := Resolved(a.value);
    if v.Group? then
      if v.members == [] then t
      else if a.key == "" then AppendAll(t, v.members)
      else
        var child := AppendAll(map[], v.members);
        if child == map[] then t else t[a.key := Sub(child)]
    else if a.key == "" then t
    else t[a.key := Converted(v)]
  }

  function AppendAll(t: Tree, attrs: seq<Attr>): Tree
    decreases attrs
  {
    if attrs == [] then t else AppendAll(Append(t, attrs[0]), attrs[1..])
  }

  lemma {:induction false} AppendAllConcat(t: Tree, a: seq<Attr>, b: seq<Attr>)
    ensures AppendAll(t, a + b) == AppendAll(AppendAll(t, a), b)
    decreases |a|
  {
    if a == [] {
      assert a + b == b;
    } else {
      assert (a + b)[0] == a[0] && (a + b)[1..] == a[1..] + b;
      AppendAllConcat(Append(t, a[0]), a[1..], b);
    }
  }

  lemma AppendAllLast(t: Tree, attrs: seq<Attr>, i: nat)
    requires i < |attrs|
    ensures AppendAll(t, attrs[..i + 1]) == Append(AppendAll(t, attrs[..i]), attrs[i])
  {
    assert attrs[..i + 1] == attrs[..i] + [attrs[i]];
    AppendAllConcat(t, attrs[..i], [attrs[i]]);
    assert [attrs[i]][1..] == [];
  }

  // ---- what a value becomes ----

  /** A value with a key stands in the tree under that key and as itself, whatever its kind; an
      error shows its message and its type. */
  lemma KindsShow(t: Tree, key: string, v: Value)
    requires key != "" && !v.Group? && !v.Valuer?
    ensures Append(t, Attr(key, v)).Keys == t.Keys + {key}
    ensures forall k :: k in t && k != key ==> Append(t, Attr(key, v))[k] == t[k]
    ensures var n := Append(t, Attr(key, v))[key];
      match v
      case Static(Text(s)) => n == Leaf(Str(s))
      case Static(Int64(i)) => n == Leaf(Int(i))
      case Static(Uint64(u)) => n == Leaf(Uint(u))
      case Static(Float64(f)) => n == Leaf(Float(f))
      case Static(Bool(b)) => n == Leaf(Boolean(b))
      case Static(Duration(ns)) => n == Leaf(Span(ns))
      case Static(Time(wall, _)) => n == Leaf(Instant(wall))
      case Error(message, typeName) =>
        n.Sub? && n.tree == map["message" := Leaf(Str(message)), "type" := Leaf(Str(typeName))]
      case Other(id) => n == Leaf(Opaque(id))
      case Nil => n == Leaf(Null)
  {
    assert Append(t, Attr(key, v)) == t[key := Converted(v)];
  }

  /** Two values look the same in a tree only if they are, or are times that differ in nothing
      but the monotonic clock. */
  lemma LooksTheSameIff(t: Tree, key: string, v: Value, w: Value)
    requires key != "" && !v.Group? && !v.Valuer? && !w.Group? && !w.Valuer?
    ensures Append(t, Attr(key, v)) == Append(t, Attr(key, w))
      <==> v == w || (v.Static? && w.Static? && v.scalar.Time? && w.scalar.Time? && v.scalar.wall == w.scalar.wall)
  {
    KindsShow(t, key, v);
    KindsShow(t, key, w);
    if v.Error? && w.Error? && Append(t, Attr(key, v)) == Append(t, Attr(key, w)) {
      var n := Append(t, Attr(key, v))[key].tree;
      assert n["message"] == Leaf(Str(v.message)) == Leaf(Str(w.message));
      assert n["type"] == Leaf(Str(v.typeName)) == Leaf(Str(w.typeName));
    }
  }

  /** A value behind so many LogValuers. */
  function Behind(v: Value, valuers: nat): Value {
    if valuers == 0 then v else Valuer(Behind(v, valuers - 1))
  }

  lemma {:induction false} ResolveBehind(v: Value, valuers: nat, calls: nat)
    requires !v.Valuer?
    ensures Resolve(Behind(v, valuers), calls)
      == if valuers < calls then v else Error("LogValue called too many times", "*errors.errorString")
    decreases valuers
  {
    if valuers > 0 && calls > 0 {
      ResolveBehind(v, valuers - 1, calls - 1);
    }
  }

  /** Fewer than a hundred LogValuers are seen through; more are reported in place of the value. */
  lemma ValuersSeenThrough(t: Tree, key: string, v: Value, valuers: nat)
    requires !v.Valuer?
    ensures Append(t, Attr(key, Behind(v, valuers)))
      == if valuers < 100 then Append(t, Attr(key, v))
         else if key == "" then t
         else t[key := Sub(map["message" := Leaf(Str("LogValue called too many times")),
                               "type" := Leaf(Str("*errors.errorString"))])]
  {
    ResolveBehind(v, valuers, MAX_LOG_VALUES);
    ResolveBehind(v, 0, MAX_LOG_VALUES);
  }

  // ---- what the handler accumulates ----

  datatype PreAttr = PreAttr(attr: Attr, value: Option<Node>)

  /** One WithGroup or one WithAttrs call. */
  datatype GroupOrAttrs = OpenGroup(name: string) | Attrs(attrs: seq<Attr>, pre: Option<seq<PreAttr>>)
  {
    /** What is hoisted is the attribute's own conversion. */
    predicate Ok() {
      match this
      case OpenGroup(name) => name != ""
      case Attrs(attrs, pre) => pre.Some? ==> pre.value == Hoisted(attrs)
    }
  }

  function Hoist(a: Attr): PreAttr {
    PreAttr(a, if a.key == "" then None else StaticValue(a.value))
  }

  function Hoisted(attrs: seq<Attr>): (pre: seq<PreAttr>)
    ensures |pre| == |attrs|
  {
    seq(|attrs|, i requires 0 <= i < |attrs| => Hoist(attrs[i]))
  }

  predicate AllOk(goas: seq<GroupOrAttrs>) {
    forall g :: g in goas ==> g.Ok()
  }

  /** A hoisted attribute goes in as appending it would have put it. */
  lemma HoistedAppends(t: Tree, a: Attr)
    requires Hoist(a).value.Some?
    ensures Append(t, a) == t[a.key := Hoist(a).value.value]
  {
  }

  /** PreResolve: every attribute is kept, those with a key and a static kind along with the
      node that appending them puts at their key, into whatever tree. */
  method PreResolve(attrs: seq<Attr>) returns (pre: seq<PreAttr>)
    ensures pre == Hoisted(attrs)
    ensures forall i :: 0 <= i < |pre| ==>
      && pre[i].attr == attrs[i]
      && (pre[i].value.Some? <==> attrs[i].key != "" && attrs[i].value.Static?)
      && (pre[i].value.Some? ==> forall t :: Append(t, attrs[i]) == t[attrs[i].key := pre[i].value.value])
  {
    pre := [];
    var i := 0;
    while i < |attrs|
      invariant 0 <= i == |pre| <= |attrs|
      invariant forall k :: 0 <= k < i ==> pre[k] == Hoist(attrs[k])
    {
      var a := attrs[i];
      var hoisted: Option<Node> := None;
      if a.key != "" {
        hoisted := StaticValue(a.value);
      }
      pre := pre + [PreAttr(a, hoisted)];
      i := i + 1;
    }
    forall i, t | 0 <= i < |pre| && pre[i].value.Some?
      ensures Append(t, attrs[i]) == t[attrs[i].key := pre[i].value.value]
    {
      HoistedAppends(t, attrs[i]);
    }
  }

  // ---- building the tree in place ----

  /** A map being filled. */
  class Dict {
    var entries: Tree

    constructor ()
      ensures entries == map[]
    {
      entries := map[];
    }
  }

  method AppendAttr(dst: Dict, a: Attr)
    modifies dst
    ensures dst.entries == Append(old(dst.entries), a)
    decreases a, 1
  {
    var v := Resolved(a.value);
    if a.key == "" && v.Nil? {
      return;
    }
    if v.Group? {
      if |v.members| == 0 {
        return;
      }
      if a.key == "" {
        AppendMembers(dst, v.members);
        return;
      }
      var child := new Dict();
      AppendMembers(child, v.members);
      if child.entries == map[] {
        return;
      }
      dst.entries := dst.entries[a.key := Sub(child.entries)];
      return;
    }
    if a.key == "" {
      return;
    }
    dst.entries := dst.entries[a.key := Converted(v)];
  }

  method AppendMembers(dst: Dict, attrs: seq<Attr>)
    modifies dst
    ensures dst.entries == AppendAll(old(dst.entries), attrs)
    decreases attrs, 0
  {
    var i := 0;
    assert attrs[..0] == [];
    while i < |attrs|
      invariant 0 <= i <= |attrs|
      invariant dst.entries == AppendAll(old(dst.entries), attrs[..i])
    {
      AppendAllLast(old(dst.entries), attrs, i);
      AppendAttr(dst, attrs[i]);
      i := i + 1;
    }
    assert attrs[..i] == attrs;
  }

  /** One WithAttrs call, with or without its attributes hoisted: the tree is the same. */
  method AppendGroupOrAttrs(dst: Dict, goa: GroupOrAttrs)
    requires goa.Attrs? && goa.Ok()
    modifies dst
    ensures dst.entries == AppendAll(old(dst.entries), goa.attrs)
  {
    if goa.pre == None {
      AppendMembers(dst, goa.attrs);
      return;
    }
    var pre := goa.pre.value;
    var i := 0;
    assert goa.attrs[..0] == [];
    while i < |pre|
      invariant 0 <= i <= |pre|
      invariant dst.entries == AppendAll(old(dst.entries), goa.attrs[..i])
    {
      var p := pre[i];
      AppendAllLast(old(dst.entries), goa.attrs, i);
      if p.value.Some? {
        HoistedAppends(dst.entries, p.attr);
        dst.entries := dst.entries[p.attr.key := p.value.value];
      } else {
        AppendAttr(dst, p.attr);
      }
      i := i + 1;
    }
    assert goa.attrs[..i] == goa.attrs;
  }

  /** The same calls and record as one list of attributes: a WithGroup is a Group attribute
      holding everything after it. */
  function AsAttrs(goas: seq<GroupOrAttrs>, rec: seq<Attr>): seq<Attr> {
    if goas == [] then rec
    else
      match goas[0]
      case OpenGroup(name) => [Attr(name, Group(AsAttrs(goas[1..], rec)))]
      case Attrs(attrs, _) => attrs + AsAttrs(goas[1..], rec)
  }

  /** Walk: each open group is built in a map of its own and attached only if something
      landed in it. */
  method Walk(goas: seq<GroupOrAttrs>, rec: seq<Attr>) returns (dst: Dict)
    requires AllOk(goas)
    ensures fresh(dst) && dst.entries == AppendAll(map[], AsAttrs(goas, rec))
    decreases |goas|
  {
    dst := new Dict();
    var i := 0;
    while i < |goas|
      invariant 0 <= i <= |goas| && fresh(dst)
      invariant AppendAll(dst.entries, AsAttrs(goas[i..], rec)) == AppendAll(map[], AsAttrs(goas, rec))
    {
      var goa := goas[i];
      assert goa in goas;
      assert goas[i..][0] == goa && goas[i..][1..] == goas[i + 1..];
      if goa.OpenGroup? {
        var child := Walk(goas[i + 1..], rec);
        GroupAppends(dst.entries, goa.name, AsAttrs(goas[i + 1..], rec));
        if child.entries != map[] {
          dst.entries := dst.entries[goa.name := Sub(child.entries)];
        }
        return;
      }
      AppendAllConcat(dst.entries, goa.attrs, AsAttrs(goas[i + 1..], rec));
      AppendGroupOrAttrs(dst, goa);
      i := i + 1;
    }
    AppendMembers(dst, rec);
  }

  /** A group attribute at the end of a list. */
  lemma GroupAppends(t: Tree, name: string, attrs: seq<Attr>)
    requires name != ""
    ensures AppendAll(t, [Attr(name, Group(attrs))])
         == (var child := AppendAll(map[], attrs); if child == map[] then t else t[name := Sub(child)])
  {
    var a := Attr(name, Group(attrs));
    assert [a][1..] == [];
    assert AppendAll(t, [a]) == Append(t, a);
  }

  // ---- no group is empty ----

  predicate Dense(n: Node) {
    n.Sub? ==> n.tree != map[] && forall k :: k in n.tree ==> Dense(n.tree[k])
  }

  predicate DenseTree(t: Tree) {
    forall k :: k in t ==> Dense(t[k])
  }

  /** Whatever is appended, no group in the tree is empty. */
  lemma {:induction false} AppendKeepsDense(t: Tree, a: Attr)
    requires DenseTree(t)
    ensures DenseTree(Append(t, a))
    decreases a
  {
    var v := Resolved(a.value);
    if v.Group? {
      if v.members != [] {
        if a.key == "" {
          AppendAllKeepsDense(t, v.members);
        } else {
          AppendAllKeepsDense(map[], v.members);
        }
      }
    } else if a.key != "" {
      ConvertedIsDense(v);
    }
  }

  lemma ConvertedIsDense(v: Value)
    requires !v.Group? && !v.Valuer?
    ensures Dense(Converted(v))
  {
    if v.Error? {
      assert "message" in Converted(v).tree;
    }
  }

  lemma {:induction false} AppendAllKeepsDense(t: Tree, attrs: seq<Attr>)
    requires DenseTree(t)
    ensures DenseTree(AppendAll(t, attrs))
    decreases attrs
  {
    if attrs != [] {
      AppendKeepsDense(t, attrs[0]);
      AppendAllKeepsDense(Append(t, attrs[0]), attrs[1..]);
    }
  }

  // ---- which keys an attribute contributes ----

  /** The keys an attribute puts into the map it is appended to: none if it is elided. */
  function Keys(a: Attr): set<string>
    decreases a
  {
    var v := Resolved(a.value);
    if v.Group? then
      var inner := KeysOf(v.members);
      if a.key == "" then inner else if inner == {} then {} else {a.key}
    else if a.key == "" then {}
    else {a.key}
  }

  function KeysOf(attrs: seq<Attr>): set<string>
    decreases attrs
  {
    if attrs == [] then {} else Keys(attrs[0]) + KeysOf(attrs[1..])
  }

  lemma {:induction false} AppendKeys(t: Tree, a: Attr)
    ensures Append(t, a).Keys == t.Keys + Keys(a)
    decreases a
  {
    var v := Resolved(a.value);
    if v.Group? && v.members != [] {
      if a.key == "" {
        AppendAllKeys(t, v.members);
      } else {
        AppendAllKeys(map[], v.members);
        assert AppendAll(map[], v.members) == map[] <==> KeysOf(v.members) == {};
      }
    }
  }

  lemma {:induction false} AppendAllKeys(t: Tree, attrs: seq<Attr>)
    ensures AppendAll(t, attrs).Keys == t.Keys + KeysOf(attrs)
    decreases attrs
  {
    if attrs != [] {
      AppendKeys(t, attrs[0]);
      AppendAllKeys(Append(t, attrs[0]), attrs[1..]);
    }
  }

  /** A group whose members all vanish vanishes too, however deeply they are nested. */
  lemma GroupVanishes(t: Tree, name: string, attrs: seq<Attr>)
    requires name != ""
    ensures Append(t, Attr(name, Group(attrs))) == t || name in Append(t, Attr(name, Group(attrs)))
    ensures KeysOf(attrs) == {} ==> Append(t, Attr(name, Group(attrs))) == t
    ensures KeysOf(attrs) != {} ==> Append(t, Attr(name, Group(attrs))) == t[name := Sub(AppendAll(map[], attrs))]
  {
    AppendAllKeys(map[], attrs);
  }

  /** Last one wins: within one map a key holds what the last attribute contributing it put
      there. */
  lemma LastWins(t: Tree, attrs: seq<Attr>, i: nat)
    requires i < |attrs| && attrs[i].key != "" && Keys(attrs[i]) != {}
    requires attrs[i].key !in KeysOf(attrs[i + 1..])
    ensures attrs[i].key in AppendAll(t, attrs) && attrs[i].key in Append(map[], attrs[i])
    ensures AppendAll(t, attrs)[attrs[i].key] == Append(map[], attrs[i])[attrs[i].key]
  {
    var key, rest := attrs[i].key, attrs[i + 1..];
    assert attrs == attrs[..i + 1] + rest;
    AppendAllConcat(t, attrs[..i + 1], rest);
    AppendAllLast(t, attrs, i);
    var mid := AppendAll(t, attrs[..i]);
    AppendKeys(mid, attrs[i]);
    AppendKeys(map[], attrs[i]);
    OthersStay(Append(mid, attrs[i]), rest, key);
    SameNode(mid, map[], attrs[i]);
  }

  /** What a keyed attribute puts at its key does not depend on what was there. */
  lemma SameNode(t: Tree, u: Tree, a: Attr)
    requires a.key != "" && Keys(a) != {}
    ensures a.key in Append(u, a)
    ensures Append(t, a) == t[a.key := Append(u, a)[a.key]]
  {
    var v := Resolved(a.value);
    if v.Group? {
      AppendAllKeys(map[], v.members);
    }
  }

  /** A key nothing contributes keeps its node. */
  lemma {:induction false} OthersStay(t: Tree, attrs: seq<Attr>, key: string)
    requires key !in KeysOf(attrs) && key in t
    ensures key in AppendAll(t, attrs) && AppendAll(t, attrs)[key] == t[key]
    decreases attrs
  {
    if attrs != [] {
      OtherStays(t, attrs[0], key);
      OthersStay(Append(t, attrs[0]), attrs[1..], key);
    }
  }

  lemma {:induction false} OtherStays(t: Tree, a: Attr, key: string)
    requires key !in Keys(a) && key in t
    ensures key in Append(t, a) && Append(t, a)[key] == t[key]
    decreases a
  {
    var v := Resolved(a.value);
    if v.Group? {
      if a.key == "" {
        OthersStay(t, v.members, key);
      } else {
        AppendAllKeys(map[], v.members);
      }
    }
  }
}
