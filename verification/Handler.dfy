/** Deriving handlers, preparing extra fields, and building the tree one record gets. */
module Handler {
  import opened Options
  import opened AttrTree

  const SOURCE_KEY := "source"

  // ---- extra fields ----

  /** Extra fields whose conversion is hoisted. */
  predicate Hoistable(fields: map<string, Value>, k: string) {
    k in fields && k != "" && fields[k].Static?
  }

  /** What prepareExtraFields leaves: the hoisted fields converted, and the others as
      attributes, each once, in whatever order the map gave them. */
  datatype Extra = Extra(hoisted: Tree, others: seq<Attr>)
  {
    ghost predicate Of(fields: map<string, Value>) {
      && (forall k :: k in hoisted <==> Hoistable(fields, k))
      && (forall k :: k in hoisted ==> StaticValue(fields[k]) == Some(hoisted[k]))
      && (forall a :: a in others <==> a.key in fields && a.value == fields[a.key] && !Hoistable(fields, a.key))
      && (forall i, j :: 0 <= i < j < |others| ==> others[i].key != others[j].key)
    }
  }

  /** PrepareExtraFields, in any iteration order. */
  method PrepareExtraFields(fields: map<string, Value>) returns (extra: Extra)
    ensures extra.Of(fields)
  {
    var hoisted: Tree := map[];
    var others: seq<Attr> := [];
    var left := fields.Keys;
    while left != {}
      invariant left <= fields.Keys
      invariant forall k :: k in hoisted <==> Hoistable(fields, k) && k !in left
      invariant forall k :: k in hoisted ==> StaticValue(fields[k]) == Some(hoisted[k])
      invariant forall a :: a in others <==>
        a.key in fields && a.value == fields[a.key] && !Hoistable(fields, a.key) && a.key !in left
      invariant forall i, j :: 0 <= i < j < |others| ==> others[i].key != others[j].key
      decreases |left|
    {
      var k :| k in left;
      left := left - {k};
      var v := fields[k];
      var converted := if k != "" then StaticValue(v) else None;
      if converted.Some? {
        hoisted := hoisted[k := converted.value];
      } else {
        assert forall a :: a in others ==> a.key != k;
        others := others + [Attr(k, v)];
      }
    }
    extra := Extra(hoisted, others);
  }

  // ---- the root ----

  /** Attributes added in order, each unless its key is taken. */
  function Yielding(t: Tree, attrs: seq<Attr>): Tree
    decreases |attrs|
  {
    if attrs == [] then t
    else Yielding(if attrs[0].key in t then t else Append(t, attrs[0]), attrs[1..])
  }

  /** The root of a record's tree. */
  function Root(tree: Tree, source: Option<Node>, ctx: seq<Attr>, extra: Extra): Tree {
    var withSource := if source.Some? && SOURCE_KEY !in tree then tree[SOURCE_KEY := source.value] else tree;
    Yielding(extra.hoisted + Yielding(withSource, ctx), extra.others)
  }

  lemma YieldingLast(t: Tree, attrs: seq<Attr>, i: nat)
    requires i < |attrs|
    ensures Yielding(t, attrs[..i + 1])
         == (var u := Yielding(t, attrs[..i]); if attrs[i].key in u then u else Append(u, attrs[i]))
  {
    assert attrs[..i + 1] == attrs[..i] + [attrs[i]];
    YieldingConcat(t, attrs[..i], [attrs[i]]);
    assert [attrs[i]][1..] == [];
  }

  lemma {:induction false} YieldingConcat(t: Tree, a: seq<Attr>, b: seq<Attr>)
    ensures Yielding(t, a + b) == Yielding(Yielding(t, a), b)
    decreases |a|
  {
    if a == [] {
      assert a + b == b;
    } else {
      assert (a + b)[0] == a[0] && (a + b)[1..] == a[1..] + b;
      YieldingConcat(if a[0].key in t then t else Append(t, a[0]), a[1..], b);
    }
  }

  method AddYielding(root: Dict, attrs: seq<Attr>)
    modifies root
    ensures root.entries == Yielding(old(root.entries), attrs)
  {
    var i := 0;
    assert attrs[..0] == [];
    while i < |attrs|
      invariant 0 <= i <= |attrs|
      invariant root.entries == Yielding(old(root.entries), attrs[..i])
    {
      YieldingLast(old(root.entries), attrs, i);
      if attrs[i].key !in root.entries {
        AppendAttr(root, attrs[i]);
      }
      i := i + 1;
    }
    assert attrs[..i] == attrs;
  }

  /** Hoisted extra fields, in any iteration order. */
  method AddHoisted(root: Dict, hoisted: Tree)
    modifies root
    ensures root.entries == hoisted + old(root.entries)
  {
    ghost var before := root.entries;
    var left := hoisted.Keys;
    while left != {}
      invariant left <= hoisted.Keys
      invariant forall k :: k in root.entries <==> k in before || (k in hoisted && k !in left)
      invariant forall k :: k in root.entries ==> root.entries[k] == if k in before then before[k] else hoisted[k]
      decreases |left|
    {
      var k :| k in left;
      left := left - {k};
      if k !in root.entries {
        root.entries := root.entries[k := hoisted[k]];
      }
    }
  }

  /** Build: the attributes of the With chain and the record, then source, context and extra
      fields, each yielding to what is there. */
  method Build(goas: seq<GroupOrAttrs>, ctx: seq<Attr>, rec: seq<Attr>, source: Option<Node>, extra: Extra) returns (root: Dict)
    requires AllOk(goas)
    ensures fresh(root)
    ensures root.entries == Root(AppendAll(map[], AsAttrs(goas, rec)), source, ctx, extra)
  {
    root := Walk(goas, rec);
    if source.Some? {
      if SOURCE_KEY !in root.entries {
        root.entries := root.entries[SOURCE_KEY := source.value];
      }
    }
    AddYielding(root, ctx);
    AddHoisted(root, extra.hoisted);
    AddYielding(root, extra.others);
  }

  // ---- who wins at the root ----

  /** What an attribute puts at its own key, if anything. */
  function NodeOf(a: Attr): Option<Node> {
    if a.key != "" && Keys(a) != {} then
      SameNode(map[], map[], a);
      Some(Append(map[], a)[a.key])
    else None
  }

  /** The first of a list to put something at a key. */
  function FirstAt(attrs: seq<Attr>, key: string): Option<Node> {
    if attrs == [] then None
    else if attrs[0].key == key && NodeOf(attrs[0]).Some? then NodeOf(attrs[0])
    else FirstAt(attrs[1..], key)
  }

  function At(t: Tree, key: string): Option<Node> {
    if key in t then Some(t[key]) else None
  }

  function Else(a: Option<Node>, b: Option<Node>): Option<Node> {
    if a.Some? then a else b
  }

  predicate Keyed(attrs: seq<Attr>) {
    forall a :: a in attrs ==> a.key != ""
  }

  lemma AppendAt(t: Tree, a: Attr, key: string)
    requires a.key != ""
    ensures At(Append(t, a), key) == if a.key == key && NodeOf(a).Some? then NodeOf(a) else At(t, key)
  {
    if Keys(a) != {} {
      SameNode(t, map[], a);
    } else {
      var v := Resolved(a.value);
      if v.Group? {
        GroupVanishes(t, a.key, v.members);
      }
    }
  }

  lemma {:induction false} YieldingAt(t: Tree, attrs: seq<Attr>, key: string)
    requires Keyed(attrs)
    ensures At(Yielding(t, attrs), key) == Else(At(t, key), FirstAt(attrs, key))
    decreases |attrs|
  {
    if attrs != [] {
      var a := attrs[0];
      assert a in attrs && forall b :: b in attrs[1..] ==> b in attrs;
      AppendAt(t, a, key);
      YieldingAt(if a.key in t then t else Append(t, a), attrs[1..], key);
    }
  }

  /** What the extra fields put at a key: there is one field of that name at most. */
  function ExtraAt(fields: map<string, Value>, key: string): Option<Node> {
    if key in fields then NodeOf(Attr(key, fields[key])) else None
  }

  lemma {:induction false} FirstIsOnly(attrs: seq<Attr>, a: Attr)
    requires a in attrs && forall b :: b in attrs && b.key == a.key ==> b == a
    ensures FirstAt(attrs, a.key) == NodeOf(a)
  {
    if attrs[0] != a {
      assert attrs[0] in attrs;
      assert forall b :: b in attrs[1..] ==> b in attrs;
      FirstIsOnly(attrs[1..], a);
    } else if NodeOf(a).None? && |attrs| > 1 {
      NoneAt(attrs[1..], a);
    }
  }

  lemma {:induction false} NoneAt(attrs: seq<Attr>, a: Attr)
    requires NodeOf(a).None? && forall b :: b in attrs && b.key == a.key ==> b == a
    ensures FirstAt(attrs, a.key) == None
  {
    if attrs != [] {
      assert attrs[0] in attrs;
      assert forall b :: b in attrs[1..] ==> b in attrs;
      NoneAt(attrs[1..], a);
    }
  }

  lemma {:induction false} NoneKeyed(attrs: seq<Attr>, key: string)
    requires forall b :: b in attrs ==> b.key != key
    ensures FirstAt(attrs, key) == None
  {
    if attrs != [] {
      assert attrs[0] in attrs;
      assert forall b :: b in attrs[1..] ==> b in attrs;
      NoneKeyed(attrs[1..], key);
    }
  }

  lemma ExtraFieldsAt(fields: map<string, Value>, extra: Extra, key: string)
    requires extra.Of(fields) && "" !in fields
    ensures Else(At(extra.hoisted, key), FirstAt(extra.others, key)) == ExtraAt(fields, key)
  {
    if Hoistable(fields, key) {
      HoistedAppends(map[], Attr(key, fields[key]));
    } else if key in fields {
      FirstIsOnly(extra.others, Attr(key, fields[key]));
    } else {
      NoneKeyed(extra.others, key);
    }
  }

  /** At the root the record's own attributes win over source, source over the context, the
      first extractor over later ones, and all of them over the extra fields, whatever order
      the extra fields came in. */
  lemma Precedence(tree: Tree, source: Option<Node>, ctx: seq<Attr>, fields: map<string, Value>, extra: Extra, key: string)
    requires extra.Of(fields) && "" !in fields && Keyed(ctx)
    ensures At(Root(tree, source, ctx, extra), key)
         == Else(At(tree, key),
                 Else(if key == SOURCE_KEY then source else None,
                      Else(FirstAt(ctx, key), ExtraAt(fields, key))))
  {
    var withSource := if source.Some? && SOURCE_KEY !in tree then tree[SOURCE_KEY := source.value] else tree;
    YieldingAt(withSource, ctx, key);
    YieldingAt(extra.hoisted + Yielding(withSource, ctx), extra.others, key);
    ExtraFieldsAt(fields, extra, key);
  }

  /** So the order of the extra fields' map does not show. */
  lemma AnyOrder(tree: Tree, source: Option<Node>, ctx: seq<Attr>, fields: map<string, Value>, a: Extra, b: Extra)
    requires a.Of(fields) && b.Of(fields) && "" !in fields && Keyed(ctx)
    ensures Root(tree, source, ctx, a) == Root(tree, source, ctx, b)
  {
    var x, y := Root(tree, source, ctx, a), Root(tree, source, ctx, b);
    forall key
      ensures At(x, key) == At(y, key)
    {
      Precedence(tree, source, ctx, fields, a, key);
      Precedence(tree, source, ctx, fields, b, key);
    }
    assert forall key :: key in x ==> At(x, key).Some? && At(y, key).Some?;
    assert forall key :: key in y ==> At(y, key).Some? && At(x, key).Some?;
    assert forall key :: key in x ==> At(x, key) == At(y, key);
  }

  lemma {:induction false} YieldingKeepsDense(t: Tree, attrs: seq<Attr>)
    requires DenseTree(t)
    ensures DenseTree(Yielding(t, attrs))
    decreases |attrs|
  {
    if attrs != [] {
      AppendKeepsDense(t, attrs[0]);
      YieldingKeepsDense(if attrs[0].key in t then t else Append(t, attrs[0]), attrs[1..]);
    }
  }

  /** No group of a finished tree is empty, wherever its attributes come from. */
  lemma RootIsDense(attrs: seq<Attr>, source: Option<Node>, ctx: seq<Attr>, fields: map<string, Value>, extra: Extra)
    requires extra.Of(fields) && (source.Some? ==> Dense(source.value))
    ensures DenseTree(Root(AppendAll(map[], attrs), source, ctx, extra))
  {
    var tree := AppendAll(map[], attrs);
    AppendAllKeepsDense(map[], attrs);
    var withSource := if source.Some? && SOURCE_KEY !in tree then tree[SOURCE_KEY := source.value] else tree;
    YieldingKeepsDense(withSource, ctx);
    assert forall k :: k in extra.hoisted ==> extra.hoisted[k].Leaf?;
    YieldingKeepsDense(extra.hoisted + Yielding(withSource, ctx), extra.others);
  }

  // ---- deriving handlers ----

  /** One call on a logger. */
  datatype With = WithAttrs(attrs: seq<Attr>) | WithGroup(name: string)

  /** What a chain of calls and a record say, as one list of attributes. */
  function ChainAttrs(chain: seq<With>, rec: seq<Attr>): seq<Attr> {
    if chain == [] then rec
    else
      match chain[0]
      case WithAttrs(attrs) => attrs + ChainAttrs(chain[1..], rec)
      case WithGroup(name) => [Attr(name, Group(ChainAttrs(chain[1..], rec)))]
  }

  /** What the handler keeps of one call, and of a chain. */
  function KeptOne(call: With): seq<GroupOrAttrs> {
    match call
    case WithAttrs(attrs) => if attrs == [] then [] else [Attrs(attrs, Some(Hoisted(attrs)))]
    case WithGroup(name) => if name == "" then [] else [OpenGroup(name)]
  }

  function Kept(chain: seq<With>): seq<GroupOrAttrs> {
    if chain == [] then [] else KeptOne(chain[0]) + Kept(chain[1..])
  }

  lemma {:induction false} KeptLast(chain: seq<With>, call: With)
    ensures Kept(chain + [call]) == Kept(chain) + KeptOne(call)
  {
    if chain == [] {
      assert [call][1..] == [];
    } else {
      assert (chain + [call])[1..] == chain[1..] + [call];
      KeptLast(chain[1..], call);
    }
  }

  lemma {:induction false} KeptOk(chain: seq<With>)
    ensures AllOk(Kept(chain))
  {
    if chain != [] {
      KeptOk(chain[1..]);
    }
  }

  /** A group attribute at the end of a list, empty key or not. */
  lemma GroupReads(t: Tree, name: string, attrs: seq<Attr>)
    ensures AppendAll(t, [Attr(name, Group(attrs))]) == Append(t, Attr(name, Group(attrs)))
    ensures name == "" ==> Append(t, Attr(name, Group(attrs))) == AppendAll(t, attrs)
  {
    assert [Attr(name, Group(attrs))][1..] == [];
  }

  /** What is kept reads as the chain: a WithGroup is one Group attribute holding all that
      follows it. */
  lemma {:induction false} ChainReads(t: Tree, chain: seq<With>, rec: seq<Attr>)
    ensures AppendAll(t, AsAttrs(Kept(chain), rec)) == AppendAll(t, ChainAttrs(chain, rec))
    decreases |chain|
  {
    if chain != [] {
      var kept, rest := AsAttrs(Kept(chain[1..]), rec), ChainAttrs(chain[1..], rec);
      match chain[0]
      case WithAttrs(attrs) =>
        if attrs == [] {
          assert [] + rest == rest && [] + Kept(chain[1..]) == Kept(chain[1..]);
          ChainReads(t, chain[1..], rec);
        } else {
          assert Kept(chain)[1..] == Kept(chain[1..]);
          AppendAllConcat(t, attrs, kept);
          AppendAllConcat(t, attrs, rest);
          ChainReads(AppendAll(t, attrs), chain[1..], rec);
        }
      case WithGroup(name) =>
        GroupReads(t, name, rest);
        if name == "" {
          assert [] + Kept(chain[1..]) == Kept(chain[1..]);
          ChainReads(t, chain[1..], rec);
        } else {
          assert Kept(chain)[1..] == Kept(chain[1..]);
          GroupReads(t, name, kept);
          GroupAppends(t, name, rest);
          GroupAppends(t, name, kept);
          ChainReads(map[], chain[1..], rec);
        }
    }
  }

  class Handler {
    var goas: array<GroupOrAttrs>

    constructor (goas: array<GroupOrAttrs>)
      ensures this.goas == goas
    {
      this.goas := goas;
    }

    /** What this handler was derived by. */
    ghost predicate DerivedBy(chain: seq<With>)
      reads this, goas
    {
      goas[..] == Kept(chain)
    }

    /** The derived handler's list is an array of its own; this handler's is not written. */
    method WithGroupOrAttrs(goa: GroupOrAttrs) returns (h: Handler)
      ensures fresh(h) && fresh(h.goas) && h.goas[..] == goas[..] + [goa]
    {
      var n := goas.Length;
      var own := new GroupOrAttrs[n + 1](i requires 0 <= i <= n reads this, goas => if i < goas.Length then goas[i] else goa);
      h := new Handler(own);
    }

    method With(call: With, ghost chain: seq<With>) returns (h: Handler)
      requires DerivedBy(chain)
      ensures h.DerivedBy(chain + [call]) && (h == this || (fresh(h) && fresh(h.goas)))
    {
      KeptLast(chain, call);
      match call
      case WithAttrs(attrs) =>
        if attrs == [] {
          return this;
        }
        var pre := PreResolve(attrs);
        h := WithGroupOrAttrs(Attrs(attrs, Some(pre)));
      case WithGroup(name) =>
        if name == "" {
          return this;
        }
        h := WithGroupOrAttrs(OpenGroup(name));
    }

    /** The attributes of one record, through whatever chain derived this handler. */
    method Tree(ghost chain: seq<With>, rec: seq<Attr>, ctx: seq<Attr>, source: Option<Node>, extra: Extra) returns (root: Dict)
      requires DerivedBy(chain)
      ensures fresh(root)
      ensures root.entries == Root(AppendAll(map[], ChainAttrs(chain, rec)), source, ctx, extra)
    {
      KeptOk(chain);
      ChainReads(map[], chain, rec);
      root := Build(goas[..], ctx, rec, source, extra);
    }
  }
}
