/** writeMapField and writeField (internal/emit/composition.go): a key over
    optional children never renders as a bare `key:`, which YAML reads as null. */
module MapField {
  import opened Seqs
  import opened Template
  import opened Yaml

  /** One resolved field: a scalar with an optional guard (status says whether
      it reads another resource's observed status), or, when isMap, a
      map whose entries are fields themselves. */
  datatype Field = Field(path: string, rhs: Rhs, guard: Option<Expr>, status: bool, isMap: bool, entries: seq<Field>)

  type Fields = seq<Field>

  // ----- which fields are there -----

  predicate Fires(f: Field, ctx: Context) {
    f.isMap || f.guard.None? || Holds(f.guard.value, ctx)
  }

  /** Guards decide, a scalar that fires can be rendered, only scalars are
      guarded, and a map is planned from its entries, so it has some. */
  predicate Safe(f: Field, ctx: Context)
    decreases f
  {
    if f.isMap then f.guard.None? && f.entries != [] && forall e :: e in f.entries ==> Safe(e, ctx)
    else (f.guard.Some? ==> Decides(f.guard.value, ctx)) && (Fires(f, ctx) ==> EvalRhs(f.rhs, ctx).Ok?)
  }

  predicate AllSafe(fs: Fields, ctx: Context) {
    forall f :: f in fs ==> Safe(f, ctx)
  }

  /** The entry a field stands for: a scalar that fires, and a map always, with
      exactly its entries that fire. */
  function FieldTree(f: Field, ctx: Context): seq<Entry>
    requires Safe(f, ctx)
    decreases f, 0
  {
    if f.isMap then [Entry(f.path, Mapping(FieldsTree(f.entries, ctx)))]
    else if Fires(f, ctx) then [Entry(f.path, Leaf(EvalRhs(f.rhs, ctx).value))]
    else []
  }

  function FieldsTree(fs: Fields, ctx: Context): seq<Entry>
    requires AllSafe(fs, ctx)
    decreases fs, 1
  {
    if fs == [] then [] else FieldTree(fs[0], ctx) + FieldsTree(fs[1..], ctx)
  }

  // ----- the template text -----

  predicate AnyPlain(fs: Fields) {
    exists f :: f in fs && f.guard.None?
  }

  function GuardsOf(fs: Fields): (gs: seq<Expr>)
    ensures forall g :: g in gs <==> exists f :: f in fs && f.guard == Some(g)
  {
    if fs == [] then []
    else
      var f := fs[|fs| - 1];
      assert fs == fs[..|fs| - 1] + [f];
      GuardsOf(fs[..|fs| - 1]) + (if f.guard.Some? then [f.guard.value] else [])
  }

  function FieldBlocks(col: nat, f: Field): seq<Block>
    decreases f, 0
  {
    if f.isMap then
      var open := [Plain(KeyLine(col, f.path))] + FieldsBlocks(col + 2, f.entries);
      if AnyPlain(f.entries) then open
      else if GuardsOf(f.entries) != [] then [Branch(Or(GuardsOf(f.entries)), open, [Plain(EmptyLine(col, f.path))])]
      else [Plain(EmptyLine(col, f.path))]
    else if f.guard.Some? then [Branch(f.guard.value, [Plain(PairLine(col, f.path, f.rhs))], [])]
    else [Plain(PairLine(col, f.path, f.rhs))]
  }

  function FieldsBlocks(col: nat, fs: Fields): seq<Block>
    decreases fs, 1
  {
    if fs == [] then [] else FieldBlocks(col, fs[0]) + FieldsBlocks(col, fs[1..])
  }

  lemma {:induction false} FieldsSnoc(col: nat, fs: Fields, f: Field)
    ensures FlatAll(FieldsBlocks(col, fs + [f])) == FlatAll(FieldsBlocks(col, fs)) + FlatAll(FieldBlocks(col, f))
  {
    if fs == [] {
      assert [] + [f] == [f] && [f][1..] == [];
      assert FieldBlocks(col, f) + [] == FieldBlocks(col, f);
      assert FieldsBlocks(col, [f]) == FieldBlocks(col, f) + FieldsBlocks(col, []);
    } else {
      assert (fs + [f])[1..] == fs[1..] + [f] && (fs + [f])[0] == fs[0];
      FieldsSnoc(col, fs[1..], f);
      FlatAppend(FieldBlocks(col, fs[0]), FieldsBlocks(col, fs[1..] + [f]));
      FlatAppend(FieldBlocks(col, fs[0]), FieldsBlocks(col, fs[1..]));
      Assoc(FlatAll(FieldBlocks(col, fs[0])), FlatAll(FieldsBlocks(col, fs[1..])), FlatAll(FieldBlocks(col, f)));
    }
  }

  lemma FieldsNext(col: nat, fs: Fields, i: nat, start: seq<Line>)
    requires i < |fs|
    ensures start + FlatAll(FieldsBlocks(col, fs[..i])) + FlatAll(FieldBlocks(col, fs[i])) == start
            + FlatAll(FieldsBlocks(col, fs[..i + 1]))
  {
    assert fs[..i + 1] == fs[..i] + [fs[i]];
    FieldsSnoc(col, fs[..i], fs[i]);
    Assoc(start, FlatAll(FieldsBlocks(col, fs[..i])), FlatAll(FieldBlocks(col, fs[i])));
  }

  // ----- writing it -----

  method WriteFields(d: Doc, col: nat, fs: Fields)
    modifies d
    ensures d.lines == old(d.lines) + FlatAll(FieldsBlocks(col, fs))
    decreases fs, 1
  {
    ghost var start := d.lines;
    var i := 0;
    assert fs[..0] == [];
    while i < |fs|
      invariant 0 <= i <= |fs|
      invariant d.lines == start + FlatAll(FieldsBlocks(col, fs[..i]))
    {
      WriteField(d, col, fs[i]);
      FieldsNext(col, fs, i, start);
      i := i + 1;
    }
    assert fs[..|fs|] == fs;
  }

  /** One pass over a map's entries: is one of them unguarded, and the guards. */
  method Survey(fs: Fields) returns (plain: bool, conds: seq<Expr>)
    ensures plain <==> AnyPlain(fs)
    ensures conds == GuardsOf(fs)
  {
    plain, conds := false, [];
    for i := 0 to |fs|
      invariant plain <==> AnyPlain(fs[..i])
      invariant conds == GuardsOf(fs[..i])
    {
      assert fs[..i + 1] == fs[..i] + [fs[i]];
      assert fs[..i + 1][..i] == fs[..i];
      if fs[i].guard.None? {
        assert fs[i] in fs[..i + 1];
        plain := true;
        assert GuardsOf(fs[..i + 1]) == GuardsOf(fs[..i]);
      } else {
        conds := conds + [fs[i].guard.value];
      }
    }
    assert fs[..|fs|] == fs;
  }

  method WriteField(d: Doc, col: nat, f: Field)
    modifies d
    ensures d.lines == old(d.lines) + FlatAll(FieldBlocks(col, f))
    decreases f, 2
  {
    if f.isMap {
      WriteMap(d, col, f);
      return;
    }
    FlatOne(PairLine(col, f.path, f.rhs));
    if f.guard.Some? {
      FlatBranch(f.guard.value, [Plain(PairLine(col, f.path, f.rhs))], []);
      d.Put(IfLine(f.guard.value));
    }
    d.Put(PairLine(col, f.path, f.rhs));
    if f.guard.Some? {
      d.Put(EndLine);
    }
  }

  /** The map branch of writeField. */
  method WriteMap(d: Doc, col: nat, f: Field)
    requires f.isMap
    modifies d
    ensures d.lines == old(d.lines) + FlatAll(FieldBlocks(col, f))
    decreases f, 1
  {
    ghost var start := d.lines;
    var plain, conds := Survey(f.entries);
    ghost var sub := FieldsBlocks(col + 2, f.entries);
    FlatHead(KeyLine(col, f.path), sub);
    FlatOne(EmptyLine(col, f.path));
    if plain {
      d.Put(KeyLine(col, f.path));
      WriteFields(d, col + 2, f.entries);
      Assoc(start, [KeyLine(col, f.path)], FlatAll(sub));
    } else if |conds| > 0 {
      d.Put(IfLine(Or(conds)));
      d.Put(KeyLine(col, f.path));
      WriteFields(d, col + 2, f.entries);
      d.Put(ElseLine);
      d.Put(EmptyLine(col, f.path));
      d.Put(EndLine);
      FlatBranch(Or(conds), [Plain(KeyLine(col, f.path))] + sub, [Plain(EmptyLine(col, f.path))]);
      Assemble(start, IfLine(Or(conds)), [KeyLine(col, f.path)], FlatAll(sub), EmptyLine(col, f.path));
    } else {
      d.Put(EmptyLine(col, f.path));
    }
  }

  lemma Assemble(s: seq<Line>, open: Line, head: seq<Line>, body: seq<Line>, alt: Line)
    ensures s + [open] + head + body + [ElseLine] + [alt] + [EndLine] ==
            s + ([open] + (head + body) + ([ElseLine] + [alt]) + [EndLine])
  {
  }

  lemma FlatOne(l: Line)
    ensures FlatAll([Plain(l)]) == [l]
  {
    assert [Plain(l)][1..] == [];
  }

  lemma FlatHead(l: Line, bs: seq<Block>)
    ensures FlatAll([Plain(l)] + bs) == [l] + FlatAll(bs)
  {
    FlatAppend([Plain(l)], bs);
    FlatOne(l);
  }

  lemma FlatBranch(g: Expr, yes: seq<Block>, no: seq<Block>)
    ensures FlatAll([Branch(g, yes, no)]) == [IfLine(g)] + FlatAll(yes)
            + (if no == [] then [] else [ElseLine] + FlatAll(no)) + [EndLine]
  {
    var b := Branch(g, yes, no);
    assert [b][1..] == [];
    assert Flat(b) + [] == Flat(b);
  }

  /** The guards writeMapField collects: a scalar's own, a map's entries'. */
  function Conds(plan: Fields): seq<Expr> {
    if plan == [] then []
    else
      var f := plan[|plan| - 1];
      Conds(plan[..|plan| - 1]) + (if f.isMap then GuardsOf(f.entries) else if f.guard.Some? then [f.guard.value]
          else [])
  }

  predicate Guaranteed(plan: Fields) {
    exists f :: f in plan && if f.isMap then AnyPlain(f.entries) else f.guard.None?
  }

  function MapFieldBlocks(keyCol: nat, key: string, col: nat, plan: Fields): seq<Block> {
    if plan == [] then [Plain(EmptyLine(keyCol, key))] else [Plain(KeyLine(keyCol, key))] + UnderKey(col, plan)
  }

  function UnderKey(col: nat, plan: Fields): seq<Block> {
    if Guaranteed(plan) || Conds(plan) == [] then FieldsBlocks(col, plan)
    else [Branch(Or(Conds(plan)), FieldsBlocks(col, plan), [Plain(BraceLine(col))])]
  }

  method WriteMapField(d: Doc, keyCol: nat, key: string, col: nat, plan: Fields)
    modifies d
    ensures d.lines == old(d.lines) + FlatAll(MapFieldBlocks(keyCol, key, col, plan))
  {
    if |plan| == 0 {
      d.Put(EmptyLine(keyCol, key));
      FlatOne(EmptyLine(keyCol, key));
    } else {
      d.Put(KeyLine(keyCol, key));
      WriteUnderKey(d, col, plan);
      FlatHead(KeyLine(keyCol, key), UnderKey(col, plan));
      Assoc(old(d.lines), [KeyLine(keyCol, key)], FlatAll(UnderKey(col, plan)));
    }
  }

  /** The children of the key, with the `{}` fallback when all are optional. */
  method WriteUnderKey(d: Doc, col: nat, plan: Fields)
    modifies d
    ensures d.lines == old(d.lines) + FlatAll(UnderKey(col, plan))
  {
    var anyGuaranteed := AnyGuaranteed(plan);
    if anyGuaranteed {
      WriteFields(d, col, plan);
      return;
    }
    var conds := CollectConds(plan);
    if |conds| > 0 {
      ghost var start := d.lines;
      d.Put(IfLine(Or(conds)));
      WriteFields(d, col, plan);
      d.Put(ElseLine);
      d.Put(BraceLine(col));
      d.Put(EndLine);
      FlatOne(BraceLine(col));
      FlatBranch(Or(conds), FieldsBlocks(col, plan), [Plain(BraceLine(col))]);
      Assemble(start, IfLine(Or(conds)), [], FlatAll(FieldsBlocks(col, plan)), BraceLine(col));
      assert start + [IfLine(Or(conds))] + [] == start + [IfLine(Or(conds))];
      assert [] + FlatAll(FieldsBlocks(col, plan)) == FlatAll(FieldsBlocks(col, plan));
    } else {
      WriteFields(d, col, plan);
    }
  }

  method AnyGuaranteed(plan: Fields) returns (anyGuaranteed: bool)
    ensures anyGuaranteed <==> Guaranteed(plan)
  {
    anyGuaranteed := false;
    for i := 0 to |plan|
      invariant anyGuaranteed <==> Guaranteed(plan[..i])
    {
      assert plan[..i + 1] == plan[..i] + [plan[i]];
      assert plan[i] in plan[..i + 1];
      if plan[i].isMap {
        var plain, _ := Survey(plan[i].entries);
        anyGuaranteed := anyGuaranteed || plain;
      } else if plan[i].guard.None? {
        anyGuaranteed := true;
      }
    }
    assert plan[..|plan|] == plan;
  }

  method CollectConds(plan: Fields) returns (conds: seq<Expr>)
    ensures conds == Conds(plan)
  {
    conds := [];
    for i := 0 to |plan|
      invariant conds == Conds(plan[..i])
    {
      assert plan[..i + 1][..i] == plan[..i];
      if plan[i].isMap {
        var _, more := Survey(plan[i].entries);
        conds := conds + more;
      } else if plan[i].guard.Some? {
        conds := conds + [plan[i].guard.value];
      } else {
        conds := conds + [];
      }
    }
    assert plan[..|plan|] == plan;
  }

  // ----- what it means -----

  predicate Live(fs: Fields, ctx: Context) {
    exists f :: f in fs && Fires(f, ctx)
  }

  lemma {:induction false} TreeLive(fs: Fields, ctx: Context)
    requires AllSafe(fs, ctx)
    ensures FieldsTree(fs, ctx) != [] <==> Live(fs, ctx)
  {
    if fs != [] {
      assert fs == [fs[0]] + fs[1..] && fs[0] in fs;
      TreeLive(fs[1..], ctx);
    }
  }

  lemma OrOfGuards(fs: Fields, gs: seq<Expr>, ctx: Context)
    requires AllSafe(fs, ctx) && gs != []
    requires forall g :: g in gs <==> exists f :: f in fs && f.guard == Some(g)
    ensures Decides(Or(gs), ctx)
    ensures Holds(Or(gs), ctx) <==> exists f :: f in fs && f.guard.Some? && Holds(f.guard.value, ctx)
  {
    forall g | g in gs ensures Decides(g, ctx) {
      var f :| f in fs && f.guard == Some(g);
      assert Safe(f, ctx);
    }
    AnyHolds(gs, ctx);
    if exists f :: f in fs && f.guard.Some? && Holds(f.guard.value, ctx) {
      var f :| f in fs && f.guard.Some? && Holds(f.guard.value, ctx);
      assert f.guard.value in gs;
    }
  }

  lemma {:induction false} FieldDenotes(col: nat, f: Field, ctx: Context)
    requires Safe(f, ctx)
    ensures Denotes(FieldBlocks(col, f), ctx, col, FieldTree(f, ctx))
    decreases f, 0
  {
    if f.isMap {
      MapDenotes(col, f, ctx);
    } else {
      var pair := [Plain(PairLine(col, f.path, f.rhs))];
      if Fires(f, ctx) {
        DenotesPair(col, f.path, f.rhs, ctx);
      }
      if f.guard.Some? {
        DenotesNone(ctx, col);
        DenotesBranch(f.guard.value, pair, [], ctx, col, FieldTree(f, ctx));
      }
    }
  }

  lemma {:induction false} MapDenotes(col: nat, f: Field, ctx: Context)
    requires Safe(f, ctx) && f.isMap
    ensures Denotes(FieldBlocks(col, f), ctx, col, FieldTree(f, ctx))
    decreases f, 0, 0
  {
    var sub, gs := FieldsBlocks(col + 2, f.entries), GuardsOf(f.entries);
    FieldsDenote(col + 2, f.entries, ctx);
    TreeLive(f.entries, ctx);
    DenotesEmpty(col, f.path, ctx);
    if FieldsTree(f.entries, ctx) != [] {
      DenotesNested(sub, ctx, col, f.path, col + 2, FieldsTree(f.entries, ctx));
    }
    var open := [Plain(KeyLine(col, f.path))] + sub;
    assert Proper(open);
    if AnyPlain(f.entries) {
      PlainFires(f.entries, ctx);
    } else if gs != [] {
      OrOfGuards(f.entries, gs, ctx);
      assert Holds(Or(gs), ctx) <==> Live(f.entries, ctx) by {
        GuardedFire(f.entries, ctx);
      }
      DenotesBranch(Or(gs), open, [Plain(EmptyLine(col, f.path))], ctx, col, FieldTree(f, ctx));
    } else if f.entries != [] {
      NoGuards(f.entries);
    }
  }

  lemma PlainFires(fs: Fields, ctx: Context)
    requires AnyPlain(fs)
    ensures Live(fs, ctx)
  {
    var f :| f in fs && f.guard.None?;
    assert Fires(f, ctx);
  }

  lemma GuardedFire(fs: Fields, ctx: Context)
    requires AllSafe(fs, ctx) && !AnyPlain(fs)
    ensures Live(fs, ctx) <==> exists f :: f in fs && f.guard.Some? && Holds(f.guard.value, ctx)
  {
    assert forall f :: f in fs ==> Safe(f, ctx) && f.guard.Some? && !f.isMap;
  }

  lemma NoGuards(fs: Fields)
    requires !AnyPlain(fs) && fs != []
    ensures GuardsOf(fs) != []
  {
    assert fs[0] in fs;
    assert fs[0].guard.value in GuardsOf(fs);
  }

  lemma {:induction false} FieldsDenote(col: nat, fs: Fields, ctx: Context)
    requires AllSafe(fs, ctx)
    ensures Denotes(FieldsBlocks(col, fs), ctx, col, FieldsTree(fs, ctx))
    decreases fs, 1
  {
    if fs == [] {
      DenotesNone(ctx, col);
    } else {
      FieldDenotes(col, fs[0], ctx);
      FieldsDenote(col, fs[1..], ctx);
      DenotesAppend(FieldBlocks(col, fs[0]), FieldsBlocks(col, fs[1..]), ctx, col, FieldTree(fs[0], ctx),
          FieldsTree(fs[1..], ctx));
    }
  }

  /** The fields the fallback looks at: the plan's scalars and its maps' entries. */
  function Scalars(plan: Fields): Fields {
    if plan == [] then []
    else
      var f := plan[|plan| - 1];
      Scalars(plan[..|plan| - 1]) + (if f.isMap then f.entries else [f])
  }

  /** Nothing fires: no scalar, and no entry of a map. */
  predicate AllSilent(plan: Fields, ctx: Context) {
    !Live(Scalars(plan), ctx)
  }

  lemma {:induction false} ScalarFacts(plan: Fields, ctx: Context)
    requires AllSafe(plan, ctx)
    ensures AllSafe(Scalars(plan), ctx)
    ensures Guaranteed(plan) <==> AnyPlain(Scalars(plan))
    ensures forall g :: g in Conds(plan) <==> exists f :: f in Scalars(plan) && f.guard == Some(g)
  {
    if plan != [] {
      var before, f := plan[..|plan| - 1], plan[|plan| - 1];
      assert plan == before + [f] && f in plan;
      ScalarFacts(before, ctx);
      assert forall x :: x in plan <==> x in before || x == f;
      var more := if f.isMap then f.entries else [f];
      assert forall x :: x in Scalars(plan) <==> x in Scalars(before) || x in more;
      assert forall x :: x in more ==> Safe(x, ctx);
    }
  }

  lemma {:induction false} SilentTree(plan: Fields, ctx: Context)
    requires AllSafe(plan, ctx)
    ensures !AllSilent(plan, ctx) ==> FieldsTree(plan, ctx) != []
  {
    TreeLive(plan, ctx);
    ScalarsLive(plan, ctx);
  }

  lemma {:induction false} ScalarsLive(plan: Fields, ctx: Context)
    requires AllSafe(plan, ctx)
    ensures Live(Scalars(plan), ctx) ==> Live(plan, ctx)
  {
    if plan != [] {
      var before, f := plan[..|plan| - 1], plan[|plan| - 1];
      assert plan == before + [f];
      ScalarsLive(before, ctx);
      if Live(Scalars(plan), ctx) {
        var x :| x in Scalars(plan) && Fires(x, ctx);
        if x in Scalars(before) {
          var y :| y in before && Fires(y, ctx);
          assert y in plan;
        } else {
          assert f in plan && Fires(f, ctx);
        }
      }
    }
  }

  lemma GuardTest(plan: Fields, ctx: Context)
    requires AllSafe(plan, ctx) && !Guaranteed(plan) && Conds(plan) != []
    ensures Decides(Or(Conds(plan)), ctx)
    ensures Holds(Or(Conds(plan)), ctx) <==> !AllSilent(plan, ctx)
  {
    ScalarFacts(plan, ctx);
    OrOfGuards(Scalars(plan), Conds(plan), ctx);
    GuardedFire(Scalars(plan), ctx);
    var g := Conds(plan)[0];
    assert g in Conds(plan);
  }

  lemma NotSilent(plan: Fields, ctx: Context)
    requires AllSafe(plan, ctx) && plan != [] && (Guaranteed(plan) || Conds(plan) == [])
    ensures !AllSilent(plan, ctx)
  {
    ScalarFacts(plan, ctx);
    if Guaranteed(plan) {
      PlainFires(Scalars(plan), ctx);
    } else {
      SomeScalar(plan, ctx);
      NoGuards(Scalars(plan));
    }
  }

  lemma SomeScalar(plan: Fields, ctx: Context)
    requires AllSafe(plan, ctx) && plan != []
    ensures Scalars(plan) != []
  {
    assert plan[|plan| - 1] in plan && Safe(plan[|plan| - 1], ctx);
  }

  /** For every plan and every context in which its guards decide: the block
      denotes exactly one entry, a mapping, never null. It is the empty mapping
      exactly when nothing fires, otherwise the scalars that fire and every map
      with its entries that fire, `{}` when there are none. */
  lemma MapFieldMeans(keyCol: nat, key: string, col: nat, plan: Fields, ctx: Context)
    requires AllSafe(plan, ctx) && col > keyCol
    ensures Denotes(MapFieldBlocks(keyCol, key, col, plan), ctx, keyCol,
                    [Entry(key, Mapping(if AllSilent(plan, ctx) then [] else FieldsTree(plan, ctx)))])
    ensures NoNull(FieldsTree(plan, ctx)) && (!AllSilent(plan, ctx) ==> FieldsTree(plan, ctx) != [])
  {
    TreeNoNull(plan, ctx);
    SilentTree(plan, ctx);
    if plan == [] {
      DenotesEmpty(keyCol, key, ctx);
    } else if Guaranteed(plan) || Conds(plan) == [] {
      NotSilent(plan, ctx);
      CertainDenotes(keyCol, key, col, plan, ctx);
    } else {
      GuardTest(plan, ctx);
      FieldsDenote(col, plan, ctx);
      FallbackDenotes(keyCol, key, col, plan, ctx);
    }
  }

  lemma CertainDenotes(keyCol: nat, key: string, col: nat, plan: Fields, ctx: Context)
    requires AllSafe(plan, ctx) && col > keyCol && FieldsTree(plan, ctx) != []
    ensures Denotes([Plain(KeyLine(keyCol, key))] + FieldsBlocks(col, plan), ctx, keyCol,
            [Entry(key, Mapping(FieldsTree(plan, ctx)))])
  {
    FieldsDenote(col, plan, ctx);
    DenotesNested(FieldsBlocks(col, plan), ctx, keyCol, key, col, FieldsTree(plan, ctx));
  }

  lemma FallbackDenotes(keyCol: nat, key: string, col: nat, plan: Fields, ctx: Context)
    requires AllSafe(plan, ctx) && col > keyCol && plan != []
    requires Decides(Or(Conds(plan)), ctx) && (Holds(Or(Conds(plan)), ctx) <==> !AllSilent(plan, ctx))
    requires !AllSilent(plan, ctx) ==> FieldsTree(plan, ctx) != []
    requires Denotes(FieldsBlocks(col, plan), ctx, col, FieldsTree(plan, ctx))
    ensures Denotes([Plain(KeyLine(keyCol, key))] + [Branch(Or(Conds(plan)), FieldsBlocks(col, plan),
            [Plain(BraceLine(col))])], ctx, keyCol,
                    [Entry(key, Mapping(if AllSilent(plan, ctx) then [] else FieldsTree(plan, ctx)))])
  {
    var fields, brace := FieldsBlocks(col, plan), [Plain(BraceLine(col))];
    var b := [Branch(Or(Conds(plan)), fields, brace)];
    assert Proper(b);
    if AllSilent(plan, ctx) {
      RunSingle(Branch(Or(Conds(plan)), fields, brace), ctx);
      RunSingle(Plain(BraceLine(col)), ctx);
      DenotesBraced(b, ctx, keyCol, key, col);
    } else {
      DenotesBranch(Or(Conds(plan)), fields, brace, ctx, col, FieldsTree(plan, ctx));
      DenotesNested(b, ctx, keyCol, key, col, FieldsTree(plan, ctx));
    }
  }

  lemma {:induction false} TreeNoNull(fs: Fields, ctx: Context)
    requires AllSafe(fs, ctx)
    ensures NoNull(FieldsTree(fs, ctx))
    decreases fs
  {
    if fs != [] {
      TreeNoNull(fs[1..], ctx);
      assert fs[0] in fs;
      if fs[0].isMap {
        TreeNoNull(fs[0].entries, ctx);
      }
    }
  }
}
