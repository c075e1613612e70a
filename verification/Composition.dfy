/** The template body: every resource's template in document order, what it
    renders to, and the names of the documents (writeTemplateBody,
    internal/emit/composition.go). */
module Composition {
  import opened Seqs
  import opened Template
  import opened Text
  import opened Refs
  import opened Yaml
  import opened Lookup
  import opened Stream
  import opened Blueprint
  import opened Plans
  import opened ResourceTemplate
  import opened Rendering
  import opened Contents
  import Wires
  import E = Envelope
  import M = MapField
  import Names

  /** What schema resolution adds to a resource. */
  datatype Given = Given(apiVersion: string, body: M.Fields)

  /** The emitter's settings, the same for every resource. */
  datatype Setting = Setting(ti: nat, surface: Surface, printed: Expr -> string, wantNamespaced: bool)

  predicate Writable(p: Draft) {
    E.Rooted(p.env) && !E.GroupsCrash(p.env)
  }

  predicate AllWritable(ps: seq<Draft>) {
    forall i :: 0 <= i < |ps| ==> Writable(ps[i])
  }

  /** The template of one resource. */
  function PartBlocks(d: Document, r: Resource, p: Draft, s: Setting): seq<Block>
    requires Writable(p)
  {
    ResourceBlocks(s.ti, d, r, p, s.surface.number, s.wantNamespaced)
  }

  /** The templates of the first resources, one behind the other. */
  function BodyBlocks(d: Document, ps: seq<Draft>, s: Setting): seq<Block>
    requires |ps| <= |d.resources| && AllWritable(ps)
  {
    if ps == [] then []
    else
      var n := |ps| - 1;
      BodyBlocks(d, ps[..n], s) + PartBlocks(d, d.resources[n], ps[n], s)
  }

  /** The draft is what planning made of the resource as it was given. */
  ghost predicate DraftedFrom(d: Document, r: Resource, g: Given, p: Draft, s: Setting) {
    p.apiVersion == g.apiVersion && p.body == g.body && Drafted(d, r, s.surface, s.printed, p)
  }

  ghost predicate AllDrafted(d: Document, given: seq<Given>, ps: seq<Draft>, s: Setting)
    requires |ps| <= |given| == |d.resources|
  {
    forall i :: 0 <= i < |ps| ==> DraftedFrom(d, d.resources[i], given[i], ps[i], s)
  }

  method WritePart(out: Doc, d: Document, r: Resource, g: Given, s: Setting) returns (p: Draft, crashed: bool)
    requires ResourceOk(d, r)
    modifies out
    ensures crashed <==> RefOverlaps(r, s.surface)
    ensures DraftedFrom(d, r, g, p, s) && (!crashed ==> Writable(p))
    ensures !crashed ==> out.lines == old(out.lines) + FlatAll(PartBlocks(d, r, p, s))
  {
    PlanCrashes(d, r, s.surface);
    p, crashed := WriteResourceTemplate(out, s.ti, d, r, g.apiVersion, g.body, s.surface, s.printed, s.wantNamespaced);
  }

  /** The loop over the resources. */
  method WriteTemplateBody(out: Doc, d: Document, given: seq<Given>, s: Setting) returns (ps: seq<Draft>, crashed: bool)
    requires ResourcesOk(d) && |given| == |d.resources|
    modifies out
    ensures crashed <==> exists r :: r in d.resources && RefOverlaps(r, s.surface)
    ensures !crashed ==>
              && |ps| == |d.resources| && AllDrafted(d, given, ps, s) && AllWritable(ps)
              && out.lines == old(out.lines) + FlatAll(BodyBlocks(d, ps, s))
  {
    ps := [];
    for i := 0 to |d.resources|
      invariant |ps| == i && AllDrafted(d, given, ps, s) && AllWritable(ps)
      invariant out.lines == old(out.lines) + FlatAll(BodyBlocks(d, ps, s))
      invariant forall j :: 0 <= j < i ==> !RefOverlaps(d.resources[j], s.surface)
    {
      assert d.resources[i] in d.resources;
      var more;
      more, crashed := WriteNext(out, d, given, ps, s, old(out.lines));
      if crashed {
        return;
      }
      ps := more;
    }
    crashed := false;
  }

  /** The template of the next resource. */
  method WriteNext(out: Doc, d: Document, given: seq<Given>, ps: seq<Draft>, s: Setting, ghost start: seq<Line>)
      returns (more: seq<Draft>, crashed: bool)
    requires |ps| < |given| == |d.resources| && ResourceOk(d, d.resources[|ps|])
    requires AllDrafted(d, given, ps, s) && AllWritable(ps) && out.lines == start + FlatAll(BodyBlocks(d, ps, s))
    modifies out
    ensures crashed <==> RefOverlaps(d.resources[|ps|], s.surface)
    ensures |more| == |ps| + 1
    ensures !crashed ==>
            AllDrafted(d, given, more, s) && AllWritable(more)
            && out.lines == start + FlatAll(BodyBlocks(d, more, s))
  {
    var p;
    p, crashed := WritePart(out, d, d.resources[|ps|], given[|ps|], s);
    more := ps + [p];
    if !crashed {
      BodyNext(d, ps, p, s, start);
      DraftedNext(d, given, ps, p, s);
    }
  }

  lemma DraftedNext(d: Document, given: seq<Given>, ps: seq<Draft>, p: Draft, s: Setting)
    requires |ps| < |given| == |d.resources| && AllDrafted(d, given, ps, s)
    requires DraftedFrom(d, d.resources[|ps|], given[|ps|], p, s)
    ensures AllDrafted(d, given, ps + [p], s)
  {
  }

  lemma BodySnoc(d: Document, ps: seq<Draft>, p: Draft, s: Setting)
    requires |ps| < |d.resources| && AllWritable(ps) && Writable(p)
    ensures AllWritable(ps + [p])
    ensures BodyBlocks(d, ps + [p], s) == BodyBlocks(d, ps, s) + PartBlocks(d, d.resources[|ps|], p, s)
  {
    assert (ps + [p])[..|ps|] == ps;
  }

  lemma BodyNext(d: Document, ps: seq<Draft>, p: Draft, s: Setting, start: seq<Line>)
    requires |ps| < |d.resources| && AllWritable(ps) && Writable(p)
    ensures AllWritable(ps + [p])
    ensures start + FlatAll(BodyBlocks(d, ps, s)) + FlatAll(PartBlocks(d, d.resources[|ps|], p, s))
            == start + FlatAll(BodyBlocks(d, ps + [p], s))
  {
    BodySnoc(d, ps, p, s);
    FlatAppend(BodyBlocks(d, ps, s), PartBlocks(d, d.resources[|ps|], p, s));
    Assoc(start, FlatAll(BodyBlocks(d, ps, s)), FlatAll(PartBlocks(d, d.resources[|ps|], p, s)));
  }

  // ----- what it renders to -----

  /** The composite and the observed resources bring what every resource needs. */
  ghost predicate AllServed(d: Document, given: seq<Given>, ctx: Context, s: Setting)
    requires |given| == |d.resources|
  {
    forall i :: 0 <= i < |given| ==> Served(d, d.resources[i], given[i].body, ctx, s.surface.number)
  }

  ghost predicate AllEmittable(d: Document, s: Setting) {
    forall r :: r in d.resources ==> Managed(d, r) && Emittable(d, r, s.surface)
  }

  ghost predicate AllFit(d: Document, ps: seq<Draft>, ctx: Context, s: Setting)
    requires |ps| <= |d.resources|
  {
    forall i :: 0 <= i < |ps| ==> FitsAll(d.resources[i], ps[i], s.wantNamespaced, ctx)
  }

  ghost function PartDocuments(d: Document, r: Resource, p: Draft, ctx: Context, s: Setting): seq<seq<Entry>>
    requires FitsAll(r, p, s.wantNamespaced, ctx)
  {
    Documents(d, r, p, s.wantNamespaced, ctx, s.surface.number)
  }

  /** The documents of the first resources, in order. */
  ghost function AllDocuments(d: Document, ps: seq<Draft>, ctx: Context, s: Setting): seq<seq<Entry>>
    requires |ps| <= |d.resources| && AllFit(d, ps, ctx, s)
  {
    if ps == [] then []
    else
      var n := |ps| - 1;
      AllDocuments(d, ps[..n], ctx, s) + PartDocuments(d, d.resources[n], ps[n], ctx, s)
  }

  lemma PartYields(d: Document, given: seq<Given>, ps: seq<Draft>, i: nat, ctx: Context, s: Setting)
    requires Valid(d) && |given| == |d.resources| && i < |ps| <= |d.resources|
    requires AllDrafted(d, given, ps, s) && AllEmittable(d, s) && AllServed(d, given, ctx, s)
    ensures FitsAll(d.resources[i], ps[i], s.wantNamespaced, ctx) && Writable(ps[i])
    ensures Yields(PartBlocks(d, d.resources[i], ps[i], s), ctx, 2 * s.ti,
            PartDocuments(d, d.resources[i], ps[i], ctx, s))
  {
    var r := d.resources[i];
    assert r in d.resources && DraftedFrom(d, r, given[i], ps[i], s);
    DraftYields(s.ti, d, r, s.surface, s.printed, ps[i], s.wantNamespaced, ctx);
  }

  lemma {:induction false} BodyYields(d: Document, given: seq<Given>, ps: seq<Draft>, ctx: Context, s: Setting)
    requires Valid(d) && |given| == |d.resources| && |ps| <= |d.resources|
    requires AllDrafted(d, given, ps, s) && AllEmittable(d, s) && AllServed(d, given, ctx, s)
    ensures AllWritable(ps) && AllFit(d, ps, ctx, s)
    ensures Yields(BodyBlocks(d, ps, s), ctx, 2 * s.ti, AllDocuments(d, ps, ctx, s))
    decreases |ps|
  {
    forall i | 0 <= i < |ps| ensures FitsAll(d.resources[i], ps[i], s.wantNamespaced, ctx) && Writable(ps[i]) {
      PartYields(d, given, ps, i, ctx, s);
    }
    if ps == [] {
      YieldsNone(ctx, 2 * s.ti);
    } else {
      var n := |ps| - 1;
      BodyYields(d, given, ps[..n], ctx, s);
      PartYields(d, given, ps, n, ctx, s);
      YieldsAppend(BodyBlocks(d, ps[..n], s), PartBlocks(d, d.resources[n], ps[n], s), ctx, 2 * s.ti,
                   AllDocuments(d, ps[..n], ctx, s), PartDocuments(d, d.resources[n], ps[n], ctx, s));
    }
  }

  /** For every valid document of managed resources and every composite its XRD
      admits: the template body, all resources appended in order, parses and
      renders without failing, to exactly the documents of the resources, in
      order. */
  lemma BodyRenders(d: Document, given: seq<Given>, ps: seq<Draft>, ctx: Context, s: Setting)
    requires Valid(d) && |given| == |d.resources| == |ps|
    requires AllDrafted(d, given, ps, s) && AllEmittable(d, s) && AllServed(d, given, ctx, s)
    ensures AllWritable(ps) && AllFit(d, ps, ctx, s)
    ensures var ls := FlatAll(BodyBlocks(d, ps, s));
            Render(ls, ctx).Ok? && ReadStream(Render(ls, ctx).value, 2 * s.ti) == Some(AllDocuments(d, ps, ctx, s))
  {
    BodyYields(d, given, ps, ctx, s);
    YieldsRenders(BodyBlocks(d, ps, s), ctx, 2 * s.ti, AllDocuments(d, ps, ctx, s));
  }

  // ----- the names of the documents -----

  /** What a document calls itself: the composition-resource-name annotation. */
  function DocumentName(es: seq<Entry>): Option<string> {
    var n := NodeAt(es, ["metadata", "annotations", NAME_ANNOTATION]);
    if n.None? || !n.value.Leaf? then None
    else match n.value.scalar
      case Text(t) => Some(t)
      case Indexed(prefix, i) => Some(prefix + "-" + Names.Decimal(i))
      case _ => None
  }

  lemma NamedAs(r: Resource, p: Draft, wantNamespaced: bool, ctx: Context)
    requires Fits(r, p, wantNamespaced, ctx)
    ensures DocumentName(DocumentTree(r, p, wantNamespaced, ctx)) ==
            Some(Names.ComposedName(r, if r.forEach != "" then ctx.index.value else 0))
  {
    IdentityShown(r, p, wantNamespaced, ctx);
  }

  /** The indices a resource's loop runs over; an unlooped resource has one document. */
  function Indices(d: Document, r: Resource, ctx: Context, number: string -> real): seq<int> {
    if r.forEach == "" then [0]
    else
      var v := Wires.LoopValue(d, r.forEach, ctx, number);
      if v.None? || !v.value.Num? then []
      else
        seq(UntilCount(v.value.amount), i requires 0 <= i < UntilCount(v.value.amount) => UntilItem(v.value.amount, i))
  }

  /** The names of the documents a resource renders to. */
  ghost function PartNames(d: Document, r: Resource, p: Draft, ctx: Context, number: string -> real): seq<string> {
    if WhenPasses(d, r, ctx, number) && Ready(p, ctx) then
      var at := Indices(d, r, ctx, number);
      seq(|at|, i requires 0 <= i < |at| => Names.ComposedName(r, at[i]))
    else []
  }

  lemma PartNamed(d: Document, r: Resource, p: Draft, ctx: Context, s: Setting)
    requires FitsAll(r, p, s.wantNamespaced, ctx)
    ensures var docs, names := PartDocuments(d, r, p, ctx, s), PartNames(d, r, p, ctx, s.surface.number);
            |docs| == |names| && forall i :: 0 <= i < |docs| ==> DocumentName(docs[i]) == Some(names[i])
  {
    var docs := PartDocuments(d, r, p, ctx, s);
    if WhenPasses(d, r, ctx, s.surface.number) && Ready(p, ctx) {
      if r.forEach == "" {
        NamedAs(r, p, s.wantNamespaced, ctx);
      } else {
        forall i | 0 <= i < |docs|
          ensures DocumentName(docs[i]) == Some(Names.ComposedName(r, Indices(d, r, ctx, s.surface.number)[i]))
        {
          var n := Wires.LoopValue(d, r.forEach, ctx, s.surface.number).value.amount;
          NamedAs(r, p, s.wantNamespaced, Iteration(ctx, n, i));
        }
      }
    }
  }

  ghost function NameParts(d: Document, ps: seq<Draft>, ctx: Context, number: string -> real): (parts: seq<seq<string>>)
    requires |ps| <= |d.resources|
  {
    seq(|ps|, i requires 0 <= i < |ps| => PartNames(d, d.resources[i], ps[i], ctx, number))
  }

  ghost function AllNames(d: Document, ps: seq<Draft>, ctx: Context, number: string -> real): seq<string>
    requires |ps| <= |d.resources|
  {
    Flatten(NameParts(d, ps, ctx, number))
  }

  lemma NamesSnoc(d: Document, ps: seq<Draft>, ctx: Context, number: string -> real)
    requires 0 < |ps| <= |d.resources|
    ensures var n := |ps| - 1;
            AllNames(d, ps, ctx, number) == AllNames(d, ps[..n], ctx, number)
                + PartNames(d, d.resources[n], ps[n], ctx, number)
  {
    var n := |ps| - 1;
    assert NameParts(d, ps, ctx, number)[..n] == NameParts(d, ps[..n], ctx, number);
  }

  /** The names the documents of the stream carry. */
  lemma {:induction false} StreamNamed(d: Document, ps: seq<Draft>, ctx: Context, s: Setting)
    requires |ps| <= |d.resources| && AllFit(d, ps, ctx, s)
    ensures var docs, names := AllDocuments(d, ps, ctx, s), AllNames(d, ps, ctx, s.surface.number);
            |docs| == |names| && forall i :: 0 <= i < |docs| ==> DocumentName(docs[i]) == Some(names[i])
    decreases |ps|
  {
    if ps != [] {
      var n := |ps| - 1;
      StreamNamed(d, ps[..n], ctx, s);
      NamesSnoc(d, ps, ctx, s.surface.number);
      PartNamed(d, d.resources[n], ps[n], ctx, s);
    }
  }

  /** Under ctx an unlooped resource that is rendered has the name of an
      iteration that is rendered. */
  ghost predicate Collides(d: Document, ps: seq<Draft>, ctx: Context, number: string -> real)
    requires |ps| <= |d.resources|
  {
    exists i, j ::
      && 0 <= i < |ps| && 0 <= j < |ps|
      && d.resources[i].forEach != "" && d.resources[j].forEach == ""
      && PartNames(d, d.resources[j], ps[j], ctx, number) != []
      && d.resources[j].name in PartNames(d, d.resources[i], ps[i], ctx, number)
  }

  /** One resource never names two documents alike. */
  lemma PartDistinct(d: Document, r: Resource, p: Draft, ctx: Context, number: string -> real)
    requires ResourceName(r.name)
    ensures Distinct(PartNames(d, r, p, ctx, number))
  {
    var names, at := PartNames(d, r, p, ctx, number), Indices(d, r, ctx, number);
    forall i, j | 0 <= i < j < |names| ensures names[i] != names[j] {
      assert at[i] != at[j];
      if names[i] == names[j] {
        Names.LoopedApart(r.name, at[i], r.name, at[j]);
      }
    }
  }

  /** Two resources that share a name: one is looped, the other is not. */
  lemma SharedName(d: Document, ps: seq<Draft>, i: nat, j: nat, ctx: Context, number: string -> real, x: string)
    requires ResourcesOk(d) && i < |ps| <= |d.resources| && j < |ps| && i != j
    requires x in NameParts(d, ps, ctx, number)[i] && x in NameParts(d, ps, ctx, number)[j]
    ensures Collides(d, ps, ctx, number)
  {
    var r, q := d.resources[i], d.resources[j];
    assert r in d.resources && q in d.resources && ResourceOk(d, r) && ResourceOk(d, q);
    assert r.name != q.name;
    var k := NameIndex(d, r, ps[i], ctx, number, x);
    var l := NameIndex(d, q, ps[j], ctx, number, x);
    if r.forEach != "" && q.forEach != "" {
      Names.LoopedApart(r.name, k, q.name, l);
    } else if r.forEach != "" {
      assert q.name in PartNames(d, r, ps[i], ctx, number);
    } else {
      assert q.forEach != "" && r.name in PartNames(d, q, ps[j], ctx, number);
    }
  }

  lemma NameIndex(d: Document, r: Resource, p: Draft, ctx: Context, number: string -> real, x: string) returns (i: int)
    requires x in PartNames(d, r, p, ctx, number)
    ensures x == Names.ComposedName(r, i)
  {
    var names := PartNames(d, r, p, ctx, number);
    var k :| 0 <= k < |names| && names[k] == x;
    i := Indices(d, r, ctx, number)[k];
  }

  /** The names of a rendered body are distinct exactly when no iteration takes
      the name of an unlooped resource that is rendered beside it. */
  lemma NamesDistinctIff(d: Document, ps: seq<Draft>, ctx: Context, number: string -> real)
    requires ResourcesOk(d) && |ps| <= |d.resources|
    ensures Distinct(AllNames(d, ps, ctx, number)) <==> !Collides(d, ps, ctx, number)
  {
    var parts := NameParts(d, ps, ctx, number);
    FlattenDistinct(parts);
    forall i | 0 <= i < |parts| ensures Distinct(parts[i]) {
      assert d.resources[i] in d.resources && ResourceOk(d, d.resources[i]);
      PartDistinct(d, d.resources[i], ps[i], ctx, number);
    }
    if !Collides(d, ps, ctx, number) {
      forall i, j, x | 0 <= i < j < |parts| && x in parts[i] ensures x !in parts[j] {
        if x in parts[j] {
          SharedName(d, ps, i, j, ctx, number, x);
        }
      }
    } else {
      CollisionShared(d, ps, ctx, number);
    }
  }

  lemma CollisionShared(d: Document, ps: seq<Draft>, ctx: Context, number: string -> real)
    requires |ps| <= |d.resources| && Collides(d, ps, ctx, number)
    ensures !NothingShared(NameParts(d, ps, ctx, number))
  {
    var parts := NameParts(d, ps, ctx, number);
    var i, j :|
      && 0 <= i < |ps| && 0 <= j < |ps|
      && d.resources[i].forEach != "" && d.resources[j].forEach == ""
      && PartNames(d, d.resources[j], ps[j], ctx, number) != []
      && d.resources[j].name in PartNames(d, d.resources[i], ps[i], ctx, number);
    UnloopedName(d, d.resources[j], ps[j], ctx, number);
    SharedTwice(parts, i, j, d.resources[j].name);
  }

  lemma UnloopedName(d: Document, r: Resource, p: Draft, ctx: Context, number: string -> real)
    requires r.forEach == "" && PartNames(d, r, p, ctx, number) != []
    ensures PartNames(d, r, p, ctx, number) == [r.name]
  {
  }

  lemma SharedTwice(parts: seq<seq<string>>, i: nat, j: nat, x: string)
    requires i < |parts| && j < |parts| && i != j && x in parts[i] && x in parts[j]
    ensures !NothingShared(parts)
  {
    var lo, hi := if i < j then i else j, if i < j then j else i;
    assert x in parts[lo] && x in parts[hi];
  }

  /** Only a shadowed document can have such a body. */
  lemma CollidesShadowed(d: Document, ps: seq<Draft>, ctx: Context, number: string -> real)
    requires |ps| <= |d.resources| && Collides(d, ps, ctx, number)
    ensures Names.Shadowed(d)
  {
    var i, j :|
      && 0 <= i < |ps| && 0 <= j < |ps|
      && d.resources[i].forEach != "" && d.resources[j].forEach == ""
      && d.resources[j].name in PartNames(d, d.resources[i], ps[i], ctx, number);
    var k := NameIndex(d, d.resources[i], ps[i], ctx, number, d.resources[j].name);
    assert d.resources[i] in d.resources && d.resources[j] in d.resources;
    assert d.resources[j].name == d.resources[i].name + "-" + Names.Decimal(k);
  }
}
