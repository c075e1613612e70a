/** The rewriting a rename does, as functions on the document. */
module Rewrite {
  import opened Seqs
  import opened Template
  import opened Text
  import opened Refs
  import opened Params
  import opened Blueprint

  /** How each kind of text is rewritten: wires, loop bounds, conditions, and
      free template text, which stays opaque. */
  datatype Rewiring = Rewiring(wire: string -> string, loop: string -> string, test: string -> string,
      text: string -> string)

  function RewireField(f: Field, w: Rewiring): Field {
    f.(from := w.wire(f.from), raw := if f.raw == "" then "" else w.text(f.raw))
  }

  function RewireFields(m: FieldMap, w: Rewiring): FieldMap {
    map p | p in m :: RewireField(m[p], w)
  }

  function RewireResource(r: Resource, w: Rewiring): Resource {
    r.(forEach := w.loop(r.forEach), when := w.test(r.when),
       fields := RewireFields(r.fields, w), envelope := RewireFields(r.envelope, w),
           annotations := RewireFields(r.annotations, w))
  }

  function RewireResources(rs: seq<Resource>, w: Rewiring): seq<Resource> {
    seq(|rs|, i requires 0 <= i < |rs| => RewireResource(rs[i], w))
  }

  function RewireTemplates(m: map<string, string>, w: Rewiring): map<string, string> {
    map n | n in m :: w.text(m[n])
  }

  /** The loop over one map of fields. */
  method RewriteFields(m: FieldMap, w: Rewiring) returns (r: FieldMap)
    ensures r == RewireFields(m, w)
  {
    r := m;
    var todo := m.Keys;
    while todo != {}
      invariant todo <= m.Keys && r.Keys == m.Keys
      invariant forall p :: p in m ==> r[p] == if p in todo then m[p] else RewireField(m[p], w)
      decreases |todo|
    {
      var path :| path in todo;
      var f := m[path];
      f := f.(from := w.wire(f.from));
      if f.raw != "" {
        f := f.(raw := w.text(f.raw));
      }
      r := r[path := f];
      todo := todo - {path};
    }
  }

  method RewriteTemplates(m: map<string, string>, w: Rewiring) returns (r: map<string, string>)
    ensures r == RewireTemplates(m, w)
  {
    r := m;
    var todo := m.Keys;
    while todo != {}
      invariant todo <= m.Keys && r.Keys == m.Keys
      invariant forall n :: n in m ==> r[n] == if n in todo then m[n] else w.text(m[n])
      decreases |todo|
    {
      var name :| name in todo;
      r := r[name := w.text(m[name])];
      todo := todo - {name};
    }
  }

  /** The loop over the resources. */
  method RewriteResources(rs: seq<Resource>, w: Rewiring) returns (out: seq<Resource>)
    ensures out == RewireResources(rs, w)
  {
    out := rs;
    for i := 0 to |rs|
      invariant |out| == |rs|
      invariant forall j :: 0 <= j < |rs| ==> out[j] == if j < i then RewireResource(rs[j], w) else rs[j]
    {
      var fields := RewriteFields(rs[i].fields, w);
      var envelope := RewriteFields(rs[i].envelope, w);
      var annotations := RewriteFields(rs[i].annotations, w);
      out := out[i := rs[i].(forEach := w.loop(rs[i].forEach), when := w.test(rs[i].when),
                             fields := fields, envelope := envelope, annotations := annotations)];
    }
  }

  /** No raw text and no template body changes under the rewriting. */
  predicate TextFixed(d: Document, text: string -> string) {
    && (forall r :: r in d.resources ==>
        FieldsFixed(r.fields, text) && FieldsFixed(r.envelope, text)
        && FieldsFixed(r.annotations, text))
    && forall n :: n in d.templates ==> text(d.templates[n]) == d.templates[n]
  }

  predicate FieldsFixed(m: FieldMap, text: string -> string) {
    forall p :: p in m && m[p].raw != "" ==> text(m[p].raw) == m[p].raw
  }

  // ----- renaming a parameter -----

  /** renameParamRef: params.<from> and params.<from>.<member>, nothing that
      merely starts alike. */
  function RenameParamRef(s: string, from: string, to: string): string {
    if s == PARAMS + from then PARAMS + to
    else if PARAMS + from + "." <= s then PARAMS + to + "." + s[|PARAMS + from + "."|..]
    else s
  }

  function RenameLoop(s: string, from: string, to: string): string {
    if s == PARAMS + from then PARAMS + to else s
  }

  function Hex(n: nat, digits: nat): string {
    if digits == 0 then "" else Hex(n / 16, digits - 1) + ["0123456789abcdef"[n % 16]]
  }

  /** strconv.Quote on text without quotes and backslashes: characters that do
      not print are escaped. Which characters print is Unicode's business. */
  function Quote(s: string, prints: char -> bool): string {
    "\"" + Escape(s, prints) + "\""
  }

  function Escape(s: string, prints: char -> bool): string {
    if s == "" then ""
    else (if prints(s[0]) then [s[0]] else "\\u" + Hex(s[0] as int, 4)) + Escape(s[1..], prints)
  }

  predicate Printable(s: string, prints: char -> bool) {
    forall c :: c in s ==> prints(c)
  }

  lemma {:induction false} EscapePrintable(s: string, prints: char -> bool)
    ensures Printable(s, prints) ==> Escape(s, prints) == s
    ensures !Printable(s, prints) ==> '\\' in Escape(s, prints)
  {
    if s != "" {
      EscapePrintable(s[1..], prints);
      assert s == [s[0]] + s[1..];
      if !prints(s[0]) {
        assert Escape(s, prints)[0] == '\\';
      }
    }
  }

  /** A condition on the renamed parameter is rebuilt from its parse. */
  function RenameWhen(s: string, from: string, to: string, prints: char -> bool): string {
    var w := ParseWhen(s);
    if s == "" || w.None? || w.value.source != "params" || w.value.name != from then s
    else if w.value.op == "" then PARAMS + to
    else PARAMS + to + " " + w.value.op + " " + Quote(w.value.literal, prints)
  }

  function ParamRewiring(from: string, to: string, prints: char -> bool, text: string -> string): Rewiring {
    Rewiring(s => RenameParamRef(s, from, to), s => RenameLoop(s, from, to), s => RenameWhen(s, from, to, prints), text)
  }

  function RenamedDeclarations(ps: Declarations, from: string, to: string): Declarations
    requires from in ps
  {
    (ps - {from})[to := ps[from]]
  }

  function RenamedParameter(d: Document, from: string, to: string, prints: char -> bool,
      text: string -> string): Document
    requires from in d.parameters
  {
    var w := ParamRewiring(from, to, prints, text);
    d.(parameters := RenamedDeclarations(d.parameters, from, to),
       resources := RewireResources(d.resources, w),
       templates := RewireTemplates(d.templates, w))
  }

  // ----- what renaming does to one reference -----

  function RenamedSegs(segs: seq<string>, from: string, to: string): seq<string> {
    if segs != [] && segs[0] == from then [to] + segs[1..] else segs
  }

  /** A reference starts with a segment exactly when it is that segment or
      extends it by a dot. */
  lemma FirstSegment(ref: string, from: string)
    requires '.' !in from
    ensures Split(ref, '.')[0] == from <==> ref == from || from + "." <= ref
    ensures Split(ref, '.') == [from] <==> ref == from
  {
    var segs := Split(ref, '.');
    JoinSplit(ref, '.');
    SplitPlain(from, '.');
    if from + "." <= ref {
      SplitHead(from, ref[|from| + 1..], '.');
      assert ref == from + "." + ref[|from| + 1..];
    }
    if segs[0] == from && |segs| > 1 {
      assert ref == from + "." + Join(segs[1..], '.');
    }
  }

  lemma PrefixBehind(a: string, x: string, y: string)
    ensures a + x <= a + y <==> x <= y
    ensures a + x == a + y <==> x == y
  {
    if a + x <= a + y {
      assert x == (a + x)[|a|..] && y == (a + y)[|a|..];
      assert forall i :: 0 <= i < |x| ==> x[i] == (a + x)[|a| + i] == (a + y)[|a| + i];
    }
  }

  /** The string test looks at exactly the first segment. */
  lemma RenameBySegments(ref: string, from: string, to: string)
    requires '.' !in from && '.' !in to
    ensures RenameParamRef(PARAMS + ref, from, to) == PARAMS + Join(RenamedSegs(Split(ref, '.'), from, to), '.')
  {
    var s := PARAMS + ref;
    var segs := Split(ref, '.');
    JoinSplit(ref, '.');
    FirstSegment(ref, from);
    PrefixBehind(PARAMS, from, ref);
    PrefixBehind(PARAMS, from + ".", ref);
    Assoc(PARAMS, from, ".");
    if ref == from {
      assert [to] + segs[1..] == [to];
    } else if from + "." <= ref {
      var rest := ref[|from| + 1..];
      assert ref == from + "." + rest;
      SplitHead(from, rest, '.');
      JoinSplit(rest, '.');
      assert s[|PARAMS + from + "."|..] == rest;
      assert ([to] + segs[1..])[1..] == segs[1..] == Split(rest, '.');
      Assoc(PARAMS, to + ".", rest);
      Assoc(PARAMS, to, ".");
    }
  }

  /** The renamed reference splits into the renamed segments. */
  lemma RenamedSplit(ref: string, from: string, to: string)
    requires '.' !in from && '.' !in to
    ensures Split(Join(RenamedSegs(Split(ref, '.'), from, to), '.'), '.') == RenamedSegs(Split(ref, '.'), from, to)
  {
    SplitPieces(ref, '.');
    var segs := RenamedSegs(Split(ref, '.'), from, to);
    assert forall p :: p in segs ==> p == to || p in Split(ref, '.');
    SplitJoin(segs, '.');
  }

  /** A reference that resolves keeps its chain of declarations. */
  lemma ResolveRenamed(ps: Declarations, segs: seq<string>, from: string, to: string)
    requires from in ps && to !in ps && Resolve(ps, segs).Some?
    ensures Resolve(RenamedDeclarations(ps, from, to), RenamedSegs(segs, from, to)) == Resolve(ps, segs)
  {
    var ps2 := RenamedDeclarations(ps, from, to);
    var renamed := RenamedSegs(segs, from, to);
    assert renamed[1..] == segs[1..];
    assert ps2[renamed[0]] == ps[segs[0]];
  }

  lemma OtherWiresKept(s: string, from: string, to: string)
    requires !(PARAMS <= s)
    ensures RenameParamRef(s, from, to) == s && RenameLoop(s, from, to) == s
  {
    Longer(PARAMS, from, s);
    Longer(PARAMS, from + ".", s);
    Assoc(PARAMS, from, ".");
  }

  lemma Longer(a: string, x: string, s: string)
    requires !(a <= s)
    ensures !(a + x <= s) && a + x != s
  {
  }
}
