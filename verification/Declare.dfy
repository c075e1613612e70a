/** Adoption declares the parameters it finds references to
    (internal/adopt/adopt.go:3445-3500). */
module Declare {
  import opened Seqs
  import opened Template
  import opened Text
  import opened Params

  function Fresh(typ: string): Parameter {
    Parameter(typ, false, "", [], map[])
  }

  /** The declarations with a path of members declared, intermediate ones as objects. */
  function WithPath(ps: Declarations, parts: seq<string>, typ: string): Declarations
    requires parts != []
    decreases |parts|
  {
    var head := parts[0];
    if |parts| == 1 then
      if head !in ps then ps[head := Fresh(typ)]
      else if typ != "string" && ps[head].typ == "string" then ps[head := ps[head].(typ := typ)]
      else ps
    else
      var p := if head in ps then ps[head].(typ := "object") else Fresh("object");
      ps[head := p.(properties := WithPath(p.properties, parts[1..], typ))]
  }

  /** The declaration at a path of members, whatever their types. */
  function MemberAt(ps: Declarations, parts: seq<string>): Option<Parameter>
    requires parts != []
    decreases |parts|
  {
    if parts[0] !in ps then None
    else if |parts| == 1 then Some(ps[parts[0]])
    else MemberAt(ps[parts[0]].properties, parts[1..])
  }

  /** insertParamIntoMap, which updates the map it is given. */
  method InsertParam(ps: Declarations, parts: seq<string>, typ: string) returns (out: Declarations)
    requires parts != []
    ensures out == WithPath(ps, parts, typ)
    decreases |parts|
  {
    out := ps;
    var head := parts[0];
    if |parts| == 1 {
      if head !in out {
        out := out[head := Fresh(typ)];
      } else {
        var p := out[head];
        if typ != "string" && p.typ == "string" {
          p := p.(typ := typ);
          out := out[head := p];
        }
      }
      return;
    }
    var p;
    if head !in out {
      p := Fresh("object");
    } else {
      p := out[head];
      if p.typ != "object" {
        p := p.(typ := "object");
      }
    }
    var properties := InsertParam(p.properties, parts[1..], typ);
    p := p.(properties := properties);
    out := out[head := p];
  }

  /** What was declared is resolvable. */
  lemma {:induction false} DeclaredResolves(ps: Declarations, parts: seq<string>, typ: string)
    requires parts != []
    ensures Resolve(WithPath(ps, parts, typ), parts).Some?
    decreases |parts|
  {
    if |parts| > 1 {
      var p := if parts[0] in ps then ps[parts[0]].(typ := "object") else Fresh("object");
      DeclaredResolves(p.properties, parts[1..], typ);
      var inner := WithPath(p.properties, parts[1..], typ);
      assert parts[1..][0] in inner;
    }
  }

  /** Required marks, defaults and enumerations stay; a type changes only to
      object, or away from string. */
  predicate SameMarks(p: Parameter, q: Parameter) {
    && q.required == p.required && q.default == p.default && q.enum == p.enum
    && (q.typ == p.typ || q.typ == "object" || p.typ == "string")
  }

  /** The reference leads along the declarations it led along before. */
  predicate StillResolves(ps: Declarations, qs: Declarations, segs: seq<string>) {
    var r, q := Resolve(ps, segs), Resolve(qs, segs);
    r.Some? ==> q.Some? && forall k :: 0 <= k < |segs| ==> SameMarks(r.value[k], q.value[k])
  }

  /** And nothing that was resolvable is lost. */
  lemma {:induction false} DeclaredKeeps(ps: Declarations, parts: seq<string>, typ: string, segs: seq<string>)
    requires parts != [] && Resolve(ps, segs).Some?
    ensures StillResolves(ps, WithPath(ps, parts, typ), segs)
    decreases |segs|
  {
    var out := WithPath(ps, parts, typ);
    var decl := ps[segs[0]];
    assert SameMarks(decl, out[segs[0]]);
    if |segs| > 1 {
      if |parts| > 1 && parts[0] == segs[0] {
        DeclaredKeeps(decl.properties, parts[1..], typ, segs[1..]);
        assert out[segs[0]].properties == WithPath(decl.properties, parts[1..], typ);
        assert segs[1..][0] in out[segs[0]].properties;
      } else {
        assert out[segs[0]].typ == "object" && out[segs[0]].properties == decl.properties;
      }
      ChainCons(ps, out, segs);
    }
  }

  lemma ChainCons(ps: Declarations, qs: Declarations, segs: seq<string>)
    requires |segs| > 1 && Resolve(ps, segs).Some? && segs[0] in qs && SameMarks(ps[segs[0]], qs[segs[0]])
    requires qs[segs[0]].typ == "object" && qs[segs[0]].properties != map[]
    requires StillResolves(ps[segs[0]].properties, qs[segs[0]].properties, segs[1..])
    ensures StillResolves(ps, qs, segs)
  {
    var r, q := Resolve(ps, segs).value, Resolve(qs, segs).value;
    assert r[1..] == Resolve(ps[segs[0]].properties, segs[1..]).value;
    assert q[1..] == Resolve(qs[segs[0]].properties, segs[1..]).value;
    forall k | 0 <= k < |segs| ensures SameMarks(r[k], q[k]) {
      if k > 0 {
        assert r[k] == r[1..][k - 1] && q[k] == q[1..][k - 1];
      }
    }
  }

  /** What is declared where afterwards. At the path: what stood there, a string
      turned into the type asked for, or a fresh declaration of that type. On
      the way: objects, otherwise as they were, or fresh. Elsewhere: what stood
      there before. */
  lemma {:induction false} DeclaredExact(ps: Declarations, parts: seq<string>, typ: string, segs: seq<string>)
    requires parts != [] && segs != []
    ensures var q, p := MemberAt(WithPath(ps, parts, typ), segs), MemberAt(ps, segs);
            && (segs == parts ==> q == Some(
                if p.None? then Parameter(typ, false, "", [], map[])
                else if p.value.typ == "string" then p.value.(typ := typ)
                else p.value))
            && (segs < parts ==>
                && q.Some? && q.value.typ == "object"
                && (p.Some? ==> SameMarks(p.value, q.value))
                && (p.None? ==> SameMarks(Parameter("object", false, "", [], map[]), q.value)))
            && (!(segs <= parts) ==> q == p)
    decreases |parts|
  {
    var out := WithPath(ps, parts, typ);
    PrefixCons(segs, parts);
    if segs[0] == parts[0] && |parts| > 1 && |segs| > 1 {
      var p := if parts[0] in ps then ps[parts[0]].(typ := "object") else Fresh("object");
      assert out[parts[0]].properties == WithPath(p.properties, parts[1..], typ);
      DeclaredExact(p.properties, parts[1..], typ, segs[1..]);
      assert segs == parts <==> segs[1..] == parts[1..] by {
        assert segs == [segs[0]] + segs[1..] && parts == [parts[0]] + parts[1..];
      }
    } else if segs[0] == parts[0] && |segs| == 1 {
      assert |parts| == 1 <==> segs == parts;
    }
  }

  /** A run of declarations. */
  function WithPaths(ps: Declarations, run: seq<(seq<string>, string)>): Declarations
    requires forall i :: 0 <= i < |run| ==> run[i].0 != []
    decreases |run|
  {
    if run == [] then ps else WithPaths(WithPath(ps, run[0].0, run[0].1), run[1..])
  }

  lemma {:induction false} RunKeeps(ps: Declarations, run: seq<(seq<string>, string)>, segs: seq<string>)
    requires (forall i :: 0 <= i < |run| ==> run[i].0 != []) && Resolve(ps, segs).Some?
    ensures Resolve(WithPaths(ps, run), segs).Some? && StillResolves(ps, WithPaths(ps, run), segs)
    decreases |run|
  {
    if run != [] {
      var next := WithPath(ps, run[0].0, run[0].1);
      DeclaredKeeps(ps, run[0].0, run[0].1, segs);
      RunKeeps(next, run[1..], segs);
      MarksTwice(ps, next, WithPaths(ps, run), segs);
    }
  }

  lemma MarksTwice(ps: Declarations, qs: Declarations, rs: Declarations, segs: seq<string>)
    requires Resolve(ps, segs).Some? && StillResolves(ps, qs, segs) && StillResolves(qs, rs, segs)
    ensures StillResolves(ps, rs, segs)
  {
    forall k | 0 <= k < |segs| ensures SameMarks(Resolve(ps, segs).value[k], Resolve(rs, segs).value[k]) {
      assert SameMarks(Resolve(ps, segs).value[k], Resolve(qs, segs).value[k]);
      assert SameMarks(Resolve(qs, segs).value[k], Resolve(rs, segs).value[k]);
    }
  }

  /** However often and in whatever order paths are declared, each one declared
      resolves at the end, and so does all that resolved before. */
  lemma {:induction false} RunResolves(ps: Declarations, run: seq<(seq<string>, string)>, i: nat)
    requires (forall j :: 0 <= j < |run| ==> run[j].0 != []) && i < |run|
    ensures Resolve(WithPaths(ps, run), run[i].0).Some?
    decreases |run|
  {
    var next := WithPath(ps, run[0].0, run[0].1);
    if i == 0 {
      DeclaredResolves(ps, run[0].0, run[0].1);
      RunKeeps(next, run[1..], run[0].0);
    } else {
      RunResolves(next, run[1..], i - 1);
    }
  }
}
