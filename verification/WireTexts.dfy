/** The references of a blueprint by their texts: what each spelling leads to
    in the composite, the environment and the observed resources
    (internal/blueprint/refs.go, internal/emit/annotations.go:108-203). */
module WireTexts {
  import opened Template
  import opened Text
  import opened Numbers
  import opened Refs
  import opened Params
  import opened Blueprint
  import opened Wires

  lemma Stripped(prefix: string, rest: string)
    ensures prefix <= prefix + rest && (prefix + rest)[|prefix|..] == rest
  {
  }

  /** A parameter path is walked from the composite's spec. */
  lemma ParamReads(d: Document, path: string, ctx: Context, number: string -> real)
    ensures WireValue(d, "params." + path, ctx, number) == Walk(Dict(ctx.spec), Split(path, '.'))
  {
    Stripped("params.", path);
    assert PARAMS == "params.";
  }

  lemma WalkOne(m: map<string, Value>, a: string)
    ensures Walk(Dict(m), [a]) == if a in m then Some(m[a]) else None
  {
    assert [a][1..] == [];
  }

  lemma WalkTwo(m: map<string, Value>, a: string, b: string)
    ensures Walk(Dict(m), [a, b]) ==
            if a in m && m[a].Dict? && b in m[a].fields then Some(m[a].fields[b]) else None
  {
    assert [a, b][1..] == [b];
    if a in m && m[a].Dict? {
      WalkOne(m[a].fields, b);
    }
  }

  /** One segment reads a key of the spec, two a key of the object there. */
  lemma ParamSegments(d: Document, a: string, b: string, ctx: Context, number: string -> real)
    requires '.' !in a && '.' !in b
    ensures WireValue(d, "params." + a, ctx, number) == if a in ctx.spec then Some(ctx.spec[a]) else None
    ensures WireValue(d, "params." + (a + ['.'] + b), ctx, number) ==
            if a in ctx.spec && ctx.spec[a].Dict? && b in ctx.spec[a].fields then Some(ctx.spec[a].fields[b]) else None
  {
    ParamReads(d, a, ctx, number);
    ParamReads(d, a + ['.'] + b, ctx, number);
    SplitPlain(a, '.');
    SplitPlain(b, '.');
    SplitHead(a, b, '.');
    WalkOne(ctx.spec, a);
    WalkTwo(ctx.spec, a, b);
    assert [a] + [b] == [a, b];
  }

  /** An environment key reads its value; an absent one its default, and with a
      default an empty string counts as absent. */
  lemma EnvReads(d: Document, key: string, ctx: Context, number: string -> real)
    requires Camel(key) && key in d.environment
    ensures var decl, v := d.environment[key], WireValue(d, "env." + key, ctx, number);
            if key in ctx.env && (decl.default == "" || decl.typ != "string" || ctx.env[key] != Str("")) then
              v == Some(ctx.env[key])
            else if decl.default == "" then v == None
            else
              && (decl.typ == "string" ==> v == Some(Str(decl.default)))
              && (decl.typ == "boolean" ==> v == Some(Bool(decl.default == "true")))
              && (decl.typ == "integer" && TemplateInt(decl.default).Some? && !Marked(decl.default) ==>
                  v == Some(Num(TemplateInt(decl.default).value as real)))
  {
    var s := "env." + key;
    Stripped("env.", key);
    assert ENV == "env." && PARAMS[0] == 'p' && s[0] == 'e';
  }

  /** An observed status is walked from the observed resource of that name. */
  lemma StatusReads(d: Document, name: string, path: seq<string>, ctx: Context, number: string -> real)
    requires WellFormed(StatusOf(name, path))
    ensures WireValue(d, "resources." + name + ".status." + Join(path, '.'), ctx, number) ==
            Walk(Dict(ctx.observed), ["resources", name, "resource", "status"] + path)
  {
    ParseWritten(StatusOf(name, path));
    assert RESOURCES == "resources." && STATUS == ".status.";
    assert Write(StatusOf(name, path)) == "resources." + name + ".status." + Join(path, '.');
  }

  /** And the name of a resource is no value but that name. */
  lemma NameReads(name: string)
    requires DnsLabel(name)
    ensures ParseFrom("resources." + name + ".metadata.name") == Some(NameOf(name))
  {
    ParseWritten(NameOf(name));
    assert RESOURCES == "resources." && META_NAME == ".metadata.name";
  }

  // ----- conditions and loop bounds -----

  /** A condition tests the value its reference reads: a bare one for being
      true, the others for being, or not being, the text. An absent value is
      neither. */
  lemma TestReads(d: Document, w: When, ctx: Context, number: string -> real)
    requires WellWhen(w) && (w.source == "env" ==> w.name in d.environment) && '.' !in w.name
    ensures var v := WireValue(d, w.source + "." + w.name, ctx, number);
            && TestedValue(d, w, ctx, number) == v
            && (w.op == "" ==> (Passes(w, v) <==> v == Some(Bool(true))))
            && (w.op == "==" ==> (Passes(w, v) <==> v == Some(Str(w.literal))))
            && (w.op == "!=" ==> (Passes(w, v) <==> v != Some(Str(w.literal))))
  {
    if w.source == "params" {
      assert w.source + "." + w.name == "params." + w.name;
      ParamSegments(d, w.name, "", ctx, number);
    } else {
      var s := w.source + "." + w.name;
      assert s == "env." + w.name;
      Stripped("env.", w.name);
      assert ENV == "env." && PARAMS[0] == 'p' && s[0] == 'e';
    }
  }

  /** A loop bound reads what a wire of the same text reads. */
  lemma BoundReads(d: Document, s: string, ctx: Context, number: string -> real)
    requires ParseFrom(s).Some? && !ParseFrom(s).value.NameOf?
    requires PARAMS <= s ==> '.' !in s[|PARAMS|..]
    ensures LoopValue(d, s, ctx, number) == WireValue(d, s, ctx, number)
  {
    Families(s);
    if PARAMS <= s {
      SplitPlain(s[|PARAMS|..], '.');
      WalkOne(ctx.spec, s[|PARAMS|..]);
    } else if RESOURCES <= s {
      var r := ParseFrom(s).value;
      ParsedWrites(s);
      StatusBound(r.resource, r.path);
    }
  }

  lemma StatusBound(name: string, path: seq<string>)
    requires WellFormed(StatusOf(name, path))
    ensures var s := Write(StatusOf(name, path));
            StatusRef(s) == Some((name, Join(path, '.'))) && Split(Join(path, '.'), '.') == path
  {
    NoDotInDns(name);
    NoDotInIdents(path);
    assert path[0] in path;
    JoinNonempty(path);
    StatusRefWritten(name, Join(path, '.'));
    SplitJoin(path, '.');
  }

  /** `until` of a count runs from zero up to it, of a negative one down. */
  lemma UntilRuns(n: int, k: nat)
    ensures UntilCount(n as real) == if n >= 0 then n else -n
    ensures UntilItem(n as real, k) == if n >= 0 then k as int else -(k as int)
  {
  }
}
