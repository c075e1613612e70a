/** Reference grammars of a blueprint: what `from:` and `when:` may say
    (internal/blueprint/refs.go, internal/blueprint/types.go). */
module Refs {
  import opened Seqs
  import opened Template
  import opened Text

  const PARAMS: string := "params."
  const ENV: string := "env."
  const RESOURCES: string := "resources."
  const STATUS: string := ".status."
  const METADATA: string := ".metadata."
  const META_NAME: string := ".metadata.name"

  /** ^[a-zA-Z_][a-zA-Z0-9_]*$: what may follow a dot in a template. */
  predicate Ident(s: string) {
    s != "" && (Letter(s[0]) || s[0] == '_') && forall c :: c in s ==> Letter(c) || Digit(c) || c == '_'
  }

  datatype FromRef =
    | ParamOf(param: string)
    | EnvOf(key: string)
    | StatusOf(resource: string, path: seq<string>)
    | NameOf(resource: string)

  function ParseFrom(s: string): Option<FromRef> {
    if PARAMS <= s then Some(ParamOf(s[|PARAMS|..]))
    else if ENV <= s then
      var key := s[|ENV|..];
      if Camel(key) then Some(EnvOf(key)) else None
    else if RESOURCES <= s then
      ParseResource(s[|RESOURCES|..])
    else None
  }

  /** A reference the grammar can express. */
  predicate WellFormed(r: FromRef) {
    match r
    case ParamOf(_) => true
    case EnvOf(key) => Camel(key)
    case StatusOf(name, path) => DnsLabel(name) && path != [] && (forall p :: p in path ==> Ident(p))
        && !EndsInMetaName(path)
    case NameOf(name) => DnsLabel(name)
  }

  predicate EndsInMetaName(path: seq<string>) {
    |path| >= 2 && path[|path| - 2] == "metadata" && path[|path| - 1] == "name"
  }

  function Write(r: FromRef): string {
    match r
    case ParamOf(p) => PARAMS + p
    case EnvOf(k) => ENV + k
    case StatusOf(name, path) => RESOURCES + name + STATUS + Join(path, '.')
    case NameOf(name) => RESOURCES + name + META_NAME
  }

  lemma NoDotInDns(s: string)
    requires DnsLabel(s)
    ensures '.' !in s
  {
  }

  lemma NoDotInIdents(path: seq<string>)
    requires forall p :: p in path ==> Ident(p)
    ensures forall p :: p in path ==> '.' !in p
  {
  }

  /** A pattern whose first character is not in name first occurs behind it. */
  lemma FindAfter(name: string, pat: string, rest: string)
    requires pat != "" && pat[0] !in name
    ensures Find(name + pat + rest, pat) == |name|
  {
    var s := name + pat + rest;
    assert s[|name|..] == pat + rest;
    forall i | 0 <= i < |name| ensures !(pat <= s[i..]) {
      assert s[i..][0] == name[i] && name[i] in name;
    }
    FoundHere(s, pat, |name|);
  }

  lemma FoundHere(s: string, pat: string, at: nat)
    requires at <= |s| && pat <= s[at..] && forall i :: 0 <= i < at ==> !(pat <= s[i..])
    ensures Find(s, pat) == at
  {
    var r := Find(s, pat);
    if r >= 0 {
      assert pat <= s[r..];
    }
  }

  /** A string is cut at its last dot in one way. */
  lemma LastDotCuts(a: string, x: string, b: string, y: string)
    requires '.' !in x && '.' !in y
    requires a + "." + x == b + "." + y
    ensures a == b && x == y
  {
    var w := a + "." + x;
    assert w[|a|] == '.' && w[|b|] == '.';
    assert forall i :: 0 <= i < |x| ==> w[|a| + 1 + i] == x[i];
    assert forall i :: 0 <= i < |y| ==> w[|b| + 1 + i] == y[i];
    assert |a| == |b|;
    assert a == w[..|a|] == w[..|b|] == b;
    assert x == w[|a| + 1..] == w[|b| + 1..] == y;
  }

  const META: string := "metadata"
  const NAME: string := "name"

  lemma LastTwo(a: string, mid: string, last: string)
    requires '.' !in mid && '.' !in last
    ensures EndsWith(a + "." + mid + "." + last, META_NAME) <==> mid == META && last == NAME
  {
    var w := a + "." + mid + "." + last;
    assert META_NAME == "." + META + "." + NAME;
    if mid == META && last == NAME {
      assert w == a + META_NAME;
    }
    if EndsWith(w, META_NAME) {
      var c := w[..|w| - |META_NAME|];
      assert w == c + META_NAME == (c + "." + META) + "." + NAME;
      LastDotCuts(a + "." + mid, last, c + "." + META, NAME);
      LastDotCuts(a, mid, c, META);
    }
  }

  /** Behind x and a dot, a path shows its last two segments. */
  lemma {:induction false} LastSegments(x: string, path: seq<string>) returns (a: string)
    requires |path| >= 2
    ensures x + "." + Join(path, '.') == a + "." + path[|path| - 2] + "." + path[|path| - 1]
    ensures |Join(path, '.')| >= |path[|path| - 2]| + 1 + |path[|path| - 1]|
    decreases |path|
  {
    if |path| == 2 {
      a := x;
      assert Join(path[1..], '.') == path[1];
    } else {
      a := LastSegments(x + "." + path[0], path[1..]);
      assert x + "." + (path[0] + "." + Join(path[1..], '.')) == x + "." + path[0] + "." + Join(path[1..], '.');
    }
  }

  lemma StatusDot(before: string)
    ensures before + STATUS == before + "." + "status" + "." && "status" != META && '.' !in "status"
  {
    assert STATUS == "." + "status" + ".";
  }

  /** The written path ends in .metadata.name exactly when its last two
      segments say so. */
  lemma MetaNameTail(path: seq<string>, before: string)
    requires path != [] && forall p :: p in path ==> '.' !in p
    ensures EndsWith(before + STATUS + Join(path, '.'), META_NAME) <==> EndsInMetaName(path)
  {
    assert path[|path| - 1] in path;
    StatusDot(before);
    if |path| == 1 {
      LastTwo(before, "status", path[0]);
    } else {
      assert path[|path| - 2] in path;
      var a := LastSegments(before + "." + "status", path);
      LastTwo(a, path[|path| - 2], path[|path| - 1]);
    }
  }

  /** The prefixes of the three families exclude each other. */
  lemma Families(s: string)
    ensures PARAMS <= s ==> s[0] == 'p'
    ensures ENV <= s ==> s[0] == 'e'
    ensures RESOURCES <= s ==> s[0] == 'r'
  {
    assert PARAMS[0] == 'p' && ENV[0] == 'e' && RESOURCES[0] == 'r';
  }

  /** What ParseFrom makes of the text behind `resources.`. */
  function ParseResource(rest: string): Option<FromRef> {
    if EndsWith(rest, META_NAME) then
      var name := rest[..|rest| - |META_NAME|];
      if DnsLabel(name) then Some(NameOf(name)) else None
    else
      var at := Find(rest, STATUS);
      if at < 0 || at + |STATUS| == |rest| then None
      else
        var name, segs := rest[..at], Split(rest[at + |STATUS|..], '.');
        if DnsLabel(name) && forall p :: p in segs ==> Ident(p) then Some(StatusOf(name, segs)) else None
  }

  lemma ResourceCut(name: string, tail: string)
    requires DnsLabel(name) && tail != "" && !EndsWith(name + STATUS + tail, META_NAME)
    requires forall p :: p in Split(tail, '.') ==> Ident(p)
    ensures ParseResource(name + STATUS + tail) == Some(StatusOf(name, Split(tail, '.')))
  {
    var rest := name + STATUS + tail;
    NoDotInDns(name);
    FindAfter(name, STATUS, tail);
    assert rest[..|name|] == name && rest[|name| + |STATUS|..] == tail;
  }

  lemma ResourceWritten(name: string, path: seq<string>)
    requires DnsLabel(name) && path != [] && forall p :: p in path ==> Ident(p)
    ensures ParseResource(name + STATUS + Join(path, '.')) == (if EndsInMetaName(path) then None
            else Some(StatusOf(name, path)))
  {
    NoDotInIdents(path);
    MetaNameTail(path, name);
    if EndsInMetaName(path) {
      CutHasDot(name, path);
    } else {
      SplitJoin(path, '.');
      assert path[0] in path;
      JoinNonempty(path);
      ResourceCut(name, Join(path, '.'));
    }
  }

  lemma CutHasDot(name: string, path: seq<string>)
    requires EndsInMetaName(path) && DnsLabel(name)
    ensures var rest := name + STATUS + Join(path, '.');
            |rest| >= |META_NAME| && !DnsLabel(rest[..|rest| - |META_NAME|])
  {
    var _ := LastSegments("", path);
    DotInside(name, STATUS, Join(path, '.'), |META_NAME|);
  }

  lemma DotInside(name: string, mid: string, tail: string, cut: nat)
    requires mid != "" && mid[0] == '.' && cut < |mid| + |tail|
    ensures var rest := name + mid + tail; cut <= |rest| && !DnsLabel(rest[..|rest| - cut])
  {
    var rest := name + mid + tail;
    var front := rest[..|rest| - cut];
    assert front[|name|] == '.';
    assert front[|name|] in front;
  }

  /** Parsing undoes writing for every reference the grammar can express. */
  lemma ParseWritten(r: FromRef)
    requires WellFormed(r)
    ensures ParseFrom(Write(r)) == Some(r)
  {
    Families(Write(r));
    match r
    case ParamOf(p) =>
      assert (PARAMS + p)[|PARAMS|..] == p;
    case EnvOf(k) =>
      assert (ENV + k)[|ENV|..] == k;
    case NameOf(name) =>
      var rest := name + META_NAME;
      assert Write(r) == RESOURCES + rest && (RESOURCES + rest)[|RESOURCES|..] == rest;
      assert rest[..|rest| - |META_NAME|] == name;
      assert ParseResource(rest) == Some(r);
    case StatusOf(name, path) =>
      StatusWritten(name, path);
  }

  /** A status path that ends in metadata.name is captured by the earlier
      suffix test and refused: exactly these do not survive the round trip. */
  lemma StatusWritten(name: string, path: seq<string>)
    requires DnsLabel(name) && path != [] && forall p :: p in path ==> Ident(p)
    ensures ParseFrom(Write(StatusOf(name, path))) == (if EndsInMetaName(path) then None
            else Some(StatusOf(name, path)))
  {
    var rest := name + STATUS + Join(path, '.');
    var s := Write(StatusOf(name, path));
    assert s == RESOURCES + rest && (RESOURCES + rest)[|RESOURCES|..] == rest;
    Families(s);
    ResourceWritten(name, path);
  }

  /** And everything accepted is the written form of what it parses to. */
  lemma ParsedWrites(s: string)
    requires ParseFrom(s).Some?
    ensures WellFormed(ParseFrom(s).value) && Write(ParseFrom(s).value) == s
  {
    if PARAMS <= s {
      assert PARAMS + s[|PARAMS|..] == s;
    } else if ENV <= s {
      assert ENV + s[|ENV|..] == s;
    } else {
      assert RESOURCES + s[|RESOURCES|..] == s;
      ResourceParsed(s[|RESOURCES|..]);
    }
  }

  lemma ResourceParsed(rest: string)
    requires ParseResource(rest).Some?
    ensures var r := ParseResource(rest).value;
            WellFormed(r) && (r.NameOf? || r.StatusOf?) && Write(r) == RESOURCES + rest
  {
    if EndsWith(rest, META_NAME) {
      var name := rest[..|rest| - |META_NAME|];
      assert rest == name + META_NAME;
      Assoc(RESOURCES, name, META_NAME);
    } else {
      var at := Find(rest, STATUS);
      var name, tail := rest[..at], rest[at + |STATUS|..];
      JoinSplit(tail, '.');
      Cut(rest, STATUS, at);
      NoDotInIdents(Split(tail, '.'));
      MetaNameTail(Split(tail, '.'), name);
      Assoc(RESOURCES, name + STATUS, tail);
      Assoc(RESOURCES, name, STATUS);
    }
  }

  lemma Cut(s: string, pat: string, at: nat)
    requires at + |pat| <= |s| && s[at..at + |pat|] == pat
    ensures s == s[..at] + pat + s[at + |pat|..]
  {
  }

  lemma JoinNonempty(path: seq<string>)
    requires path != [] && path[0] != ""
    ensures Join(path, '.') != ""
  {
  }

  // ----- StatusRef and MetadataRef -----

  /** resources.<name>.status.<path>, cut at the first `.status.`. */
  function StatusRef(s: string): Option<(string, string)> {
    if !(RESOURCES <= s) then None
    else
      var rest := s[|RESOURCES|..];
      var at := Find(rest, STATUS);
      if at <= 0 || at + |STATUS| == |rest| then None else Some((rest[..at], rest[at + |STATUS|..]))
  }

  function MetadataRef(s: string): Option<(string, string)> {
    if !(RESOURCES <= s) then None
    else
      var rest := s[|RESOURCES|..];
      var at := Find(rest, METADATA);
      if at <= 0 || at + |METADATA| == |rest| then None else Some((rest[..at], rest[at + |METADATA|..]))
  }

  lemma StatusRefWritten(name: string, path: string)
    requires '.' !in name && name != "" && path != ""
    ensures StatusRef(RESOURCES + name + STATUS + path) == Some((name, path))
  {
    var rest := name + STATUS + path;
    assert (RESOURCES + name + STATUS + path)[|RESOURCES|..] == rest;
    FindAfter(name, STATUS, path);
    assert rest[..|name|] == name && rest[|name| + |STATUS|..] == path;
  }

  lemma StatusRefWrites(s: string)
    requires StatusRef(s).Some?
    ensures s == RESOURCES + StatusRef(s).value.0 + STATUS + StatusRef(s).value.1
  {
    var rest := s[|RESOURCES|..];
    var at := Find(rest, STATUS);
    FoundAt(rest, STATUS);
    Cut(rest, STATUS, at);
    assert s == RESOURCES + rest;
    Assoc(RESOURCES, rest[..at] + STATUS, rest[at + |STATUS|..]);
    Assoc(RESOURCES, rest[..at], STATUS);
  }

  lemma MetadataRefWritten(name: string)
    requires '.' !in name && name != ""
    ensures MetadataRef(RESOURCES + name + META_NAME) == Some((name, "name"))
  {
    var rest := name + META_NAME;
    assert (RESOURCES + name + META_NAME)[|RESOURCES|..] == rest;
    assert rest == name + METADATA + "name";
    FindAfter(name, METADATA, "name");
    assert rest[..|name|] == name && rest[|name| + |METADATA|..] == "name";
  }

  // ----- when -----

  datatype When = When(source: string, name: string, op: string, literal: string)

  predicate PlainLiteral(s: string) {
    '"' !in s && '\\' !in s
  }

  function ParseWhen(s: string): Option<When> {
    if PARAMS <= s then ParseTest("params", s[|PARAMS|..])
    else if ENV <= s then ParseTest("env", s[|ENV|..])
    else None
  }

  function ParseTest(source: string, rest: string): Option<When> {
    if Camel(rest) then Some(When(source, rest, "", ""))
    else
      var sp := Find(rest, " ");
      if sp < 0 || !Camel(rest[..sp]) then None else ParseComparison(source, rest[..sp], rest[sp..])
  }

  /** ` == "literal"` or ` != "literal"`. */
  function ParseComparison(source: string, name: string, tail: string): Option<When> {
    if |tail| < 6 || tail[|tail| - 1] != '"' || !PlainLiteral(tail[5..|tail| - 1]) then None
    else if tail[..5] == " == \"" then Some(When(source, name, "==", tail[5..|tail| - 1]))
    else if tail[..5] == " != \"" then Some(When(source, name, "!=", tail[5..|tail| - 1]))
    else None
  }

  predicate WellWhen(w: When) {
    && (w.source == "params" || w.source == "env")
    && Camel(w.name)
    && (if w.op == "" then w.literal == "" else (w.op == "==" || w.op == "!=") && PlainLiteral(w.literal))
  }

  function WriteTest(w: When): string {
    if w.op == "" then w.name else w.name + (" " + w.op + " \"" + w.literal + "\"")
  }

  function WriteWhen(w: When): string {
    w.source + "." + WriteTest(w)
  }

  lemma ComparisonWritten(w: When)
    requires WellWhen(w) && w.op != ""
    ensures ParseComparison(w.source, w.name, " " + w.op + " \"" + w.literal + "\"") == Some(w)
  {
    var tail := " " + w.op + " \"" + w.literal + "\"";
    assert tail[5..|tail| - 1] == w.literal;
    assert tail[..5] == " " + w.op + " \"";
    assert (" " + w.op + " \"")[1..3] == w.op;
    assert " == \""[1..3] == "==" && " != \""[1..3] == "!=";
  }

  /** A name in front of the first space is the tested name. */
  lemma TestCut(source: string, name: string, tail: string)
    requires Camel(name) && tail != "" && tail[0] == ' '
    ensures ParseTest(source, name + tail) == ParseComparison(source, name, tail)
  {
    var rest := name + tail;
    NoSpaceInCamel(name);
    assert rest[|name|] == ' ' && rest[|name|] in rest;
    FindAfter(name, " ", tail[1..]);
    assert name + " " + tail[1..] == rest;
    assert rest[..|name|] == name && rest[|name|..] == tail;
  }

  lemma TestWritten(w: When)
    requires WellWhen(w)
    ensures ParseTest(w.source, WriteTest(w)) == Some(w)
  {
    if w.op != "" {
      ComparisonWritten(w);
      TestCut(w.source, w.name, " " + w.op + " \"" + w.literal + "\"");
    }
  }

  /** A when expression has exactly one written form: the reprint of its parse. */
  lemma WhenWritten(w: When)
    requires WellWhen(w)
    ensures ParseWhen(WriteWhen(w)) == Some(w)
  {
    TestWritten(w);
    WhenSource(w.source, WriteTest(w));
  }

  lemma WhenSource(source: string, test: string)
    requires source == "params" || source == "env"
    ensures ParseWhen(source + "." + test) == ParseTest(source, test)
  {
    Families(source + "." + test);
    if source == "params" {
      assert source + "." == PARAMS;
      assert (PARAMS + test)[|PARAMS|..] == test;
    } else {
      assert source + "." == ENV;
      assert (ENV + test)[|ENV|..] == test;
    }
  }

  lemma NoSpaceInCamel(name: string)
    requires Camel(name)
    ensures ' ' !in name
  {
  }

  lemma TestParsed(source: string, rest: string)
    requires ParseTest(source, rest).Some? && (source == "params" || source == "env")
    ensures var w := ParseTest(source, rest).value; WellWhen(w) && w.source == source && WriteTest(w) == rest
  {
    if !Camel(rest) {
      var sp := Find(rest, " ");
      assert rest == rest[..sp] + rest[sp..];
      ComparisonParsed(source, rest[..sp], rest[sp..]);
    }
  }

  lemma ComparisonParsed(source: string, name: string, tail: string)
    requires ParseComparison(source, name, tail).Some?
    ensures var w := ParseComparison(source, name, tail).value;
            && w.source == source && w.name == name && (w.op == "==" || w.op == "!=") && PlainLiteral(w.literal)
            && tail == " " + w.op + " \"" + w.literal + "\""
  {
    var w := ParseComparison(source, name, tail).value;
    assert tail[..5] == " " + w.op + " \"";
    assert tail[|tail| - 1..] == "\"";
    assert tail == tail[..5] + tail[5..|tail| - 1] + tail[|tail| - 1..];
  }

  lemma WhenParsed(s: string)
    requires ParseWhen(s).Some?
    ensures WellWhen(ParseWhen(s).value) && WriteWhen(ParseWhen(s).value) == s
  {
    if PARAMS <= s {
      TestParsed("params", s[|PARAMS|..]);
      assert s == PARAMS + s[|PARAMS|..] && PARAMS == "params" + ".";
    } else {
      TestParsed("env", s[|ENV|..]);
      assert s == ENV + s[|ENV|..] && ENV == "env" + ".";
    }
  }
}
