/** How adoption reads the target path of a patch
    (internal/adopt/adopt.go:3001-3037, 3978-4010). */
module FieldPaths {
  import opened Template
  import opened Text
  import opened Blueprint

  /** isMapFieldPrefix: what stands behind such a path is a key of a map. */
  predicate MapPrefix(prefix: string, key: string) {
    if prefix in {"data", "stringData", "binaryData"} || Lower(prefix) == "tags" then true
    else if prefix == "spec.selector" then key != "matchLabels" && key != "matchExpressions"
    else
      || EndsWith(Lower(prefix), "labels") || EndsWith(Lower(prefix), "annotations") || EndsWith(Lower(prefix), "tags")
      || EndsWith(Lower(prefix), "nodeselector")
  }

  /** normalizeMapFieldPath, behind the rewriting of quoted brackets (plain): a
      last segment that is a key of a map goes into brackets. */
  function Normal(plain: string -> string, path: string): string {
    var p := plain(path);
    var at := LastIndex(p, '.');
    if EndsWith(p, "]") || at == -1 || !MapPrefix(p[..at], p[at + 1..]) then p
    else p[..at] + "[" + p[at + 1..] + "]"
  }

  /** isAdoptMapField. */
  predicate MapField(path: string) {
    var lower := Lower(path);
    '[' !in path && exists m :: m in MAP_FIELDS && (lower == m || EndsWith(lower, "." + m))
  }

  const MAP_FIELDS: set<string> :=
    {"tags", "labels", "annotations", "data", "stringdata", "binarydata", "matchlabels", "nodeselector"}

  /** isAdoptMapTargetWithFields: a map by its name, or one that some resource
      already sets key by key. */
  predicate MapTarget(path: string, known: set<string>) {
    MapField(path) || ('[' !in path && exists f :: f in known && path + "[" <= f)
  }

  /** isValidEnvelopeKey. */
  predicate EnvelopeKey(key: string) {
    key != "" && forall p :: p in Split(key, '.') ==> Camel(p) && !YamlKeyword(p)
  }

  lemma {:induction false} LastAt(a: string, c: char, b: string)
    requires c !in b
    ensures LastIndex(a + [c] + b, c) == |a|
    decreases |b|
  {
    var s := a + [c] + b;
    if b != "" {
      var n := |b| - 1;
      assert s[|s| - 1] == b[n] && s[..|s| - 1] == a + [c] + b[..n];
      LastAt(a, c, b[..n]);
    }
  }

  lemma Folded(plain: string -> string, path: string, prefix: string, key: string)
    requires plain(path) == prefix + ['.'] + key && '.' !in key
    requires MapPrefix(prefix, key) && !EndsWith(key, "]")
    ensures Normal(plain, path) == prefix + "[" + key + "]"
  {
    var p := plain(path);
    LastAt(prefix, '.', key);
    assert p[..|prefix|] == prefix && p[|prefix| + 1..] == key;
    assert p[|p| - 1..] == [p[|p| - 1]];
    if key != "" {
      assert key[|key| - 1..] == [key[|key| - 1]] && p[|p| - 1] == key[|key| - 1];
    }
  }

  lemma Bracketed(p: string, prefix: string, key: string)
    requires p != "" && p[|p| - 1] == ']' && LastIndex(p, '[') == |prefix| > 0
    requires p[..|prefix|] == prefix && p[|prefix| + 1..|p| - 1] == key
    ensures MapKey(p) ==
            if key != "" && forall c :: c in key ==> Digit(c) then None else Some((prefix, TrimQuotes(key)))
  {
  }

  lemma KeyRead(prefix: string, key: string)
    requires prefix != "" && '[' !in key
    ensures MapKey(prefix + ['['] + (key + "]")) ==
            if key != "" && forall c :: c in key ==> Digit(c) then None else Some((prefix, TrimQuotes(key)))
  {
    var n := prefix + ['['] + (key + "]");
    LastAt(prefix, '[', key + "]");
    Bracketed(n, prefix, key);
  }

  /** What was put into brackets is what validation reads as a map and its key,
      unless the key is all digits. */
  lemma NormalKey(plain: string -> string, path: string, prefix: string, key: string)
    requires plain(path) == prefix + ['.'] + key && prefix != "" && '.' !in key && '[' !in key
    requires MapPrefix(prefix, key) && !EndsWith(key, "]")
    ensures MapKey(Normal(plain, path)) ==
            if key != "" && forall c :: c in key ==> Digit(c) then None else Some((prefix, TrimQuotes(key)))
  {
    Folded(plain, path, prefix, key);
    KeyRead(prefix, key);
    assert prefix + "[" + key + "]" == prefix + ['['] + (key + "]");
  }
}
