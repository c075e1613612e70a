/** Looking a scalar up in a document by its path of keys. */
module Lookup {
  import opened Template
  import opened Text
  import opened Yaml
  import opened EnvelopeOrder

  /** The node under a key. */
  function Child(es: seq<Entry>, key: string): Option<Node> {
    if es == [] then None else if es[0].key == key then Some(es[0].node) else Child(es[1..], key)
  }

  /** The node at a path of keys. */
  function NodeAt(es: seq<Entry>, path: seq<string>): Option<Node>
    requires path != []
    decreases |path|
  {
    var n := Child(es, path[0]);
    if |path| == 1 then n
    else if n.Some? && n.value.Mapping? then NodeAt(n.value.entries, path[1..])
    else None
  }

  lemma {:induction false} ChildAppend(a: seq<Entry>, b: seq<Entry>, key: string)
    ensures Child(a + b, key) == if Child(a, key).Some? then Child(a, key) else Child(b, key)
  {
    if a == [] {
      assert a + b == b;
    } else {
      assert (a + b)[1..] == a[1..] + b;
      ChildAppend(a[1..], b, key);
    }
  }

  lemma ChildOne(e: Entry, key: string)
    ensures Child([e], key) == if e.key == key then Some(e.node) else None
  {
    assert [e][1..] == [];
  }

  lemma {:induction false} ChildIn(es: seq<Entry>, key: string)
    ensures Child(es, key).None? <==> forall e :: e in es ==> e.key != key
    ensures Child(es, key).Some? ==> exists e :: e in es && e.key == key && e.node == Child(es, key).value
  {
    if es != [] {
      ChildIn(es[1..], key);
      assert es == [es[0]] + es[1..];
      assert es[0] in es;
    }
  }

  /** Below one key of a document. */
  lemma Below(es: seq<Entry>, key: string, sub: seq<Entry>, path: seq<string>)
    requires Child(es, key) == Some(Mapping(sub)) && path != []
    ensures NodeAt(es, [key] + path) == NodeAt(sub, path)
  {
    assert ([key] + path)[1..] == path;
  }

  lemma {:induction false} HeadOfLeaf(es: seq<Entry>, path: seq<string>, s: Scalar)
    requires (path, s) in Leaves(es)
    ensures path != [] && exists e :: e in es && e.key == path[0]
    decreases es
  {
    var here := Under(es[0].key, NodeLeaves(es[0].node));
    assert es == [es[0]] + es[1..];
    if (path, s) in here {
      var i :| 0 <= i < |here| && here[i] == (path, s);
      assert es[0] in es && path[0] == es[0].key;
    } else {
      HeadOfLeaf(es[1..], path, s);
    }
  }

  lemma InUnder(key: string, ls: seq<(seq<string>, Scalar)>, path: seq<string>, s: Scalar)
    requires path != []
    ensures (path, s) in Under(key, ls) <==> path[0] == key && (path[1..], s) in ls
  {
    var here := Under(key, ls);
    if (path, s) in here {
      var i :| 0 <= i < |here| && here[i] == (path, s);
      assert path[1..] == ls[i].0;
    }
    if path[0] == key && (path[1..], s) in ls {
      var i :| 0 <= i < |ls| && ls[i] == (path[1..], s);
      assert here[i] == ([key] + path[1..], s) && [key] + path[1..] == path;
    }
  }

  lemma KeysApart(es: seq<Entry>)
    requires KeysDistinct(es) && es != []
    ensures KeysDistinct(es[1..]) && NodeKeysDistinct(es[0].node)
    ensures forall e :: e in es[1..] ==> e.key != es[0].key
  {
    assert es[0] in es;
  }

  /** Where no mapping has a key twice, what is found at a path is the scalar
      that is listed for it, and nothing is listed that is not found. */
  lemma {:induction false} LeafFound(es: seq<Entry>, path: seq<string>, s: Scalar)
    requires KeysDistinct(es) && path != []
    ensures NodeAt(es, path) == Some(Leaf(s)) <==> (path, s) in Leaves(es)
    decreases es
  {
    if es != [] {
      KeysApart(es);
      InUnder(es[0].key, NodeLeaves(es[0].node), path, s);
      if path[0] == es[0].key {
        if (path, s) in Leaves(es[1..]) {
          HeadOfLeaf(es[1..], path, s);
        }
        LeafUnder(es[0].node, path[1..], s);
      } else {
        assert Child(es, path[0]) == Child(es[1..], path[0]);
        LeafFound(es[1..], path, s);
      }
    }
  }

  lemma {:induction false} LeafUnder(n: Node, rest: seq<string>, s: Scalar)
    requires NodeKeysDistinct(n)
    ensures (rest, s) in NodeLeaves(n) <==>
            if rest == [] then n == Leaf(s) else n.Mapping? && NodeAt(n.entries, rest) == Some(Leaf(s))
    decreases n
  {
    if n.Mapping? {
      if rest == [] {
        if (rest, s) in Leaves(n.entries) {
          HeadOfLeaf(n.entries, rest, s);
        }
      } else {
        LeafFound(n.entries, rest, s);
      }
    }
  }

  /** Sorted keys are distinct. */
  lemma {:induction false} IncreasingDistinct(es: seq<Entry>)
    requires KeysIncrease(es)
    ensures KeysDistinct(es)
    decreases es
  {
    forall i, j | 0 <= i < j < |es| ensures es[i].key != es[j].key {
      LessTrichotomy(es[i].key, es[j].key);
    }
    forall e | e in es ensures NodeKeysDistinct(e.node) {
      if e.node.Mapping? {
        IncreasingDistinct(e.node.entries);
      }
    }
  }
}
