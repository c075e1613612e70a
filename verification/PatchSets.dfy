/** Patch sets nested in patch sets: the order they are applied in, and exactly
    when one is reported as circular (internal/adopt/adopt.go:3139-3156). */
module PatchSets {
  import opened Seqs
  import opened Template
  import opened Patches

  // ----- first to last -----

  /** Each patch is applied, whole, to what those before it have left. */
  function InTurn(s: State, rules: Rules, table: Table, ps: seq<Patch>, visited: set<string>): State
    decreases |ps|
  {
    if ps == [] then s
    else InTurn(AllApplied(s, rules, Reached(table, ps[0], visited)), rules, table, ps[1..], visited)
  }

  lemma {:induction false} ReachedTwo(table: Table, a: seq<Patch>, b: seq<Patch>, visited: set<string>)
    ensures ReachedAll(table, a + b, visited) == ReachedAll(table, a, visited) + ReachedAll(table, b, visited)
    decreases |b|
  {
    if b == [] {
      assert a + b == a;
    } else {
      var init := b[..|b| - 1];
      assert (a + b)[..|a + b| - 1] == a + init && (a + b)[|a + b| - 1] == b[|b| - 1];
      ReachedTwo(table, a, init, visited);
    }
  }

  lemma {:induction false} AppliedInTurn(s: State, rules: Rules, table: Table, ps: seq<Patch>, visited: set<string>)
    ensures AllApplied(s, rules, ReachedAll(table, ps, visited)) == InTurn(s, rules, table, ps, visited)
    decreases |ps|
  {
    if ps != [] {
      assert ps == [ps[0]] + ps[1..] && [ps[0]][..0] == [];
      ReachedTwo(table, [ps[0]], ps[1..], visited);
      assert ReachedAll(table, [ps[0]], visited) == Reached(table, ps[0], visited);
      AppliedTwo(s, rules, Reached(table, ps[0], visited), ReachedAll(table, ps[1..], visited));
      AppliedInTurn(AllApplied(s, rules, Reached(table, ps[0], visited)), rules, table, ps[1..], visited);
    }
  }

  /** A patch set that is found and not being expanded already applies its
      patches first to last, each to what the one before has left. */
  lemma SetInTurn(s: State, rules: Rules, table: Table, p: Patch, visited: set<string>)
    requires p.Patch? && p.typ == "PatchSet" && p.patchSet in table && p.patchSet !in visited
    ensures AllApplied(s, rules, Reached(table, p, visited)) ==
            InTurn(if p.transforms then s.(losses := s.losses + [Transforms]) else s, rules, table,
                   table[p.patchSet], visited + {p.patchSet})
  {
    OneFewer(table, p.patchSet, visited);
    var head := if p.transforms then [Gone(Transforms)] else [];
    AppliedTwo(s, rules, head, ReachedAll(table, table[p.patchSet], visited + {p.patchSet}));
    AppliedOne(s, rules, Gone(Transforms));
    AppliedInTurn(AllApplied(s, rules, head), rules, table, table[p.patchSet], visited + {p.patchSet});
  }

  // ----- circles -----

  predicate IsSet(p: Patch, name: string) {
    p.Patch? && p.typ == "PatchSet" && p.patchSet == name
  }

  ghost predicate Nests(table: Table, a: string, b: string) {
    a in table && exists p :: p in table[a] && IsSet(p, b)
  }

  /** Sets of the table, each nested in the one before. */
  ghost predicate Chain(table: Table, path: seq<string>) {
    && (forall x :: x in path ==> x in table)
    && forall i :: 0 <= i < |path| - 1 ==> Nests(table, path[i], path[i + 1])
  }

  function Front(path: seq<string>): seq<string>
    requires path != []
  {
    path[..|path| - 1]
  }

  /** The chain leads through new sets, each once, and then back. */
  ghost predicate Circle(table: Table, visited: set<string>, path: seq<string>) {
    && path != [] && Chain(table, path) && Distinct(Front(path))
    && (forall x :: x in Front(path) ==> x !in visited)
    && (path[|path| - 1] in visited || path[|path| - 1] in Front(path))
  }

  ghost predicate CircleFrom(table: Table, visited: set<string>, first: string, last: string) {
    exists path :: Circle(table, visited, path) && path[0] == first && path[|path| - 1] == last
  }

  ghost predicate CircleOf(table: Table, visited: set<string>, p: Patch, last: string) {
    p.Patch? && p.typ == "PatchSet" && CircleFrom(table, visited, p.patchSet, last)
  }

  lemma CircleHere(table: Table, visited: set<string>, first: string, last: string)
    requires first in table && first in visited
    ensures CircleFrom(table, visited, first, last) <==> first == last
  {
    if first == last {
      assert Circle(table, visited, [first]);
    }
    forall path: seq<string> | |path| > 1 ensures path[0] in Front(path) {
      assert Front(path)[0] == path[0];
    }
  }

  lemma CircleTail(table: Table, visited: set<string>, path: seq<string>)
    requires Circle(table, visited, path) && path[0] !in visited
    ensures |path| > 1 && Nests(table, path[0], path[1]) && Circle(table, visited + {path[0]}, path[1..])
  {
    assert |path| > 1;
    var rest := path[1..];
    assert Front(path) == [path[0]] + Front(rest);
    forall i | 0 <= i < |rest| - 1 ensures Nests(table, rest[i], rest[i + 1]) {
      assert rest[i] == path[i + 1] && rest[i + 1] == path[i + 2];
    }
    forall i, j | 0 <= i < j < |Front(rest)| ensures Front(rest)[i] != Front(rest)[j] {
      assert Front(rest)[i] == Front(path)[i + 1] && Front(rest)[j] == Front(path)[j + 1];
    }
    forall x | x in Front(rest) ensures x !in visited + {path[0]} {
      var i :| 0 <= i < |Front(rest)| && Front(rest)[i] == x;
      assert Front(path)[i + 1] == x && Front(path)[0] == path[0];
    }
  }

  lemma CircleCons(table: Table, visited: set<string>, name: string, rest: seq<string>)
    requires name in table && name !in visited && Circle(table, visited + {name}, rest) && Nests(table, name, rest[0])
    ensures Circle(table, visited, [name] + rest)
  {
    var path := [name] + rest;
    assert Front(path) == [name] + Front(rest);
    forall i | 0 <= i < |path| - 1 ensures Nests(table, path[i], path[i + 1]) {
      if i > 0 {
        assert path[i] == rest[i - 1] && path[i + 1] == rest[i];
      }
    }
    forall i, j | 0 <= i < j < |Front(path)| ensures Front(path)[i] != Front(path)[j] {
      assert Front(path)[j] == Front(rest)[j - 1] && Front(rest)[j - 1] in Front(rest);
      if i > 0 {
        assert Front(path)[i] == Front(rest)[i - 1];
      }
    }
  }

  lemma CircleThrough(table: Table, visited: set<string>, name: string, last: string)
    requires name in table && name !in visited
    ensures CircleFrom(table, visited, name, last) <==>
            exists p :: p in table[name] && CircleOf(table, visited + {name}, p, last)
  {
    if path :| Circle(table, visited, path) && path[0] == name && path[|path| - 1] == last {
      CircleTail(table, visited, path);
      var p :| p in table[name] && IsSet(p, path[1]);
      assert path[1..][0] == path[1] && path[1..][|path| - 2] == last;
      assert CircleOf(table, visited + {name}, p, last);
    }
    if p :| p in table[name] && CircleOf(table, visited + {name}, p, last) {
      var rest :| Circle(table, visited + {name}, rest) && rest[0] == p.patchSet && rest[|rest| - 1] == last;
      assert IsSet(p, rest[0]);
      CircleCons(table, visited, name, rest);
      assert ([name] + rest)[|rest|] == last;
    }
  }

  lemma {:induction false} ReachedSome(table: Table, ps: seq<Patch>, visited: set<string>, item: Item)
    ensures item in ReachedAll(table, ps, visited) <==> exists p :: p in ps && item in Reached(table, p, visited)
    decreases |ps|
  {
    if ps != [] {
      var n := |ps| - 1;
      ReachedSome(table, ps[..n], visited, item);
      assert ps == ps[..n] + [ps[n]];
      assert item in ReachedAll(table, ps, visited) <==>
          item in ReachedAll(table, ps[..n], visited) || item in Reached(table, ps[n], visited);
    }
  }

  /** A set is reported as circular exactly when a chain of nested sets leads
      through others, each once, back to it: on tables without circles nothing
      is, however often sets share one. */
  lemma {:induction false} CircularIff(table: Table, p: Patch, visited: set<string>, name: string)
    requires p.Patch? && p.typ == "PatchSet"
    ensures Gone(SetCircular(name)) in Reached(table, p, visited) <==> CircleFrom(table, visited, p.patchSet, name)
    decreases |table.Keys - visited|
  {
    var item, set0 := Gone(SetCircular(name)), p.patchSet;
    if set0 !in table {
      forall path ensures !(Circle(table, visited, path) && path[0] == set0) {
        assert path != [] ==> path[0] in path;
      }
    } else if set0 in visited {
      CircleHere(table, visited, set0, name);
    } else {
      OneFewer(table, set0, visited);
      CircleThrough(table, visited, set0, name);
      ReachedSome(table, table[set0], visited + {set0}, item);
      forall q | q in table[set0]
        ensures item in Reached(table, q, visited + {set0}) <==>
                CircleOf(table, visited + {set0}, q, name)
      {
        if q.Patch? && q.typ == "PatchSet" {
          CircularIff(table, q, visited + {set0}, name);
        }
      }
    }
  }
}
