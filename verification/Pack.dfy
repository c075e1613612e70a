/** Packing template files into ConfigMaps under a byte budget
    (internal/emit/fsexport.go). */
module Pack {
  import opened Template

  datatype File = File(name: string, body: string)

  type Group = seq<File>

  function FileSize(f: File): nat {
    |f.name| + |f.body|
  }

  function Load(g: Group): nat {
    if g == [] then 0 else Load(g[..|g| - 1]) + FileSize(g[|g| - 1])
  }

  function Concat(groups: seq<Group>): Group {
    if groups == [] then [] else Concat(groups[..|groups| - 1]) + groups[|groups| - 1]
  }

  /** A way to distribute the files: in order, no group empty or over the cap. */
  predicate Partition(files: seq<File>, groups: seq<Group>, cap: nat) {
    Concat(groups) == files && forall g :: g in groups ==> g != [] && Load(g) <= cap
  }

  predicate Fits(files: seq<File>, cap: nat) {
    forall f :: f in files ==> FileSize(f) <= cap
  }

  lemma {:induction false} LoadAppend(a: Group, b: Group)
    ensures Load(a + b) == Load(a) + Load(b)
  {
    if b == [] {
      assert a + b == a;
    } else {
      assert (a + b)[..|a + b| - 1] == a + b[..|b| - 1] && (a + b)[|a + b| - 1] == b[|b| - 1];
      LoadAppend(a, b[..|b| - 1]);
    }
  }

  lemma ConcatSnoc(groups: seq<Group>, g: Group)
    ensures Concat(groups + [g]) == Concat(groups) + g
  {
    assert (groups + [g])[..|groups|] == groups;
  }

  /** Every partition has more groups, or as many with at least as much in the
      last one. */
  ghost predicate Ahead(files: seq<File>, groups: nat, size: nat, cap: nat) {
    forall ps :: Partition(files, ps, cap) ==>
        |ps| > groups
        || (|ps| == groups && (groups > 0 ==> Load(ps[|ps| - 1]) >= size))
  }

  /** A partition without its last file. */
  function Shortened(ps: seq<Group>): seq<Group>
    requires ps != [] && ps[|ps| - 1] != []
  {
    var g := ps[|ps| - 1];
    if |g| == 1 then ps[..|ps| - 1] else ps[..|ps| - 1] + [g[..|g| - 1]]
  }

  lemma ShortenedParts(files: seq<File>, f: File, ps: seq<Group>, cap: nat)
    requires Partition(files + [f], ps, cap)
    ensures ps != [] && ps[|ps| - 1] != []
    ensures var g := ps[|ps| - 1];
            g[|g| - 1] == f && Load(g) == Load(g[..|g| - 1]) + FileSize(f) && Partition(files, Shortened(ps), cap)
  {
    var last := |ps| - 1;
    var g := ps[last];
    assert g in ps;
    var before := Concat(ps[..last]);
    assert before + g == files + [f];
    assert (before + g)[|before + g| - 1] == g[|g| - 1];
    assert before + g[..|g| - 1] == (before + g)[..|before + g| - 1] == files;
    assert forall h :: h in ps[..last] ==> h in ps;
    if |g| == 1 {
      assert g[..0] == [] && before + [] == before;
    } else {
      ConcatSnoc(ps[..last], g[..|g| - 1]);
    }
  }

  lemma AheadEmpty(cap: nat)
    ensures Ahead([], 0, 0, cap)
  {
  }

  /** One greedy step keeps ahead. */
  lemma AheadStep(files: seq<File>, f: File, groups: nat, size: nat, cap: nat)
    requires Ahead(files, groups, size, cap) && (groups == 0 ==> size == 0 && files == [])
    ensures groups > 0 && size + FileSize(f) <= cap ==> Ahead(files + [f], groups, size + FileSize(f), cap)
    ensures groups > 0 && size + FileSize(f) > cap ==> Ahead(files + [f], groups + 1, FileSize(f), cap)
    ensures groups == 0 ==> Ahead(files + [f], 1, FileSize(f), cap)
  {
    forall ps | Partition(files + [f], ps, cap)
      ensures groups > 0 && size + FileSize(f) <= cap ==>
              |ps| > groups
              || (|ps| == groups && Load(ps[|ps| - 1]) >= size + FileSize(f))
      ensures groups > 0 && size + FileSize(f) > cap ==>
              |ps| > groups + 1
              || (|ps| == groups + 1 && Load(ps[|ps| - 1]) >= FileSize(f))
      ensures groups == 0 ==> |ps| > 1 || (|ps| == 1 && Load(ps[|ps| - 1]) >= FileSize(f))
    {
      ShortenedParts(files, f, ps, cap);
      var g := ps[|ps| - 1];
      assert g in ps;
      assert Partition(files, Shortened(ps), cap);
    }
  }

  lemma PartitionStep(files: seq<File>, f: File, closed: seq<Group>, cur: Group, cap: nat)
    requires Concat(closed) + cur == files
    ensures Concat(closed) + (cur + [f]) == files + [f]
    ensures cur != [] ==> Concat(closed + [cur]) + [f] == files + [f]
    ensures Load(cur + [f]) == Load(cur) + FileSize(f)
  {
    ConcatSnoc(closed, cur);
    assert Concat(closed) + (cur + [f]) == (Concat(closed) + cur) + [f];
    LoadAppend(cur, [f]);
    assert Load([f]) == FileSize(f) by {
      assert [f][..0] == [];
    }
  }

  /** What the loop has made of the files so far. */
  ghost predicate Greedy(files: seq<File>, closed: seq<Group>, cur: Group, size: nat, cap: nat) {
    && Concat(closed) + cur == files
    && size == Load(cur) <= cap
    && (forall g :: g in closed ==> g != [] && Load(g) <= cap)
    && (files == [] ==> closed == [] && cur == []) && (files != [] ==> cur != [])
    && Ahead(files, |closed| + (if cur == [] then 0 else 1), size, cap)
  }

  method Add(ghost files: seq<File>, f: File, closed: seq<Group>, cur: Group, size: nat, cap: nat)
      returns (closed2: seq<Group>, cur2: Group, size2: nat)
    requires Greedy(files, closed, cur, size, cap) && FileSize(f) <= cap
    ensures Greedy(files + [f], closed2, cur2, size2, cap)
  {
    AheadStep(files, f, |closed| + (if cur == [] then 0 else 1), size, cap);
    PartitionStep(files, f, closed, cur, cap);
    closed2, cur2, size2 := closed, cur, size;
    if |cur2| > 0 && size2 + FileSize(f) > cap {
      closed2, cur2, size2 := closed2 + [cur2], [], 0;
      PartitionStep(files, f, closed2, cur2, cap);
      assert Concat(closed2) + cur2 == files by { ConcatSnoc(closed, cur); }
    }
    cur2, size2 := cur2 + [f], size2 + FileSize(f);
  }

  ghost predicate Fewest(files: seq<File>, groups: seq<Group>, cap: nat) {
    Partition(files, groups, cap) && forall ps :: Partition(files, ps, cap) ==> |ps| >= |groups|
  }

  /** The last group closed, what the loop made is a smallest partition. */
  lemma Closed(files: seq<File>, closed: seq<Group>, cur: Group, size: nat, cap: nat)
    requires Greedy(files, closed, cur, size, cap)
    ensures Fewest(files, if |cur| > 0 then closed + [cur] else closed, cap)
  {
    ConcatSnoc(closed, cur);
    assert Concat(closed) + [] == Concat(closed);
  }

  lemma Slices(files: seq<File>, i: nat, cap: nat)
    requires i <= |files| && Fits(files[..i], cap)
    ensures i < |files| ==> files[..i + 1] == files[..i] + [files[i]] && files[i] in files
    ensures i < |files| && FileSize(files[i]) <= cap ==> Fits(files[..i + 1], cap)
    ensures i == |files| ==> files[..i] == files
  {
    if i < |files| {
      assert files[..i + 1] == files[..i] + [files[i]];
    }
  }

  /** packTemplateCMs: None exactly when one file alone exceeds the cap;
      otherwise a partition, and none has fewer groups. */
  method PackTemplateCMs(files: seq<File>, cap: nat) returns (r: Option<seq<Group>>)
    ensures r.None? <==> !Fits(files, cap)
    ensures r.Some? ==> Fewest(files, r.value, cap)
  {
    var groups: seq<Group> := [];
    var cur: Group := [];
    var size := 0;
    AheadEmpty(cap);
    assert Concat(groups) + cur == files[..0];
    for i := 0 to |files|
      invariant Greedy(files[..i], groups, cur, size, cap)
      invariant Fits(files[..i], cap)
    {
      Slices(files, i, cap);
      if FileSize(files[i]) > cap {
        return None;
      }
      groups, cur, size := Add(files[..i], files[i], groups, cur, size, cap);
    }
    Slices(files, |files|, cap);
    Closed(files, groups, cur, size, cap);
    if |cur| > 0 {
      groups := groups + [cur];
    }
    return Some(groups);
  }
}
