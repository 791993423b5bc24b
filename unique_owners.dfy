/** Deduplication of photos by owner, as both discovery revisions do it.
    The owner key is a parameter: the current revision keys on the owner
    name (a `uniqueOwners` map), the older one on the owner id (a linear
    scan of the accumulated photos). */
module UniqueOwners {
  import opened Types

  /** The set of owner keys of `ps`. */
  function Keys(ps: seq<Photo>, key: Photo -> string): set<string>
  {
    set p | p in ps :: key(p)
  }

  /** No two photos of `ps` share an owner. */
  predicate DistinctOwners(ps: seq<Photo>, key: Photo -> string)
  {
    forall i, j :: 0 <= i < j < |ps| ==> key(ps[i]) != key(ps[j])
  }

  /** `acc` extended with every photo of `ps` whose owner has not been seen
      before it, in the order of `ps`. */
  function Extend(acc: seq<Photo>, ps: seq<Photo>, key: Photo -> string): seq<Photo>
    decreases |ps|
  {
    if ps == [] then acc
    else
      var e := Extend(acc, ps[..|ps| - 1], key);
      var p := ps[|ps| - 1];
      if key(p) in Keys(e, key) then e else e + [p]
  }

  /** Position `i` of `ps` holds the first photo of its owner, and that owner
      is not among `seen`. */
  predicate FirstOfOwner(ps: seq<Photo>, i: int, seen: set<string>, key: Photo -> string)
    requires 0 <= i < |ps|
  {
    key(ps[i]) !in seen && forall k :: 0 <= k < i ==> key(ps[k]) != key(ps[i])
  }

  /** Reference definition: the photos of `ps` at the positions that hold the
      first photo of a not yet seen owner, in order. */
  function Firsts(ps: seq<Photo>, seen: set<string>, key: Photo -> string): seq<Photo>
    decreases |ps|
  {
    if ps == [] then []
    else
      Firsts(ps[..|ps| - 1], seen, key)
      + (if FirstOfOwner(ps, |ps| - 1, seen, key) then [ps[|ps| - 1]] else [])
  }

  lemma KeysAppend(a: seq<Photo>, b: seq<Photo>, key: Photo -> string)
    ensures Keys(a + b, key) == Keys(a, key) + Keys(b, key)
  {
    assert forall p :: p in a + b <==> p in a || p in b;
  }

  /** The owners after extending are those before plus those of the page. */
  lemma {:induction false} ExtendKeys(acc: seq<Photo>, ps: seq<Photo>, key: Photo -> string)
    ensures Keys(Extend(acc, ps, key), key) == Keys(acc, key) + Keys(ps, key)
    decreases |ps|
  {
    if ps == [] {
      assert Keys(ps, key) == {};
    } else {
      var front, p := ps[..|ps| - 1], ps[|ps| - 1];
      assert ps == front + [p];
      ExtendKeys(acc, front, key);
      KeysAppend(front, [p], key);
      var e := Extend(acc, front, key);
      if key(p) !in Keys(e, key) {
        KeysAppend(e, [p], key);
      }
    }
  }

  /** Extending never drops or reorders what was accumulated. */
  lemma {:induction false} ExtendKeepsPrefix(acc: seq<Photo>, ps: seq<Photo>, key: Photo -> string)
    ensures acc <= Extend(acc, ps, key)
    ensures |Extend(acc, ps, key)| <= |acc| + |ps|
    decreases |ps|
  {
    if ps != [] {
      ExtendKeepsPrefix(acc, ps[..|ps| - 1], key);
    }
  }

  /** Accumulated photos keep pairwise-distinct owners. */
  lemma {:induction false} ExtendDistinct(acc: seq<Photo>, ps: seq<Photo>, key: Photo -> string)
    requires DistinctOwners(acc, key)
    ensures DistinctOwners(Extend(acc, ps, key), key)
    decreases |ps|
  {
    if ps != [] {
      var e := Extend(acc, ps[..|ps| - 1], key);
      var p := ps[|ps| - 1];
      ExtendDistinct(acc, ps[..|ps| - 1], key);
      if key(p) !in Keys(e, key) {
        var e' := e + [p];
        forall i, j | 0 <= i < j < |e'| ensures key(e'[i]) != key(e'[j]) {
          if j == |e| {
            assert e[i] in e;
          }
        }
      }
    }
  }

  /** Reading a page in two parts is reading it at once. */
  lemma {:induction false} ExtendAppend(acc: seq<Photo>, a: seq<Photo>, b: seq<Photo>, key: Photo -> string)
    ensures Extend(acc, a + b, key) == Extend(Extend(acc, a, key), b, key)
    decreases |b|
  {
    if b == [] {
      assert a + b == a;
    } else {
      assert (a + b)[..|a + b| - 1] == a + b[..|b| - 1];
      assert (a + b)[|a + b| - 1] == b[|b| - 1];
      ExtendAppend(acc, a, b[..|b| - 1], key);
    }
  }

  /** A photo of the page is kept exactly when it is the first photo of an
      owner not seen before: extending selects the reference `Firsts`. */
  lemma {:induction false} ExtendSelectsFirsts(acc: seq<Photo>, ps: seq<Photo>, key: Photo -> string)
    ensures Extend(acc, ps, key) == acc + Firsts(ps, Keys(acc, key), key)
    decreases |ps|
  {
    if ps == [] {
      assert acc + [] == acc;
    } else {
      var front, p := ps[..|ps| - 1], ps[|ps| - 1];
      var seen := Keys(acc, key);
      ExtendSelectsFirsts(acc, front, key);
      ExtendKeys(acc, front, key);
      var e := Extend(acc, front, key);
      assert key(p) in Keys(e, key) <==> !FirstOfOwner(ps, |ps| - 1, seen, key) by {
        if key(p) in Keys(front, key) {
          var q :| q in front && key(q) == key(p);
          var k :| 0 <= k < |front| && front[k] == q;
          assert ps[k] == q;
        }
        if !FirstOfOwner(ps, |ps| - 1, seen, key) && key(p) !in seen {
          var k :| 0 <= k < |ps| - 1 && key(ps[k]) == key(p);
          assert front[k] in front;
        }
      }
    }
  }

  /** Reading more photos only adds to the result: the result of a prefix of
      the page is a prefix of the result of the whole page. */
  lemma ExtendMonotone(acc: seq<Photo>, ps: seq<Photo>, i: int, key: Photo -> string)
    requires 0 <= i <= |ps|
    ensures Extend(acc, ps[..i], key) <= Extend(acc, ps, key)
  {
    assert ps == ps[..i] + ps[i..];
    ExtendAppend(acc, ps[..i], ps[i..], key);
    ExtendKeepsPrefix(Extend(acc, ps[..i], key), ps[i..], key);
  }

  /** One step of a left-to-right scan: the photo is added iff its owner is new. */
  lemma ExtendStep(acc: seq<Photo>, ps: seq<Photo>, i: int, key: Photo -> string)
    requires 0 <= i < |ps|
    ensures Extend(acc, ps[..i + 1], key)
         == (var e := Extend(acc, ps[..i], key);
             if key(ps[i]) in Keys(e, key) then e else e + [ps[i]])
  {
    assert ps[..i + 1][..i] == ps[..i];
  }
}
