/** The parts of JavaScript's array semantics the game relies on: `findIndex` by identity,
    `splice(start, 1)`, and a `forEach`/`map` pass whose callback may splice the element it is
    visiting out of the array (or empty the array altogether).

    A `forEach` or `map` pass fixes the number of visits to the length the array had when the pass
    began, visits index `k` only if `k` is still below the current length, and reads the element
    that is at index `k` at that moment. When the callback removes the element it is visiting, the
    next element shifts into the visited slot and is therefore never visited. `Fates` states this
    once; the projectile manager's tick and the monolithic game loop's collision pass both follow it. */
module Arrays {

  /** Every element at most once (no object pushed twice). */
  predicate Distinct<T(==)>(s: seq<T>)
  {
    forall i, j {:trigger Apart(s, i, j)} :: 0 <= i < j < |s| ==> Apart(s, i, j)
  }

  /** Positions `i` and `j` of `s` exist and hold different elements. (`Distinct` is phrased through
      it so that its quantifier is only used where a proof names the two positions.) */
  predicate Apart<T(==)>(s: seq<T>, i: int, j: int)
  {
    0 <= i < |s| && 0 <= j < |s| && s[i] != s[j]
  }

  /** Two different positions of a list without repeats hold different elements. */
  lemma {:induction false} DistinctAt<T>(s: seq<T>, i: nat, j: nat)
    requires Distinct(s) && i < |s| && j < |s| && i != j
    ensures s[i] != s[j]
  {
    if i < j { assert Apart(s, i, j); } else { assert Apart(s, j, i); }
  }

  /** A prefix of a list without repeats has none, and none of its elements occurs after it. */
  lemma {:induction false} DistinctPrefix<T>(s: seq<T>, n: nat)
    requires Distinct(s) && n <= |s|
    ensures Distinct(s[..n])
    ensures forall m :: n <= m < |s| ==> s[m] !in s[..n]
  {
    forall i, j | 0 <= i < j < n ensures Apart(s[..n], i, j) {
      assert Apart(s, i, j);
    }
    forall m | n <= m < |s| ensures s[m] !in s[..n] {
      forall i | 0 <= i < n ensures s[..n][i] != s[m] { assert Apart(s, i, m); }
    }
  }

  // ---------------------------------------------------------------------------------------------
  // findIndex and splice

  /** `s.findIndex(v => v === x)`: the first index holding `x`, or -1 when there is none. */
  function FindIndex<T(==)>(s: seq<T>, x: T): (i: int)
    ensures -1 <= i < |s|
    ensures i == -1 <==> x !in s
    ensures 0 <= i ==> s[i] == x && x !in s[..i]
  {
    if |s| == 0 then -1
    else if s[0] == x then 0
    else
      var j := FindIndex(s[1..], x);
      assert s == [s[0]] + s[1..];
      if j == -1 then -1
      else
        assert s[..j + 1] == [s[0]] + s[1..][..j];
        j + 1
  }

  /** `findIndex` returns the first occurrence: an index holding `x` with no `x` before it is the
      answer. */
  lemma {:induction false} FindIndexFirst<T>(s: seq<T>, x: T, k: nat)
    requires k < |s| && s[k] == x && x !in s[..k]
    ensures FindIndex(s, x) == k
  {
  }

  /** The index `splice(start, ...)` starts at: a negative start counts back from the end and is
      clamped to 0, a start past the end is clamped to the length. */
  function SpliceStart(len: nat, start: int): (k: nat)
    ensures k <= len
    ensures 0 <= start <= len ==> k == start
    ensures start < 0 && 0 <= len + start ==> k == len + start
  {
    if start < 0 then (if len + start < 0 then 0 else len + start)
    else if start < len then start else len
  }

  /** `splice(start, 1)`: removes the one element at `SpliceStart`, if there is one. */
  function SpliceOne<T>(s: seq<T>, start: int): (r: seq<T>)
    ensures |r| == (if SpliceStart(|s|, start) < |s| then |s| - 1 else |s|)
  {
    var k := SpliceStart(|s|, start);
    if k < |s| then s[..k] + s[k + 1..] else s
  }

  /** The elements before the start keep their index; the ones after it move down by one. */
  lemma {:induction false} SpliceOneShifts<T>(s: seq<T>, start: int)
    ensures var k := SpliceStart(|s|, start); var r := SpliceOne(s, start);
      && (forall i :: 0 <= i < k && i < |r| ==> r[i] == s[i])
      && (forall i :: k <= i < |r| ==> r[i] == s[i + 1])
  {
  }

  /** `removeProjectile`'s two steps, `splice(findIndex(...), 1)`: when `x` is present, exactly its
      first occurrence goes and the others keep their order; when it is absent, `findIndex` gives
      -1 and `splice(-1, 1)` removes the LAST element instead. */
  lemma {:induction false} RemoveByIdentity<T>(s: seq<T>, x: T)
    ensures var i := FindIndex(s, x); var r := SpliceOne(s, i);
      && (x in s ==> r == s[..i] + s[i + 1..] && x !in s[..i] && multiset(r) == multiset(s) - multiset{x})
      && (x !in s && s != [] ==> r == s[..|s| - 1])
      && (s == [] ==> r == [])
  {
    var i := FindIndex(s, x);
    if x in s {
      RemovePresent(s, x, i);
    } else if s != [] {
      assert SpliceStart(|s|, -1) == |s| - 1;
      assert SpliceOne(s, i) == s[..|s| - 1];
    }
  }

  lemma {:induction false} RemovePresent<T>(s: seq<T>, x: T, i: nat)
    requires i < |s| && s[i] == x
    ensures SpliceOne(s, i) == s[..i] + s[i + 1..]
    ensures multiset(SpliceOne(s, i)) == multiset(s) - multiset{x}
  {
    var r := s[..i] + s[i + 1..];
    assert SpliceOne(s, i) == r;
    assert s == s[..i] + [x] + s[i + 1..];
    assert multiset(s) == multiset(s[..i]) + multiset{x} + multiset(s[i + 1..]);
    assert multiset(r) == multiset(s[..i]) + multiset(s[i + 1..]);
  }

  /** A counterexample to "removing an absent element changes nothing". */
  lemma {:induction false} RemovingAbsentDropsLast()
    ensures SpliceOne([1, 2, 3], FindIndex([1, 2, 3], 7)) == [1, 2]
  {
    assert FindIndex([1, 2, 3], 7) == -1;
  }

  // ---------------------------------------------------------------------------------------------
  // A forEach / map pass whose callback may splice

  /** What the callback does with the element it visits: leaves it, splices it out
      (`splice(index, 1)`), or empties the whole array (`length = 0`). */
  datatype Verdict = Stay | Drop | DropAll

  /** What happens to an element during the pass: visited (with its own verdict), or never visited. */
  datatype Fate = Visited(verdict: Verdict) | Skipped

  /** The fate of every element of an array, given the verdict the callback would pass on each. */
  function Fates(vs: seq<Verdict>): (fs: seq<Fate>)
    ensures |fs| == |vs|
    decreases |vs|
  {
    if |vs| == 0 then []
    else match vs[0]
      case Stay => [Visited(Stay)] + Fates(vs[1..])
      case Drop => if |vs| == 1 then [Visited(Drop)] else [Visited(Drop), Skipped] + Fates(vs[2..])
      case DropAll => [Visited(DropAll)] + Unvisited(|vs| - 1)
  }

  /** After the array is emptied, no later index is visited. */
  function Unvisited(n: nat): (fs: seq<Fate>)
    ensures |fs| == n
    ensures forall i :: 0 <= i < n ==> fs[i] == Skipped
  {
    seq(n, _ => Skipped)
  }

  /** An element that is still in the array after the pass, if the array was not emptied. */
  predicate Survives(f: Fate)
  {
    f == Visited(Stay) || f == Skipped
  }

  /** The elements whose fate lets them survive, in their original order. */
  function Keep<T>(s: seq<T>, fs: seq<Fate>): (r: seq<T>)
    requires |s| == |fs|
    ensures |r| <= |s|
  {
    if |s| == 0 then []
    else
      var n := |s| - 1;
      var prefix := Keep(s[..n], fs[..n]);
      assert s == s[..n] + [s[n]];
      prefix + (if Survives(fs[n]) then [s[n]] else [])
  }

  /** The array after the pass. */
  function AfterPass<T>(s: seq<T>, vs: seq<Verdict>): seq<T>
    requires |s| == |vs|
  {
    var fs := Fates(vs);
    if Visited(DropAll) in fs then [] else Keep(s, fs)
  }

  /** A visited element is visited with its own verdict. */
  lemma {:induction false} VisitedWithOwnVerdict(vs: seq<Verdict>, i: nat)
    requires i < |vs| && Fates(vs)[i].Visited?
    ensures Fates(vs)[i].verdict == vs[i]
    decreases |vs|
  {
    if i > 0 {
      match vs[0]
      case Stay => VisitedWithOwnVerdict(vs[1..], i - 1);
      case Drop =>
        if i > 1 { VisitedWithOwnVerdict(vs[2..], i - 2); }
      case DropAll =>
    }
  }

  /** The skipping defect: the element right after a spliced-out one is never visited. */
  lemma {:induction false} DropSkipsNext(vs: seq<Verdict>, i: nat)
    requires i + 1 < |vs| && Fates(vs)[i] == Visited(Drop)
    ensures Fates(vs)[i + 1] == Skipped
    decreases |vs|
  {
    match vs[0]
    case Stay => DropSkipsNext(vs[1..], i - 1);
    case Drop =>
      if i > 1 { DropSkipsNext(vs[2..], i - 2); }
    case DropAll =>
  }

  /** Conversely, an element is skipped only right after a spliced-out element, or anywhere after
      the array was emptied. */
  lemma {:induction false} SkippedOnlyAfterRemoval(vs: seq<Verdict>, i: nat)
    requires i < |vs| && Fates(vs)[i] == Skipped
    ensures 0 < i
    ensures Fates(vs)[i - 1] == Visited(Drop) || exists j :: 0 <= j < i && Fates(vs)[j] == Visited(DropAll)
    decreases |vs|
  {
    var fs := Fates(vs);
    match vs[0]
    case Stay =>
      var rest := Fates(vs[1..]);
      assert fs == [Visited(Stay)] + rest;
      SkippedOnlyAfterRemoval(vs[1..], i - 1);
      if rest[i - 2] != Visited(Drop) {
        var j :| 0 <= j < i - 1 && rest[j] == Visited(DropAll);
        assert fs[j + 1] == Visited(DropAll);
      }
    case Drop =>
      if i > 1 {
        var rest := Fates(vs[2..]);
        assert fs == [Visited(Drop), Skipped] + rest;
        SkippedOnlyAfterRemoval(vs[2..], i - 2);
        if rest[i - 3] != Visited(Drop) {
          var j :| 0 <= j < i - 2 && rest[j] == Visited(DropAll);
          assert fs[j + 2] == Visited(DropAll);
        }
      }
    case DropAll =>
      assert fs[0] == Visited(DropAll);
  }

  /** When no element is removed, every element is visited and the array is unchanged. */
  lemma {:induction false} NoRemovalVisitsAll<T>(s: seq<T>, vs: seq<Verdict>)
    requires |s| == |vs|
    requires forall i :: 0 <= i < |vs| ==> vs[i] == Stay
    ensures forall i :: 0 <= i < |vs| ==> Fates(vs)[i] == Visited(Stay)
    ensures AfterPass(s, vs) == s
    decreases |vs|
  {
    var fs := Fates(vs);
    if vs != [] {
      NoRemovalVisitsAll(s[1..], vs[1..]);
      assert fs == [Visited(Stay)] + Fates(vs[1..]);
    }
    assert Visited(DropAll) !in fs;
    KeepAllSurvivors(s, fs);
  }

  lemma {:induction false} KeepAllSurvivors<T>(s: seq<T>, fs: seq<Fate>)
    requires |s| == |fs|
    requires forall i :: 0 <= i < |fs| ==> Survives(fs[i])
    ensures Keep(s, fs) == s
    decreases |s|
  {
    if s != [] {
      var n := |s| - 1;
      KeepAllSurvivors(s[..n], fs[..n]);
      assert s == s[..n] + [s[n]];
    }
  }

  /** The skipping defect on the array: when no callback empties the array, the element right
      after a spliced-out one stays in it, whatever its own verdict would have been. */
  lemma {:induction false} RemovalSparesNext<T>(s: seq<T>, vs: seq<Verdict>, i: nat)
    requires |s| == |vs| && i + 1 < |s|
    requires Fates(vs)[i] == Visited(Drop) && DropAll !in vs
    ensures s[i + 1] in AfterPass(s, vs)
  {
    var fs := Fates(vs);
    DropSkipsNext(vs, i);
    if Visited(DropAll) in fs {
      var j :| 0 <= j < |fs| && fs[j] == Visited(DropAll);
      VisitedWithOwnVerdict(vs, j);
    }
    KeepMembers(s, fs, s[i + 1]);
  }

  /** A concrete instance of the defect: of two elements that both ask to be removed, the
      second stays. */
  lemma {:induction false} SecondOfTwoRemovalsSurvives<T>(a: T, b: T)
    ensures AfterPass([a, b], [Drop, Drop]) == [b]
  {
    assert Fates([Drop, Drop]) == [Visited(Drop), Skipped] by {
      assert [Drop, Drop][2..] == [];
    }
    var s := [a, b];
    assert s[..1] == [a];
    assert [Visited(Drop), Skipped][..1] == [Visited(Drop)];
    assert Keep([a], [Visited(Drop)]) == [] by {
      assert [a][..0] == [];
    }
  }

  /** An element survives the pass exactly when its fate says so (and the array was not emptied). */
  lemma {:induction false} KeepMembers<T>(s: seq<T>, fs: seq<Fate>, x: T)
    requires |s| == |fs|
    ensures x in Keep(s, fs) <==> exists i :: 0 <= i < |s| && s[i] == x && Survives(fs[i])
    decreases |s|
  {
    if |s| > 0 {
      var n := |s| - 1;
      KeepMembers(s[..n], fs[..n], x);
      if x in Keep(s, fs) && x !in Keep(s[..n], fs[..n]) {
        assert s[n] == x && Survives(fs[n]);
      }
      if exists i :: 0 <= i < |s| && s[i] == x && Survives(fs[i]) {
        var i :| 0 <= i < |s| && s[i] == x && Survives(fs[i]);
        if i < n { assert s[..n][i] == x; }
      }
    }
  }

  /** A pass never duplicates: the survivors of a list without repeats have no repeats. */
  lemma {:induction false} KeepDistinct<T>(s: seq<T>, fs: seq<Fate>)
    requires |s| == |fs| && Distinct(s)
    ensures Distinct(Keep(s, fs))
    decreases |s|
  {
    if |s| > 0 {
      var n := |s| - 1;
      var prefix := Keep(s[..n], fs[..n]);
      DistinctPrefix(s, n);
      KeepDistinct(s[..n], fs[..n]);
      if Survives(fs[n]) {
        KeepMembers(s[..n], fs[..n], s[n]);
        var r := prefix + [s[n]];
        forall i, j | 0 <= i < j < |r| ensures Apart(r, i, j) {
          if j == |r| - 1 {
            assert r[i] in prefix;
          } else {
            assert Apart(prefix, i, j);
          }
        }
        assert Keep(s, fs) == r;
      } else {
        assert Keep(s, fs) == prefix;
      }
    }
  }

  /** The pass only removes: what it keeps is a sub-multiset of what there was. */
  lemma {:induction false} KeepSubMultiset<T>(s: seq<T>, fs: seq<Fate>)
    requires |s| == |fs|
    ensures multiset(Keep(s, fs)) <= multiset(s)
    decreases |s|
  {
    if |s| > 0 {
      var n := |s| - 1;
      KeepSubMultiset(s[..n], fs[..n]);
      assert s == s[..n] + [s[n]];
    }
  }

  // The loop that implements a pass. `k` is the index the pass visits next, `cur` the array as it
  // is now; the ghost `done` holds the fates of the first `j` original elements, all decided.

  ghost predicate PassInvariant<T>(s0: seq<T>, vs: seq<Verdict>, done: seq<Fate>, j: nat, cur: seq<T>, k: nat)
  {
    && |s0| == |vs| && j <= |s0| && |done| == j
    && Fates(vs) == done + Fates(vs[j..])
    && cur == Keep(s0[..j], done) + s0[j..]
    && (j < |s0| ==> j == k + (|s0| - |cur|))
    && (j == |s0| ==> k >= |cur|)
  }

  lemma {:induction false} PassStart<T>(s0: seq<T>, vs: seq<Verdict>)
    requires |s0| == |vs|
    ensures PassInvariant(s0, vs, [], 0, s0, 0)
  {
    assert s0[..0] == [] && vs[0..] == vs && s0[0..] == s0;
  }

  /** The element the pass visits at `k` is original element `j`, and (without repeats) it does
      not occur before `k`. */
  lemma {:induction false} PassVisit<T>(s0: seq<T>, vs: seq<Verdict>, done: seq<Fate>, j: nat, cur: seq<T>, k: nat)
    requires PassInvariant(s0, vs, done, j, cur, k) && k < |cur|
    ensures j < |s0| && cur[k] == s0[j] && |Keep(s0[..j], done)| == k
    ensures Distinct(s0) ==> s0[j] !in cur[..k]
    ensures Fates(vs)[j] == Visited(vs[j])
    ensures vs[j] == Drop && j + 1 < |s0| ==> Fates(vs)[j + 1] == Skipped
  {
    FatesStep(vs, j);
    assert Fates(vs)[j] == Fates(vs[j..])[0];
    if j + 1 < |s0| { assert Fates(vs)[j + 1] == Fates(vs[j..])[1]; }
    if Distinct(s0) {
      assert cur[..k] == Keep(s0[..j], done);
      KeepMembers(s0[..j], done, s0[j]);
      DistinctPrefix(s0, j);
    }
  }

  /** Visiting an element whose verdict is `Stay`. */
  lemma {:induction false} PassStay<T>(s0: seq<T>, vs: seq<Verdict>, done: seq<Fate>, j: nat, cur: seq<T>, k: nat)
    requires PassInvariant(s0, vs, done, j, cur, k) && k < |cur|
    requires j < |s0| && vs[j] == Stay
    ensures PassInvariant(s0, vs, done + [Visited(Stay)], j + 1, cur, k + 1)
  {
    PassVisit(s0, vs, done, j, cur, k);
    FatesStep(vs, j);
    KeepStep(s0, done, j, Visited(Stay));
    assert s0[j..] == [s0[j]] + s0[j + 1..];
  }

  /** Visiting an element whose verdict is `Drop`: it is spliced out at `k` and the next one is
      skipped. */
  lemma {:induction false} PassDrop<T>(s0: seq<T>, vs: seq<Verdict>, done: seq<Fate>, j: nat, cur: seq<T>, k: nat)
    returns (done': seq<Fate>, j': nat)
    requires PassInvariant(s0, vs, done, j, cur, k) && k < |cur|
    requires j < |s0| && vs[j] == Drop
    ensures done' == done + [Visited(Drop)] + (if j + 1 < |s0| then [Skipped] else [])
    ensures PassInvariant(s0, vs, done', j', cur[..k] + cur[k + 1..], k + 1)
  {
    PassVisit(s0, vs, done, j, cur, k);
    var kept := Keep(s0[..j], done);
    assert cur[..k] == kept;
    assert cur[k + 1..] == s0[j + 1..];
    if j + 1 < |s0| {
      done', j' := done + [Visited(Drop), Skipped], j + 2;
      PassDropInner(s0, vs, done, j, kept);
    } else {
      done', j' := done + [Visited(Drop)], j + 1;
      PassDropLast(s0, vs, done, j, kept);
    }
  }

  lemma {:induction false} PassDropInner<T>(s0: seq<T>, vs: seq<Verdict>, done: seq<Fate>, j: nat, kept: seq<T>)
    requires |s0| == |vs| && |done| == j && j + 1 < |s0| && vs[j] == Drop
    requires Fates(vs) == done + Fates(vs[j..]) && kept == Keep(s0[..j], done)
    ensures Fates(vs) == (done + [Visited(Drop), Skipped]) + Fates(vs[j + 2..])
    ensures kept + s0[j + 1..] == Keep(s0[..j + 2], done + [Visited(Drop), Skipped]) + s0[j + 2..]
  {
    FatesStep(vs, j);
    KeepStep(s0, done, j, Visited(Drop));
    KeepStep(s0, done + [Visited(Drop)], j + 1, Skipped);
    assert done + [Visited(Drop)] + [Skipped] == done + [Visited(Drop), Skipped];
    assert s0[j + 1..] == [s0[j + 1]] + s0[j + 2..];
  }

  lemma {:induction false} PassDropLast<T>(s0: seq<T>, vs: seq<Verdict>, done: seq<Fate>, j: nat, kept: seq<T>)
    requires |s0| == |vs| && |done| == j && j + 1 == |s0| && vs[j] == Drop
    requires Fates(vs) == done + Fates(vs[j..]) && kept == Keep(s0[..j], done)
    ensures Fates(vs) == (done + [Visited(Drop)]) + Fates(vs[j + 1..])
    ensures kept + s0[j + 1..] == Keep(s0[..j + 1], done + [Visited(Drop)]) + s0[j + 1..]
  {
    FatesStep(vs, j);
    KeepStep(s0, done, j, Visited(Drop));
    assert vs[j + 1..] == [];
  }

  /** Visiting an element whose verdict is `DropAll`: the array is emptied, nothing further is
      visited. */
  lemma {:induction false} PassDropAll<T>(s0: seq<T>, vs: seq<Verdict>, done: seq<Fate>, j: nat, cur: seq<T>, k: nat)
    requires PassInvariant(s0, vs, done, j, cur, k) && k < |cur|
    requires j < |s0| && vs[j] == DropAll
    ensures Fates(vs) == done + [Visited(DropAll)] + Unvisited(|s0| - j - 1)
    ensures Visited(DropAll) in Fates(vs)
  {
    FatesStep(vs, j);
    assert Fates(vs)[j] == Visited(DropAll);
  }

  /** An index past the end of the current array is not visited. */
  lemma {:induction false} PassNoVisit<T>(s0: seq<T>, vs: seq<Verdict>, done: seq<Fate>, j: nat, cur: seq<T>, k: nat)
    requires PassInvariant(s0, vs, done, j, cur, k) && k >= |cur|
    ensures PassInvariant(s0, vs, done, j, cur, k + 1)
  {
  }

  /** When the count fixed at the start is used up, every fate is decided. */
  lemma {:induction false} PassEnd<T>(s0: seq<T>, vs: seq<Verdict>, done: seq<Fate>, j: nat, cur: seq<T>)
    requires PassInvariant(s0, vs, done, j, cur, |s0|)
    ensures j == |s0| && done == Fates(vs) && cur == Keep(s0, done)
  {
    assert vs[j..] == [];
    assert s0[..j] == s0;
  }

  // Unfolding steps used by the lemmas above.

  lemma {:induction false} FatesStep(vs: seq<Verdict>, j: nat)
    requires j < |vs|
    ensures vs[j] == Stay ==> Fates(vs[j..]) == [Visited(Stay)] + Fates(vs[j + 1..])
    ensures vs[j] == Drop && j + 1 < |vs| ==> Fates(vs[j..]) == [Visited(Drop), Skipped] + Fates(vs[j + 2..])
    ensures vs[j] == Drop && j + 1 == |vs| ==> Fates(vs[j..]) == [Visited(Drop)]
    ensures vs[j] == DropAll ==> Fates(vs[j..]) == [Visited(DropAll)] + Unvisited(|vs| - j - 1)
  {
    assert vs[j..][1..] == vs[j + 1..];
    if j + 1 < |vs| { assert vs[j..][2..] == vs[j + 2..]; }
  }

  lemma {:induction false} KeepStep<T>(s: seq<T>, fs: seq<Fate>, j: nat, f: Fate)
    requires |fs| == j < |s|
    ensures Keep(s[..j + 1], fs + [f]) == Keep(s[..j], fs) + (if Survives(f) then [s[j]] else [])
  {
    assert s[..j + 1][..j] == s[..j];
    assert (fs + [f])[..j] == fs;
  }

}
