/**
  The goal test over a list of recognised tubes: the puzzle counts as solved
  when every tube that holds anything holds a single colour. Nothing about
  how full a tube is enters the test.
 */
module Goal {
  import opened Tubes
  import opened Wrappers

  /** Reference reading: any two units of the tube have the same colour. */
  predicate AllSame(cs: seq<Color>)
  {
    forall i, j | 0 <= i < |cs| && 0 <= j < |cs| :: cs[i] == cs[j]
  }

  /** What the scan checks: the tube is empty, or every unit equals its first one. */
  predicate MatchesFirst(cs: seq<Color>)
  {
    |cs| == 0 || forall i | 0 <= i < |cs| :: cs[i] == cs[0]
  }

  /** Comparing with the first unit is the same as comparing every pair. */
  lemma MatchesFirstIffAllSame(cs: seq<Color>)
    ensures MatchesFirst(cs) <==> AllSame(cs)
  {
  }

  /** Every tube, empty or not, is all one colour. */
  predicate Solved(tubes: seq<Tube>)
  {
    forall k | 0 <= k < |tubes| :: AllSame(tubes[k].colors)
  }

  /**
    The goal test as written: skip empty tubes, remember the first colour
    of each other tube, and give up at the first unit that differs from it.
   */
  method CheckSolved(tubes: seq<Tube>) returns (solved: bool)
    ensures solved <==> Solved(tubes)
  {
    for k := 0 to |tubes|
      invariant forall m | 0 <= m < k :: AllSame(tubes[m].colors)
    {
      var cs := tubes[k].colors;
      if |cs| == 0 {
        continue;
      }
      var last: Option<Color> := None;
      for i := 0 to |cs|
        invariant last.None? <==> i == 0
        invariant last.Some? ==> last.value == cs[0]
        invariant forall m | 0 <= m < i :: cs[m] == cs[0]
      {
        if last.None? {
          last := Some(cs[i]);
        } else if cs[i] != last.value {
          assert !AllSame(tubes[k].colors);
          return false;
        }
      }
      MatchesFirstIffAllSame(cs);
    }
    return true;
  }

  /** No tubes, or only empty tubes, is solved. */
  lemma EmptyTubesSolved(tubes: seq<Tube>)
    requires forall k | 0 <= k < |tubes| :: tubes[k].colors == []
    ensures Solved(tubes)
    ensures Solved([])
  {
  }

  /**
    Fullness is not part of the test: a tube with one unit, or two units of
    one colour, is solved on its own, as is an empty tube beside it.
   */
  lemma PartialTubesSolved(t: Tube, c: Color)
    ensures Solved([t.(colors := [c])])
    ensures Solved([t.(colors := [c, c]), t.(colors := [])])
  {
  }

  /** Two different colours in any one tube, wherever it sits in the list, defeat the goal. */
  lemma MixedTubeUnsolved(tubes: seq<Tube>, k: nat, i: nat, j: nat)
    requires k < |tubes| && i < |tubes[k].colors| && j < |tubes[k].colors|
    requires tubes[k].colors[i] != tubes[k].colors[j]
    ensures !Solved(tubes)
  {
  }

  /** Conversely, an unsolved list has a tube holding two different colours. */
  lemma UnsolvedHasMixedTube(tubes: seq<Tube>)
    requires !Solved(tubes)
    ensures exists k, i, j | 0 <= k < |tubes| && 0 <= i < |tubes[k].colors| && 0 <= j < |tubes[k].colors|
              :: tubes[k].colors[i] != tubes[k].colors[j]
  {
  }

  /** The test reads only the colours: ids and boxes may change freely. */
  lemma SolvedIgnoresGeometry(a: seq<Tube>, b: seq<Tube>)
    requires |a| == |b|
    requires forall k | 0 <= k < |a| :: a[k].colors == b[k].colors
    ensures Solved(a) <==> Solved(b)
  {
  }

  /** Reordering the tubes does not change the verdict. */
  lemma SolvedUnderReordering(a: seq<Tube>, b: seq<Tube>)
    requires multiset(a) == multiset(b)
    ensures Solved(a) <==> Solved(b)
  {
    if Solved(a) {
      SolvedContained(a, b);
    }
    if Solved(b) {
      SolvedContained(b, a);
    }
  }

  /** Solvedness passes to any list whose tubes all appear in a solved list. */
  lemma SolvedContained(a: seq<Tube>, b: seq<Tube>)
    requires Solved(a)
    requires multiset(b) <= multiset(a)
    ensures Solved(b)
  {
    forall k | 0 <= k < |b|
      ensures AllSame(b[k].colors)
    {
      assert b[k] in multiset(b);
      assert b[k] in a;
      var m :| 0 <= m < |a| && a[m] == b[k];
    }
  }

  /** Solvedness of a concatenation is solvedness of both parts. */
  lemma SolvedAppend(a: seq<Tube>, b: seq<Tube>)
    ensures Solved(a + b) <==> Solved(a) && Solved(b)
  {
    if Solved(a + b) {
      forall k | 0 <= k < |a|
        ensures AllSame(a[k].colors)
      {
        assert (a + b)[k] == a[k];
      }
      forall k | 0 <= k < |b|
        ensures AllSame(b[k].colors)
      {
        assert (a + b)[|a| + k] == b[k];
      }
    }
    if Solved(a) && Solved(b) {
      forall k | 0 <= k < |a + b|
        ensures AllSame((a + b)[k].colors)
      {
        if k < |a| {
          assert (a + b)[k] == a[k];
        } else {
          assert (a + b)[k] == b[k - |a|];
        }
      }
    }
  }

  /** Adding a freshly created, still empty tube never changes the verdict. */
  lemma NewTubeKeepsVerdict(tubes: seq<Tube>, id: nat, x: nat, y: nat, width: nat, height: nat)
    requires IsU32(x) && IsU32(y) && IsU32(width) && IsU32(height)
    ensures Solved(tubes + [New(id, x, y, width, height)]) <==> Solved(tubes)
  {
    SolvedAppend(tubes, [New(id, x, y, width, height)]);
  }
}
