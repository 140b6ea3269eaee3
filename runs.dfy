/**
  Maximal runs: cutting a sequence at every element that fails a test.
  Python's whitespace `str.split()` and the printable-string scan of the
  binary analysis are both "keep the runs between the rejected elements".
*/
module Runs {

  /**
    The runs of `s` between rejected elements, in order, empty runs included
    (so there is always one more run than there are rejected elements).
  */
  function Segments<T>(s: seq<T>, keep: T -> bool): (r: seq<seq<T>>)
    ensures |r| >= 1
    decreases |s|
  {
    if s == [] then [[]]
    else
      var prev := Segments(s[..|s| - 1], keep);
      var x := s[|s| - 1];
      if keep(x) then prev[..|prev| - 1] + [prev[|prev| - 1] + [x]]
      else prev + [[]]
  }

  /** The rejected elements of `s`, in order. */
  function Rejected<T>(s: seq<T>, keep: T -> bool): seq<T>
    decreases |s|
  {
    if s == [] then []
    else Rejected(s[..|s| - 1], keep) + (if keep(s[|s| - 1]) then [] else [s[|s| - 1]])
  }

  /** Puts the separators back between the runs: `runs[0] + [seps[0]] + runs[1] + ...`. */
  function Rejoin<T>(runs: seq<seq<T>>, seps: seq<T>): seq<T>
    requires |runs| == |seps| + 1
    decreases |seps|
  {
    if seps == [] then runs[0]
    else Rejoin(runs[..|runs| - 1], seps[..|seps| - 1]) + [seps[|seps| - 1]] + runs[|runs| - 1]
  }

  /** Keeps the runs whose length is at least `min`, in order. */
  function LongRuns<T>(runs: seq<seq<T>>, min: int): (r: seq<seq<T>>)
    ensures |r| <= |runs|
    ensures forall k :: 0 <= k < |r| ==> |r[k]| >= min && r[k] in runs
    decreases |runs|
  {
    if runs == [] then []
    else
      var last := runs[|runs| - 1];
      LongRuns(runs[..|runs| - 1], min) + (if |last| >= min then [last] else [])
  }

  /**
    The runs cut `s` exactly at its rejected elements: every run holds only
    kept elements, and the runs with the rejected elements put back between
    them give `s` again. Together these say the runs are the maximal ones.
  */
  lemma {:induction false} SegmentsAreMaximalRuns<T>(s: seq<T>, keep: T -> bool)
    ensures |Segments(s, keep)| == |Rejected(s, keep)| + 1
    ensures forall k, j :: 0 <= k < |Segments(s, keep)| && 0 <= j < |Segments(s, keep)[k]|
              ==> keep(Segments(s, keep)[k][j])
    ensures forall j :: 0 <= j < |Rejected(s, keep)| ==> !keep(Rejected(s, keep)[j])
    ensures Rejoin(Segments(s, keep), Rejected(s, keep)) == s
  {
    SegmentsKept(s, keep);
    RejectedAreRejected(s, keep);
    SegmentsRejoin(s, keep);
  }

  lemma {:induction false} SegmentsCount<T>(s: seq<T>, keep: T -> bool)
    ensures |Segments(s, keep)| == |Rejected(s, keep)| + 1
    decreases |s|
  {
    if s != [] {
      SegmentsCount(s[..|s| - 1], keep);
    }
  }

  lemma {:induction false} SegmentsKept<T>(s: seq<T>, keep: T -> bool)
    ensures forall k, j :: 0 <= k < |Segments(s, keep)| && 0 <= j < |Segments(s, keep)[k]|
              ==> keep(Segments(s, keep)[k][j])
    decreases |s|
  {
    if s != [] {
      var init := s[..|s| - 1];
      SegmentsKept(init, keep);
      var prev := Segments(init, keep);
      var runs := Segments(s, keep);
      forall k, j | 0 <= k < |runs| && 0 <= j < |runs[k]| ensures keep(runs[k][j]) {
        if k < |prev| && j < |prev[k]| {
          assert runs[k][j] == prev[k][j];
        }
      }
    }
  }

  lemma {:induction false} RejectedAreRejected<T>(s: seq<T>, keep: T -> bool)
    ensures forall j :: 0 <= j < |Rejected(s, keep)| ==> !keep(Rejected(s, keep)[j])
    decreases |s|
  {
    if s != [] {
      RejectedAreRejected(s[..|s| - 1], keep);
    }
  }

  lemma {:induction false} SegmentsRejoin<T>(s: seq<T>, keep: T -> bool)
    ensures |Segments(s, keep)| == |Rejected(s, keep)| + 1
    ensures Rejoin(Segments(s, keep), Rejected(s, keep)) == s
    decreases |s|
  {
    SegmentsCount(s, keep);
    if s != [] {
      var init := s[..|s| - 1];
      var x := s[|s| - 1];
      SegmentsRejoin(init, keep);
      var prev, seps := Segments(init, keep), Rejected(init, keep);
      var runs := Segments(s, keep);
      assert s == init + [x];
      if keep(x) {
        assert Rejected(s, keep) == seps;
        assert runs == prev[..|prev| - 1] + [prev[|prev| - 1] + [x]];
        RejoinExtendLast(prev, seps, x);
      } else {
        assert Rejected(s, keep) == seps + [x];
        assert runs == prev + [[]];
        assert runs[..|runs| - 1] == prev;
        assert (seps + [x])[..|seps|] == seps;
      }
    }
  }

  /** Appending to the last run appends to the rejoined sequence. */
  lemma {:induction false} RejoinExtendLast<T>(runs: seq<seq<T>>, seps: seq<T>, x: T)
    requires |runs| == |seps| + 1
    ensures var runs' := runs[..|runs| - 1] + [runs[|runs| - 1] + [x]];
            |runs'| == |seps| + 1 && Rejoin(runs', seps) == Rejoin(runs, seps) + [x]
  {
    var runs' := runs[..|runs| - 1] + [runs[|runs| - 1] + [x]];
    if seps != [] {
      assert runs'[..|runs'| - 1] == runs[..|runs| - 1];
    }
  }

  /** Dropping short runs keeps only elements that were in runs. */
  lemma {:induction false} LongRunsKeepsElements<T>(runs: seq<seq<T>>, min: int, keep: T -> bool)
    requires forall k, j :: 0 <= k < |runs| && 0 <= j < |runs[k]| ==> keep(runs[k][j])
    ensures forall k, j :: 0 <= k < |LongRuns(runs, min)| && 0 <= j < |LongRuns(runs, min)[k]| ==> keep(LongRuns(runs, min)[k][j])
  {
    if runs != [] {
      LongRunsKeepsElements(runs[..|runs| - 1], min, keep);
    }
  }

  /** `LongRuns` works run by run, so it distributes over concatenation. */
  lemma {:induction false} LongRunsConcat<T>(xs: seq<seq<T>>, ys: seq<seq<T>>, min: int)
    ensures LongRuns(xs + ys, min) == LongRuns(xs, min) + LongRuns(ys, min)
    decreases |ys|
  {
    if ys == [] {
      assert xs + ys == xs;
    } else {
      var zs := xs + ys;
      assert zs[..|zs| - 1] == xs + ys[..|ys| - 1];
      LongRunsConcat(xs, ys[..|ys| - 1], min);
    }
  }

  /** The runs of `a + [x] + b`, for a rejected `x`, are the runs of `a` followed by those of `b`. */
  lemma {:induction false} SegmentsAroundRejected<T>(a: seq<T>, x: T, b: seq<T>, keep: T -> bool)
    requires !keep(x)
    ensures Segments(a + [x] + b, keep) == Segments(a, keep) + Segments(b, keep)
    decreases |b|
  {
    if b == [] {
      SegmentsSnoc(a, x, keep);
      assert a + [x] + b == a + [x];
    } else {
      var b', y := b[..|b| - 1], b[|b| - 1];
      SegmentsAroundRejected(a, x, b', keep);
      assert a + [x] + b == (a + [x] + b') + [y];
      assert b == b' + [y];
      SegmentsSnoc(a + [x] + b', y, keep);
      SegmentsSnoc(b', y, keep);
      AppendToLastOfConcat(Segments(a, keep), Segments(b', keep), y);
    }
  }

  /** `Segments` on a sequence with one more element. */
  lemma {:induction false} SegmentsSnoc<T>(s: seq<T>, y: T, keep: T -> bool)
    ensures var prev := Segments(s, keep);
      Segments(s + [y], keep) == if keep(y) then AppendToLast(prev, y) else prev + [[]]
  {
    assert (s + [y])[..|s|] == s;
  }

  /** Adds `y` to the end of the last run. */
  function AppendToLast<T>(runs: seq<seq<T>>, y: T): seq<seq<T>>
    requires |runs| >= 1
  {
    runs[..|runs| - 1] + [runs[|runs| - 1] + [y]]
  }

  lemma {:induction false} AppendToLastOfConcat<T>(left: seq<seq<T>>, right: seq<seq<T>>, y: T)
    requires |right| >= 1
    ensures AppendToLast(left + right, y) == left + AppendToLast(right, y)
  {
    assert (left + right)[..|left + right| - 1] == left + right[..|right| - 1];
  }

  /** A sequence of kept elements is a single run. */
  lemma {:induction false} SegmentsOfKept<T>(s: seq<T>, keep: T -> bool)
    requires forall i :: 0 <= i < |s| ==> keep(s[i])
    ensures Segments(s, keep) == [s]
    decreases |s|
  {
    if s != [] {
      SegmentsOfKept(s[..|s| - 1], keep);
      assert s[..|s| - 1] + [s[|s| - 1]] == s;
    }
  }
}
