/** Merging the context windows around matching lines
    (mergeContextWindows in internal/tools/adapters/codesearch.go). */
module ContextWindows {
  import opened Common

  type Window = (int, int)

  // Line x lies in the window of context lines around line, clamped to the file.
  predicate Near(line: int, total: int, context: int, x: int) {
    Max(1, line - context) <= x <= Min(total, line + context)
  }

  ghost predicate NearSome(lines: seq<int>, total: int, context: int, x: int) {
    exists j :: 0 <= j < |lines| && Near(lines[j], total, context, x)
  }

  ghost predicate Covered(windows: seq<Window>, x: int) {
    exists k :: 0 <= k < |windows| && windows[k].0 <= x <= windows[k].1
  }

  // Non-empty windows in order, with at least one line between neighbours.
  ghost predicate Separated(windows: seq<Window>) {
    && (forall k :: 0 <= k < |windows| ==> windows[k].0 <= windows[k].1)
    && (forall i, j :: 0 <= i < j < |windows| ==> windows[i].1 + 1 < windows[j].0)
  }

  ghost predicate Covers(windows: seq<Window>, lines: seq<int>, total: int, context: int) {
    forall x :: Covered(windows, x) <==> NearSome(lines, total, context, x)
  }

  ghost predicate InRange(lines: seq<int>, total: int) {
    && (forall j :: 0 <= j < |lines| ==> 1 <= lines[j] <= total)
    && (forall i, j :: 0 <= i < j < |lines| ==> lines[i] <= lines[j])
  }

  lemma CoverAppend(windows: seq<Window>, lines: seq<int>, i: nat, total: int, context: int)
    requires i < |lines| && Covers(windows, lines[..i], total, context)
    ensures Covers(windows + [(Max(1, lines[i] - context), Min(total, lines[i] + context))],
                   lines[..i + 1], total, context)
  {
    var w := (Max(1, lines[i] - context), Min(total, lines[i] + context));
    var after := windows + [w];
    assert lines[..i + 1] == lines[..i] + [lines[i]];
    forall x ensures Covered(after, x) <==> NearSome(lines[..i + 1], total, context, x) {
      CoveredSnoc(windows, w, x);
      NearSnoc(lines, i, total, context, x);
    }
  }

  lemma CoveredSnoc(windows: seq<Window>, w: Window, x: int)
    ensures Covered(windows + [w], x) <==> Covered(windows, x) || w.0 <= x <= w.1
  {
    var after := windows + [w];
    if Covered(windows, x) {
      var k :| 0 <= k < |windows| && windows[k].0 <= x <= windows[k].1;
      assert after[k] == windows[k];
    }
    if w.0 <= x <= w.1 {
      assert after[|windows|] == w;
    }
  }

  lemma NearSnoc(lines: seq<int>, i: nat, total: int, context: int, x: int)
    requires i < |lines|
    ensures NearSome(lines[..i + 1], total, context, x)
       <==> NearSome(lines[..i], total, context, x) || Near(lines[i], total, context, x)
  {
    var before, after := lines[..i], lines[..i + 1];
    assert forall j :: 0 <= j < i ==> after[j] == before[j];
    assert after[i] == lines[i];
  }

  // Extending the last window to end covers the new lines when they start no later
  // than just after it.
  lemma CoverExtend(windows: seq<Window>, lines: seq<int>, i: nat, total: int, context: int)
    requires i < |lines| && windows != [] && Covers(windows, lines[..i], total, context)
    requires var last := windows[|windows| - 1];
      last.0 <= Max(1, lines[i] - context) <= last.1 + 1 && last.1 <= Min(total, lines[i] + context)
    ensures var n := |windows| - 1;
      Covers(windows[n := (windows[n].0, Min(total, lines[i] + context))], lines[..i + 1], total, context)
  {
    var n := |windows| - 1;
    var last, end := windows[n], Min(total, lines[i] + context);
    var after := windows[n := (last.0, end)];
    assert windows == windows[..n] + [last] && after == windows[..n] + [(last.0, end)];
    forall x ensures Covered(after, x) <==> NearSome(lines[..i + 1], total, context, x) {
      CoveredSnoc(windows[..n], last, x);
      CoveredSnoc(windows[..n], (last.0, end), x);
      NearSnoc(lines, i, total, context, x);
      assert Covered(windows, x) <==> NearSome(lines[..i], total, context, x);
    }
  }

  /** For match lines in order and within the file, the windows are non-empty, in
      order and never touch, they stay inside the file, and together they hold
      exactly the lines within context of some match. */
  method MergeContextWindows(lines: seq<int>, total: int, context: int) returns (windows: seq<Window>)
    requires (forall j :: 0 <= j < |lines| ==> 1 <= lines[j] <= total) && context >= 0
    requires forall i, j :: 0 <= i < j < |lines| ==> lines[i] <= lines[j]
    ensures Separated(windows)
    ensures Covers(windows, lines, total, context)
    ensures forall k :: 0 <= k < |windows| ==> 1 <= windows[k].0 <= windows[k].1 <= total
    ensures forall i, j :: 0 <= i < j < |windows| ==> windows[i].1 + 1 < windows[j].0
    ensures |windows| <= |lines|
  {
    windows := Merge(lines, total, context);
    assert forall k :: 0 <= k < |windows| ==> windows[k].0 <= windows[k].1;
    hide Covers;
  }

  /** Some window holds a line if and only if the line is in the file and at most context
      away from a match. */
  lemma HeldIff(windows: seq<Window>, lines: seq<int>, total: int, context: int, x: int)
    requires Covers(windows, lines, total, context)
    ensures (exists k :: 0 <= k < |windows| && windows[k].0 <= x <= windows[k].1) <==>
      1 <= x <= total && exists j :: 0 <= j < |lines| && lines[j] - context <= x <= lines[j] + context
  {
    assert Covered(windows, x) <==> NearSome(lines, total, context, x);
    assert forall j :: 0 <= j < |lines| ==>
      (Near(lines[j], total, context, x) <==> 1 <= x <= total && lines[j] - context <= x <= lines[j] + context);
  }

  method Merge(lines: seq<int>, total: int, context: int) returns (windows: seq<Window>)
    requires InRange(lines, total) && context >= 0
    ensures Separated(windows)
    ensures Covers(windows, lines, total, context)
    ensures forall k :: 0 <= k < |windows| ==> 1 <= windows[k].0 && windows[k].1 <= total
    ensures |windows| <= |lines|
  {
    NothingMerged(lines, total, context);
    hide *;
    windows := [];
    var i := 0;
    while i < |lines|
      invariant 0 <= i <= |lines| && Merged(windows, lines, i, total, context)
    {
      var start, end := Max(1, lines[i] - context), Min(total, lines[i] + context);
      var n := |windows| - 1;
      if |windows| == 0 || start > windows[n].1 + 1 {
        MergeAppends(windows, lines, i, total, context);
        windows := windows + [(start, end)];
      } else {
        MergeExtends(windows, lines, i, total, context);
        if end > windows[n].1 {
          windows := windows[n := (windows[n].0, end)];
        }
      }
      i := i + 1;
    }
    AllMerged(windows, lines, total, context);
  }

  // The windows of the first i match lines; the last one ends with the last line's.
  ghost predicate Merged(windows: seq<Window>, lines: seq<int>, i: nat, total: int, context: int) {
    && i <= |lines| && |windows| <= i && (windows == [] <==> i == 0)
    && Separated(windows) && Covers(windows, lines[..i], total, context)
    && (forall k :: 0 <= k < |windows| ==> 1 <= windows[k].0 && windows[k].1 <= total)
    && (i > 0 ==> var last := windows[|windows| - 1];
      last.0 <= Max(1, lines[i - 1] - context) && last.1 == Min(total, lines[i - 1] + context))
  }

  lemma NothingMerged(lines: seq<int>, total: int, context: int)
    ensures Merged([], lines, 0, total, context)
  {
  }

  lemma MergeAppends(windows: seq<Window>, lines: seq<int>, i: nat, total: int, context: int)
    requires InRange(lines, total) && context >= 0 && i < |lines| && Merged(windows, lines, i, total, context)
    requires windows == [] || Max(1, lines[i] - context) > windows[|windows| - 1].1 + 1
    ensures
      var window := (Max(1, lines[i] - context), Min(total, lines[i] + context));
      Merged(windows + [window], lines, i + 1, total, context)
  {
    CoverAppend(windows, lines, i, total, context);
    hide Covers;
  }

  // Extending the last window changes nothing if it reaches as far already.
  lemma MergeExtends(windows: seq<Window>, lines: seq<int>, i: nat, total: int, context: int)
    requires InRange(lines, total) && context >= 0 && i < |lines| && Merged(windows, lines, i, total, context)
    requires windows != [] && Max(1, lines[i] - context) <= windows[|windows| - 1].1 + 1
    ensures
      var n, end := |windows| - 1, Min(total, lines[i] + context);
      && Merged(windows[n := (windows[n].0, end)], lines, i + 1, total, context)
      && (end <= windows[n].1 ==> Merged(windows, lines, i + 1, total, context))
  {
    CoverExtend(windows, lines, i, total, context);
    var n, end := |windows| - 1, Min(total, lines[i] + context);
    assert end <= windows[n].1 ==> windows[n := (windows[n].0, end)] == windows;
    hide Covers;
  }

  lemma AllMerged(windows: seq<Window>, lines: seq<int>, total: int, context: int)
    requires Merged(windows, lines, |lines|, total, context)
    ensures Separated(windows) && Covers(windows, lines, total, context) && |windows| <= |lines|
    ensures forall k :: 0 <= k < |windows| ==> 1 <= windows[k].0 && windows[k].1 <= total
  {
    assert lines[..|lines|] == lines;
  }

  lemma CoveredTail(windows: seq<Window>, x: int)
    requires windows != []
    ensures Covered(windows, x) <==> windows[0].0 <= x <= windows[0].1 || Covered(windows[1..], x)
  {
    if Covered(windows[1..], x) {
      var k :| 0 <= k < |windows| - 1 && windows[1..][k].0 <= x <= windows[1..][k].1;
      assert windows[k + 1] == windows[1..][k];
    }
    if Covered(windows, x) {
      var k :| 0 <= k < |windows| && windows[k].0 <= x <= windows[k].1;
      assert k > 0 ==> windows[1..][k - 1] == windows[k];
    }
  }

  lemma FirstWindow(p: seq<Window>, x: int)
    requires Separated(p) && p != []
    ensures x < p[0].0 ==> !Covered(p, x)
    ensures p[0].0 <= x <= p[0].1 ==> Covered(p, x)
    ensures x == p[0].1 + 1 ==> !Covered(p, x)
  {
  }

  lemma SameFirst(p: seq<Window>, q: seq<Window>)
    requires Separated(p) && Separated(q) && p != [] && q != []
    requires forall x :: Covered(p, x) <==> Covered(q, x)
    ensures p[0] == q[0]
  {
    FirstWindow(p, p[0].0);
    FirstWindow(p, q[0].0);
    FirstWindow(q, p[0].0);
    FirstWindow(q, q[0].0);
    FirstWindow(p, q[0].1 + 1);
    FirstWindow(q, q[0].1 + 1);
    FirstWindow(p, p[0].1 + 1);
    FirstWindow(q, p[0].1 + 1);
  }

  /** Separated windows are determined by the lines they hold, so the merged
      windows are the only separated ones with the right content. */
  lemma {:induction false} WindowsUnique(p: seq<Window>, q: seq<Window>)
    requires Separated(p) && Separated(q)
    requires forall x :: Covered(p, x) <==> Covered(q, x)
    ensures p == q
  {
    if p == [] || q == [] {
      if p != [] {
        FirstWindow(p, p[0].0);
      }
      if q != [] {
        FirstWindow(q, q[0].0);
      }
    } else {
      SameFirst(p, q);
      forall x ensures Covered(p[1..], x) <==> Covered(q[1..], x) {
        CoveredTail(p, x);
        CoveredTail(q, x);
        LaterWindows(p, x);
        LaterWindows(q, x);
      }
      WindowsUnique(p[1..], q[1..]);
      assert p == [p[0]] + p[1..] && q == [q[0]] + q[1..];
    }
  }

  lemma LaterWindows(p: seq<Window>, x: int)
    requires Separated(p) && p != []
    ensures Separated(p[1..])
    ensures Covered(p[1..], x) ==> x > p[0].1
  {
  }
}
