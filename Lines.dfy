/** The one-line transform behind every move of the board: drop the empty
    cells, group what is left into maximal runs of equal values, merge each run
    pair by pair, and pad back to the width of the board with empty cells.
    The pure functions here are the specification; ComputeLeft and
    ComputeRight are the loops that build the new line, proved against them. */
module Lines {

  /** Number of cells in a row and in a column of the board. */
  const Size: int := 4

  /** The value of an empty cell. */
  const Empty: int := 0

  /** A maximal run of equal values of a compacted line: the value it repeats
      and how many times (a group produced by grouping equal neighbours). */
  datatype Run = Run(value: int, count: nat)

  // ---------------------------------------------------------------------
  // Sequence helpers

  /** n copies of v, built by appending one at a time. */
  function Repeat(v: int, n: nat): (r: seq<int>)
    ensures |r| == n
  {
    if n == 0 then [] else Repeat(v, n - 1) + [v]
  }

  /** The empty cells added by a padding loop that runs `n` times; a count that
      is zero or negative adds nothing, as an empty integer range does. */
  function Zeros(n: int): (r: seq<int>)
    ensures |r| == if n <= 0 then 0 else n
  {
    if n <= 0 then [] else Repeat(Empty, n)
  }

  /** The elements of s in the opposite order. */
  function Reverse<T>(s: seq<T>): (r: seq<T>)
    ensures |r| == |s|
  {
    if s == [] then [] else [s[|s| - 1]] + Reverse(s[..|s| - 1])
  }

  /** The sum of the values of a line. */
  function Sum(s: seq<int>): int
  {
    if s == [] then 0 else Sum(s[..|s| - 1]) + s[|s| - 1]
  }

  // ---------------------------------------------------------------------
  // Tile values

  predicate IsPowerOfTwo(n: int)
    decreases if n < 0 then 0 else n
  {
    n == 1 || (n > 1 && n % 2 == 0 && IsPowerOfTwo(n / 2))
  }

  /** A cell value the game can hold: empty, or a power of two of at least 2. */
  predicate IsTile(v: int)
  {
    v == Empty || (v >= 2 && IsPowerOfTwo(v))
  }

  predicate AllTiles(s: seq<int>)
  {
    forall v :: v in s ==> IsTile(v)
  }

  /** A line that no move along it can change: full, and no two
      neighbouring cells equal. */
  predicate Settled(s: seq<int>)
  {
    && (forall i :: 0 <= i < |s| ==> s[i] != Empty)
    && (forall i :: 0 < i < |s| ==> s[i - 1] != s[i])
  }

  // ---------------------------------------------------------------------
  // The transform, step by step

  /** Step 1: the non-empty cells of a line, in their order. */
  function Compact(s: seq<int>): (r: seq<int>)
    ensures |r| <= |s|
  {
    if s == [] then []
    else Compact(s[..|s| - 1]) + (if s[|s| - 1] != Empty then [s[|s| - 1]] else [])
  }

  /** One more value at the end of a grouping: it lengthens the last run when
      that run has the same value, and starts a run of its own otherwise. */
  function Extend(rs: seq<Run>, x: int): seq<Run>
  {
    if rs != [] && rs[|rs| - 1].value == x
    then rs[..|rs| - 1] + [Run(x, rs[|rs| - 1].count + 1)]
    else rs + [Run(x, 1)]
  }

  /** Step 2: the maximal runs of equal neighbouring values of s, in order. */
  function Runs(s: seq<int>): seq<Run>
  {
    if s == [] then [] else Extend(Runs(s[..|s| - 1]), s[|s| - 1])
  }

  /** The line a sequence of runs stands for: each run written out in full. */
  function Expand(rs: seq<Run>): seq<int>
  {
    if rs == [] then []
    else Expand(rs[..|rs| - 1]) + Repeat(rs[|rs| - 1].value, rs[|rs| - 1].count)
  }

  /** rs splits s into maximal runs: together they spell s, none is empty, and
      two neighbouring runs never have the same value. */
  ghost predicate IsGrouping(s: seq<int>, rs: seq<Run>)
  {
    Expand(rs) == s && WellGrouped(rs)
  }

  /** No run is empty and neighbouring runs have different values. */
  ghost predicate WellGrouped(rs: seq<Run>)
  {
    && (forall i :: 0 <= i < |rs| ==> rs[i].count >= 1)
    && (forall i :: 0 < i < |rs| ==> rs[i - 1].value != rs[i].value)
  }

  /** Step 3 for a move towards the start of the line: a run of L copies of V
      becomes L / 2 cells of 2V followed by L % 2 cells of V. */
  function LeftBlock(r: Run): seq<int>
  {
    Repeat(2 * r.value, r.count / 2) + Repeat(r.value, r.count % 2)
  }

  /** The merged cells of all runs, appended in line order. */
  function MergeLeft(rs: seq<Run>): seq<int>
  {
    if rs == [] then [] else MergeLeft(rs[..|rs| - 1]) + LeftBlock(rs[|rs| - 1])
  }

  /** Step 3 for a move towards the end of the line: the cells a run puts in
      front of the line when its doubles and then its leftover are each
      inserted at position 0. */
  function RightBlock(r: Run): seq<int>
  {
    Repeat(r.value, r.count % 2) + Repeat(2 * r.value, r.count / 2)
  }

  /** The line built by visiting the runs from the last to the first and
      putting each run's cells in front of what was built so far. */
  function MergeRight(rs: seq<Run>): seq<int>
  {
    if rs == [] then [] else RightBlock(rs[0]) + MergeRight(rs[1..])
  }

  /** A line after a move towards its start (left for rows, up for columns):
      compacted, grouped, merged and padded with empty cells at its end. */
  function ShiftLineLeft(line: seq<int>): (r: seq<int>)
    ensures |line| <= Size ==> |r| == Size
  {
    MergedFits(line);
    var m := MergeLeft(Runs(Compact(line)));
    m + Zeros(Size - |m|)
  }

  /** A line after a move towards its end (right for rows, down for columns):
      compacted, grouped, merged from the end and padded at its start. */
  function ShiftLineRight(line: seq<int>): (r: seq<int>)
    ensures |line| <= Size ==> |r| == Size
  {
    MergedFits(line);
    var m := MergeRight(Runs(Compact(line)));
    Zeros(Size - |m|) + m
  }

  // ---------------------------------------------------------------------
  // The loops that build the new line

  /** The non-empty cells of line, kept in their order. */
  method CompactLine(line: seq<int>) returns (row: seq<int>)
    ensures row == Compact(line)
  {
    row := [];
    var i := 0;
    while i < |line|
      invariant 0 <= i <= |line|
      invariant row == Compact(line[..i])
    {
      assert line[..i + 1][..i] == line[..i];
      if line[i] != Empty {
        row := row + [line[i]];
      }
      i := i + 1;
    }
    assert line[..|line|] == line;
  }

  /** Groups a compacted line into its maximal runs, left to right. */
  method GroupRuns(row: seq<int>) returns (runs: seq<Run>)
    ensures runs == Runs(row)
    ensures IsGrouping(row, runs)
  {
    runs := [];
    var i := 0;
    while i < |row|
      invariant 0 <= i <= |row|
      invariant runs == Runs(row[..i])
    {
      assert row[..i + 1][..i] == row[..i];
      if |runs| > 0 && runs[|runs| - 1].value == row[i] {
        runs := runs[..|runs| - 1] + [Run(row[i], runs[|runs| - 1].count + 1)];
      } else {
        runs := runs + [Run(row[i], 1)];
      }
      i := i + 1;
    }
    assert row[..|row|] == row;
    RunsGroup(row);
  }

  /** Appends the merged cells of one run: its doubles, then its leftover. */
  method AppendRun(line: seq<int>, r: Run) returns (out: seq<int>)
    ensures out == line + LeftBlock(r)
  {
    out := line;
    var num := r.value;
    var i := 0;
    while i < r.count / 2
      invariant 0 <= i <= r.count / 2
      invariant out == line + Repeat(2 * num, i)
    {
      out := out + [num * 2];
      i := i + 1;
    }
    i := 0;
    while i < r.count % 2
      invariant 0 <= i <= r.count % 2
      invariant out == line + Repeat(2 * num, r.count / 2) + Repeat(num, i)
    {
      out := out + [num];
      i := i + 1;
    }
  }

  /** Inserts the merged cells of one run at the front: its doubles one at a
      time, then its leftover, each at position 0. */
  method PrependRun(line: seq<int>, r: Run) returns (out: seq<int>)
    ensures out == RightBlock(r) + line
  {
    out := line;
    var num := r.value;
    var i := 0;
    while i < r.count / 2
      invariant 0 <= i <= r.count / 2
      invariant out == Repeat(2 * num, i) + line
    {
      RepeatCons(2 * num, i);
      out := [num * 2] + out;
      i := i + 1;
    }
    i := 0;
    while i < r.count % 2
      invariant 0 <= i <= r.count % 2
      invariant out == Repeat(num, i) + Repeat(2 * num, r.count / 2) + line
    {
      RepeatCons(num, i);
      out := [num] + out;
      i := i + 1;
    }
  }

  /** Builds the new line of a left or up move: appends each run's doubles and
      leftover in line order, then appends empty cells up to the board width. */
  method ComputeLeft(line: seq<int>) returns (newLine: seq<int>)
    requires |line| == Size
    ensures newLine == ShiftLineLeft(line)
    ensures |newLine| == Size
  {
    var row := CompactLine(line);
    var runs := GroupRuns(row);
    newLine := MergeRunsLeft(runs);
    LeftVia(line, runs, newLine);
    MergedFits(line);
    newLine := PadEnd(newLine);
  }

  /** Appends the cells of every run, in line order. */
  method MergeRunsLeft(runs: seq<Run>) returns (newLine: seq<int>)
    ensures newLine == MergeLeft(runs)
  {
    newLine := [];
    var k := 0;
    while k < |runs|
      invariant 0 <= k <= |runs|
      invariant newLine == MergeLeft(runs[..k])
    {
      assert runs[..k + 1][..k] == runs[..k];
      newLine := AppendRun(newLine, runs[k]);
      k := k + 1;
    }
    assert runs[..|runs|] == runs;
  }

  /** Appends `Size - |merged|` empty cells (none when that count is not positive). */
  method PadEnd(merged: seq<int>) returns (newLine: seq<int>)
    ensures newLine == merged + Zeros(Size - |merged|)
  {
    newLine := merged;
    var pad := Size - |merged|;
    var e := 0;
    while e < pad
      invariant 0 <= e
      invariant e <= pad || e == 0
      invariant newLine == merged + Zeros(e)
    {
      newLine := newLine + [Empty];
      e := e + 1;
    }
  }

  /** Inserts `Size - |merged|` empty cells at the front. */
  method PadFront(merged: seq<int>) returns (newLine: seq<int>)
    ensures newLine == Zeros(Size - |merged|) + merged
  {
    newLine := merged;
    var pad := Size - |merged|;
    var e := 0;
    while e < pad
      invariant 0 <= e
      invariant e <= pad || e == 0
      invariant newLine == Zeros(e) + merged
    {
      RepeatCons(Empty, e);
      newLine := [Empty] + newLine;
      e := e + 1;
    }
  }

  /** Builds the new line of a right or down move: visits the runs from the
      last to the first and puts each run's cells at the front, then inserts
      empty cells at the front up to the board width. */
  method ComputeRight(line: seq<int>) returns (newLine: seq<int>)
    requires |line| == Size
    ensures newLine == ShiftLineRight(line)
    ensures |newLine| == Size
  {
    var row := CompactLine(line);
    var runs := GroupRuns(row);
    newLine := MergeRunsRight(runs);
    RightVia(line, runs, newLine);
    MergedFits(line);
    newLine := PadFront(newLine);
  }

  /** Puts the cells of every run in front of the line, from the last run
      to the first. */
  method MergeRunsRight(runs: seq<Run>) returns (newLine: seq<int>)
    ensures newLine == MergeRight(runs)
  {
    newLine := [];
    var k := |runs|;
    while k > 0
      invariant 0 <= k <= |runs|
      invariant newLine == MergeRight(runs[k..])
    {
      k := k - 1;
      assert runs[k..][1..] == runs[k + 1..];
      newLine := PrependRun(newLine, runs[k]);
    }
  }

  // ---------------------------------------------------------------------
  // Lemmas: building blocks

  lemma {:induction false} RepeatCons(v: int, n: nat)
    ensures [v] + Repeat(v, n) == Repeat(v, n + 1)
  {
    if n > 0 {
      RepeatCons(v, n - 1);
    }
  }

  lemma {:induction false} ReverseAppend<T>(a: seq<T>, b: seq<T>)
    ensures Reverse(a + b) == Reverse(b) + Reverse(a)
  {
    if b == [] {
      assert a + b == a;
    } else {
      var b' := b[..|b| - 1];
      assert (a + b)[..|a + b| - 1] == a + b';
      ReverseAppend(a, b');
    }
  }

  lemma {:induction false} ReverseRepeat(v: int, n: nat)
    ensures Reverse(Repeat(v, n)) == Repeat(v, n)
  {
    if n > 0 {
      ReverseRepeat(v, n - 1);
      RepeatCons(v, n - 1);
    }
  }

  lemma ReverseZeros(n: int)
    ensures Reverse(Zeros(n)) == Zeros(n)
  {
    if n > 0 {
      ReverseRepeat(Empty, n);
    }
  }

  lemma {:induction false} CompactAppend(a: seq<int>, b: seq<int>)
    ensures Compact(a + b) == Compact(a) + Compact(b)
  {
    if b == [] {
      assert a + b == a;
    } else {
      var b' := b[..|b| - 1];
      assert (a + b)[..|a + b| - 1] == a + b';
      CompactAppend(a, b');
    }
  }

  lemma {:induction false} CompactZeros(n: nat)
    ensures Compact(Repeat(Empty, n)) == []
  {
    if n > 0 {
      CompactZeros(n - 1);
    }
  }

  lemma {:induction false} CompactReverse(s: seq<int>)
    ensures Compact(Reverse(s)) == Reverse(Compact(s))
  {
    if s != [] {
      var init, x := s[..|s| - 1], s[|s| - 1];
      assert s == init + [x];
      CompactReverse(init);
      CompactAppend([x], Reverse(init));
      CompactAppend(init, [x]);
      assert Compact([x]) == Compact([] + [x]);
      ReverseAppend(Compact(init), Compact([x]));
    }
  }

  lemma {:induction false} SumAppend(a: seq<int>, b: seq<int>)
    ensures Sum(a + b) == Sum(a) + Sum(b)
  {
    if b == [] {
      assert a + b == a;
    } else {
      var b' := b[..|b| - 1];
      assert (a + b)[..|a + b| - 1] == a + b';
      SumAppend(a, b');
    }
  }

  lemma {:induction false} SumRepeat(v: int, n: nat)
    ensures Sum(Repeat(v, n)) == n * v
  {
    if n > 0 {
      SumRepeat(v, n - 1);
    }
  }

  lemma {:induction false} SumReverse(s: seq<int>)
    ensures Sum(Reverse(s)) == Sum(s)
  {
    if s != [] {
      var init, x := s[..|s| - 1], s[|s| - 1];
      SumReverse(init);
      SumAppend([x], Reverse(init));
      assert Sum([x]) == Sum([]) + x;
    }
  }

  lemma {:induction false} SumCompact(s: seq<int>)
    ensures Sum(Compact(s)) == Sum(s)
  {
    if s != [] {
      var init, x := s[..|s| - 1], s[|s| - 1];
      SumCompact(init);
      SumAppend(Compact(init), if x != Empty then [x] else []);
      assert Sum([x]) == Sum([]) + x;
    }
  }

  /** Joining two groupings: the last run of p and the first run of q fuse
      when their values agree. */
  function Join(p: seq<Run>, q: seq<Run>): seq<Run>
  {
    if p != [] && q != [] && p[|p| - 1].value == q[0].value
    then p[..|p| - 1] + [Run(q[0].value, p[|p| - 1].count + q[0].count)] + q[1..]
    else p + q
  }

  lemma JoinExtend(p: seq<Run>, q: seq<Run>, x: int)
    ensures Extend(Join(p, q), x) == Join(p, Extend(q, x))
  {
    if q == [] {
      assert Join(p, q) == p;
    } else if p != [] && p[|p| - 1].value == q[0].value {
      if |q| == 1 {
        JoinExtendFusedSingle(p, q, x);
      } else {
        JoinExtendFusedLonger(p, q, x);
      }
    } else {
      JoinExtendApart(p, q, x);
    }
  }

  lemma JoinExtendFusedSingle(p: seq<Run>, q: seq<Run>, x: int)
    requires p != [] && |q| == 1 && p[|p| - 1].value == q[0].value
    ensures Extend(Join(p, q), x) == Join(p, Extend(q, x))
  {
    var pl := p[..|p| - 1];
    var fused := Run(q[0].value, p[|p| - 1].count + q[0].count);
    assert Join(p, q) == pl + [fused];
    if q[0].value == x {
      assert Extend(q, x) == [Run(x, q[0].count + 1)];
    } else {
      assert Extend(q, x) == q + [Run(x, 1)];
      assert Join(p, Extend(q, x)) == pl + [fused] + [Run(x, 1)];
    }
  }

  lemma JoinExtendFusedLonger(p: seq<Run>, q: seq<Run>, x: int)
    requires p != [] && |q| > 1 && p[|p| - 1].value == q[0].value
    ensures Extend(Join(p, q), x) == Join(p, Extend(q, x))
  {
    var pl := p[..|p| - 1];
    var fused := Run(q[0].value, p[|p| - 1].count + q[0].count);
    var j := pl + [fused] + q[1..];
    assert Join(p, q) == j;
    assert j[|j| - 1] == q[|q| - 1];
    if q[|q| - 1].value == x {
      var last := Run(x, q[|q| - 1].count + 1);
      var q' := q[..|q| - 1] + [last];
      assert Extend(q, x) == q';
      assert q'[0] == q[0];
      assert q'[1..] == q[1..|q| - 1] + [last];
      assert j[..|j| - 1] == pl + [fused] + q[1..|q| - 1];
      assert Extend(j, x) == pl + [fused] + q[1..|q| - 1] + [last];
    } else {
      assert Extend(q, x) == q + [Run(x, 1)];
      assert (q + [Run(x, 1)])[1..] == q[1..] + [Run(x, 1)];
    }
  }

  lemma JoinExtendApart(p: seq<Run>, q: seq<Run>, x: int)
    requires q != [] && !(p != [] && p[|p| - 1].value == q[0].value)
    ensures Extend(Join(p, q), x) == Join(p, Extend(q, x))
  {
    assert Join(p, q) == p + q;
    if q[|q| - 1].value == x {
      var q' := q[..|q| - 1] + [Run(x, q[|q| - 1].count + 1)];
      assert Extend(q, x) == q';
      assert |q| == 1 || q'[0] == q[0];
      assert (p + q)[..|p + q| - 1] == p + q[..|q| - 1];
    } else {
      assert Extend(q, x) == q + [Run(x, 1)];
      assert (q + [Run(x, 1)])[0] == q[0];
    }
  }

  lemma {:induction false} RunsAppend(a: seq<int>, b: seq<int>)
    ensures Runs(a + b) == Join(Runs(a), Runs(b))
  {
    if b == [] {
      assert a + b == a;
    } else {
      var b', x := b[..|b| - 1], b[|b| - 1];
      assert (a + b)[..|a + b| - 1] == a + b';
      RunsAppend(a, b');
      JoinExtend(Runs(a), Runs(b'), x);
    }
  }

  lemma ReverseExtend(rs: seq<Run>, x: int)
    ensures Reverse(Extend(rs, x)) == Join([Run(x, 1)], Reverse(rs))
  {
    if rs != [] && rs[|rs| - 1].value == x {
      var init := rs[..|rs| - 1];
      var e := init + [Run(x, rs[|rs| - 1].count + 1)];
      assert e[..|e| - 1] == init;
      assert Reverse(rs)[1..] == Reverse(init);
    } else {
      var e := rs + [Run(x, 1)];
      assert e[..|e| - 1] == rs;
    }
  }

  lemma {:induction false} RunsReverse(s: seq<int>)
    ensures Runs(Reverse(s)) == Reverse(Runs(s))
  {
    if s != [] {
      var init, x := s[..|s| - 1], s[|s| - 1];
      RunsReverse(init);
      RunsAppend([x], Reverse(init));
      assert Runs([x]) == [Run(x, 1)];
      ReverseExtend(Runs(init), x);
    }
  }

  lemma {:induction false} MergeLeftAppend(a: seq<Run>, b: seq<Run>)
    ensures MergeLeft(a + b) == MergeLeft(a) + MergeLeft(b)
  {
    if b == [] {
      assert a + b == a;
    } else {
      var b' := b[..|b| - 1];
      assert (a + b)[..|a + b| - 1] == a + b';
      MergeLeftAppend(a, b');
    }
  }

  lemma ReverseBlock(r: Run)
    ensures Reverse(LeftBlock(r)) == RightBlock(r)
  {
    ReverseAppend(Repeat(2 * r.value, r.count / 2), Repeat(r.value, r.count % 2));
    ReverseRepeat(2 * r.value, r.count / 2);
    ReverseRepeat(r.value, r.count % 2);
  }

  lemma {:induction false} ReverseMergeLeft(rs: seq<Run>)
    ensures Reverse(MergeLeft(Reverse(rs))) == MergeRight(rs)
  {
    if rs != [] {
      var r, t := rs[0], rs[1..];
      assert rs == [r] + t;
      ReverseAppend([r], t);
      assert Reverse([r]) == [r];
      MergeLeftAppend(Reverse(t), [r]);
      assert MergeLeft([r]) == LeftBlock(r);
      ReverseAppend(MergeLeft(Reverse(t)), LeftBlock(r));
      ReverseBlock(r);
      ReverseMergeLeft(t);
    }
  }

  lemma {:induction false} MergeNoLonger(rs: seq<Run>)
    ensures |MergeLeft(rs)| <= |Expand(rs)|
    ensures |MergeRight(rs)| == |MergeLeft(rs)|
  {
    if rs != [] {
      MergeNoLonger(rs[..|rs| - 1]);
    }
    ReverseMergeLeft(rs);
    ReverseReverseRuns(rs);
    assert |MergeRight(rs)| == |MergeLeft(Reverse(rs))|;
    MergeLengthReverse(rs);
  }

  lemma {:induction false} ReverseReverseRuns(rs: seq<Run>)
    ensures Reverse(Reverse(rs)) == rs
  {
    if rs != [] {
      var init, x := rs[..|rs| - 1], rs[|rs| - 1];
      ReverseReverseRuns(init);
      ReverseAppend([x], Reverse(init));
      assert rs == init + [x];
    }
  }

  /** The length of the merged line does not depend on the order of the runs. */
  lemma {:induction false} MergeLengthReverse(rs: seq<Run>)
    ensures |MergeLeft(Reverse(rs))| == |MergeLeft(rs)|
  {
    if rs != [] {
      var init, x := rs[..|rs| - 1], rs[|rs| - 1];
      MergeLengthReverse(init);
      MergeLeftAppend([x], Reverse(init));
      assert MergeLeft([x]) == LeftBlock(x);
    }
  }

  lemma {:induction false} ExpandExtend(rs: seq<Run>, x: int)
    ensures Expand(Extend(rs, x)) == Expand(rs) + [x]
  {
    if rs != [] && rs[|rs| - 1].value == x {
      var init, last := rs[..|rs| - 1], rs[|rs| - 1];
      var e := init + [Run(x, last.count + 1)];
      assert e[..|e| - 1] == init;
      assert Repeat(x, last.count + 1) == Repeat(x, last.count) + [x];
    } else {
      var e := rs + [Run(x, 1)];
      assert e[..|e| - 1] == rs;
    }
  }

  // ---------------------------------------------------------------------
  // Lemmas: the properties of the transform

  lemma ExtendWellGrouped(rs: seq<Run>, x: int)
    requires WellGrouped(rs)
    ensures WellGrouped(Extend(rs, x))
  {
    if rs != [] && rs[|rs| - 1].value == x {
      var e := Extend(rs, x);
      assert forall i :: 0 <= i < |rs| - 1 ==> e[i] == rs[i];
    }
  }

  /** Grouping is faithful: the runs of s spell s, none is empty, and no two
      neighbouring runs share a value (so each run is maximal). */
  lemma {:induction false} RunsGroup(s: seq<int>)
    ensures IsGrouping(s, Runs(s))
  {
    if s != [] {
      var init, x := s[..|s| - 1], s[|s| - 1];
      RunsGroup(init);
      ExpandExtend(Runs(init), x);
      ExtendWellGrouped(Runs(init), x);
      assert s == init + [x];
    }
  }

  /** Merging never lengthens a line, so the padding count is never negative
      for a line of the board's width. */
  lemma MergedFits(line: seq<int>)
    ensures |MergeLeft(Runs(Compact(line)))| <= |Compact(line)| <= |line|
    ensures |MergeRight(Runs(Compact(line)))| == |MergeLeft(Runs(Compact(line)))|
  {
    MergeNoLonger(Runs(Compact(line)));
    RunsGroup(Compact(line));
  }

  /** A move to the right is a move to the left seen in a mirror. */
  lemma RightMirrorsLeft(line: seq<int>)
    ensures ShiftLineRight(line) == Reverse(ShiftLineLeft(Reverse(line)))
  {
    var rs := Runs(Compact(line));
    CompactReverse(line);
    RunsReverse(Compact(line));
    assert Runs(Compact(Reverse(line))) == Reverse(rs);
    var mL := MergeLeft(Reverse(rs));
    LeftVia(Reverse(line), Reverse(rs), mL);
    ReverseAppend(mL, Zeros(Size - |mL|));
    ReverseZeros(Size - |mL|);
    ReverseMergeLeft(rs);
    RightVia(line, rs, Reverse(mL));
  }

  /** A run of L copies of V merges into cells worth L * V in total. */
  lemma SumBlock(r: Run)
    ensures Sum(LeftBlock(r)) == r.count * r.value
  {
    var h, b, v := r.count / 2, r.count % 2, r.value;
    SumAppend(Repeat(2 * v, h), Repeat(v, b));
    SumRepeat(2 * v, h);
    SumRepeat(v, b);
    assert r.count == 2 * h + b;
    Distribute(h, b, v);
  }

  lemma Distribute(h: int, b: int, v: int)
    ensures h * (2 * v) + b * v == (2 * h + b) * v
  {
  }

  lemma {:induction false} SumMergeLeft(rs: seq<Run>)
    ensures Sum(MergeLeft(rs)) == Sum(Expand(rs))
  {
    if rs != [] {
      var init, r := rs[..|rs| - 1], rs[|rs| - 1];
      SumMergeLeft(init);
      SumAppend(MergeLeft(init), LeftBlock(r));
      SumAppend(Expand(init), Repeat(r.value, r.count));
      SumBlock(r);
      SumRepeat(r.value, r.count);
    }
  }

  lemma SumZeros(n: int)
    ensures Sum(Zeros(n)) == 0
  {
    if n > 0 {
      SumRepeat(Empty, n);
    }
  }

  lemma SumLeft(line: seq<int>)
    ensures Sum(ShiftLineLeft(line)) == Sum(line)
  {
    var rs := Runs(Compact(line));
    var m := MergeLeft(rs);
    LeftVia(line, rs, m);
    SumAppend(m, Zeros(Size - |m|));
    SumZeros(Size - |m|);
    SumMergeLeft(rs);
    ExpandRuns(Compact(line));
    SumCompact(line);
  }

  /** Expanding the runs of s gives s back. */
  lemma ExpandRuns(s: seq<int>)
    ensures Expand(Runs(s)) == s
  {
    RunsGroup(s);
  }

  /** A move keeps the total of the line: a run of L copies of V turns into
      cells worth (L / 2) * 2V + (L % 2) * V = L * V. */
  lemma SumPreserved(line: seq<int>)
    ensures Sum(ShiftLineLeft(line)) == Sum(line)
    ensures Sum(ShiftLineRight(line)) == Sum(line)
  {
    SumLeft(line);
    SumLeft(Reverse(line));
    RightMirrorsLeft(line);
    SumReverse(ShiftLineLeft(Reverse(line)));
    SumReverse(line);
  }

  /** A move never adds occupied cells to a line: merging only removes them. */
  lemma OccupiedNeverIncreases(line: seq<int>)
    ensures |Compact(ShiftLineLeft(line))| <= |Compact(line)|
    ensures |Compact(ShiftLineRight(line))| <= |Compact(line)|
  {
    var rs := Runs(Compact(line));
    var m := MergeLeft(rs);
    MergeNoLonger(rs);
    RunsGroup(Compact(line));
    CompactAppend(m, Zeros(Size - |m|));
    if Size - |m| > 0 {
      CompactZeros(Size - |m|);
    }
    var mr := MergeRight(rs);
    CompactAppend(Zeros(Size - |mr|), mr);
    if Size - |mr| > 0 {
      CompactZeros(Size - |mr|);
    }
  }

  lemma {:induction false} RepeatMembers(v: int, n: nat)
    ensures forall e :: e in Repeat(v, n) ==> e == v
  {
    if n > 0 {
      RepeatMembers(v, n - 1);
    }
  }

  lemma {:induction false} CompactMembers(s: seq<int>)
    ensures forall e :: e in Compact(s) ==> e in s && e != Empty
  {
    if s != [] {
      CompactMembers(s[..|s| - 1]);
    }
  }

  lemma {:induction false} RunsMembers(s: seq<int>)
    ensures forall r :: r in Runs(s) ==> r.value in s
  {
    if s != [] {
      var init := s[..|s| - 1];
      RunsMembers(init);
      var rs := Runs(init);
      if rs != [] && rs[|rs| - 1].value == s[|s| - 1] {
        assert forall r :: r in rs[..|rs| - 1] ==> r in rs;
      }
    }
  }

  lemma TileDoubles(v: int)
    requires IsTile(v) && v != Empty
    ensures IsTile(2 * v)
  {
    assert (2 * v) / 2 == v;
  }

  lemma {:induction false} MergeLeftTiles(rs: seq<Run>)
    requires forall r :: r in rs ==> IsTile(r.value) && r.value != Empty
    ensures AllTiles(MergeLeft(rs))
  {
    if rs != [] {
      var init, r := rs[..|rs| - 1], rs[|rs| - 1];
      assert r in rs;
      MergeLeftTiles(init);
      TileDoubles(r.value);
      RepeatMembers(2 * r.value, r.count / 2);
      RepeatMembers(r.value, r.count % 2);
    }
  }

  lemma {:induction false} MergeRightTiles(rs: seq<Run>)
    requires forall r :: r in rs ==> IsTile(r.value) && r.value != Empty
    ensures AllTiles(MergeRight(rs))
  {
    if rs != [] {
      assert rs[0] in rs;
      MergeRightTiles(rs[1..]);
      TileDoubles(rs[0].value);
      RepeatMembers(2 * rs[0].value, rs[0].count / 2);
      RepeatMembers(rs[0].value, rs[0].count % 2);
    }
  }

  /** A move keeps every cell of a line empty or a power of two of at least
      2: only non-empty tiles are doubled. */
  lemma TilesPreserved(line: seq<int>)
    requires AllTiles(line)
    ensures AllTiles(ShiftLineLeft(line))
    ensures AllTiles(ShiftLineRight(line))
  {
    TilesLeft(line);
    TilesRight(line);
  }

  lemma TilesLeft(line: seq<int>)
    requires AllTiles(line)
    ensures AllTiles(ShiftLineLeft(line))
  {
    RunTiles(line);
    var rs := Runs(Compact(line));
    MergeLeftTiles(rs);
    var m := MergeLeft(rs);
    PaddedTiles(m);
    LeftVia(line, rs, m);
  }

  lemma TilesRight(line: seq<int>)
    requires AllTiles(line)
    ensures AllTiles(ShiftLineRight(line))
  {
    RunTiles(line);
    var rs := Runs(Compact(line));
    MergeRightTiles(rs);
    var m := MergeRight(rs);
    PaddedTiles(m);
    RightVia(line, rs, m);
  }

  /** The runs of a line of tiles repeat non-empty tiles. */
  lemma RunTiles(line: seq<int>)
    requires AllTiles(line)
    ensures forall r :: r in Runs(Compact(line)) ==> IsTile(r.value) && r.value != Empty
  {
    CompactMembers(line);
    RunsMembers(Compact(line));
  }

  lemma PaddedTiles(m: seq<int>)
    requires AllTiles(m)
    ensures AllTiles(m + Zeros(Size - |m|))
    ensures AllTiles(Zeros(Size - |m|) + m)
  {
    ZerosTiles(Size - |m|);
    TilesConcat(m, Zeros(Size - |m|));
    TilesConcat(Zeros(Size - |m|), m);
  }

  lemma TilesConcat(a: seq<int>, b: seq<int>)
    requires AllTiles(a) && AllTiles(b)
    ensures AllTiles(a + b)
  {
  }

  lemma ZerosTiles(n: int)
    ensures AllTiles(Zeros(n))
  {
    if n > 0 {
      RepeatMembers(Empty, n);
    }
  }

  /** The runs of a line whose neighbours all differ are single cells. */
  lemma {:induction false} RunsOfDistinct(s: seq<int>)
    requires forall i :: 0 < i < |s| ==> s[i - 1] != s[i]
    ensures Runs(s) == seq(|s|, i requires 0 <= i < |s| => Run(s[i], 1))
  {
    if s != [] {
      var init, x := s[..|s| - 1], s[|s| - 1];
      RunsOfDistinct(init);
    }
  }

  lemma {:induction false} MergeLeftSingles(rs: seq<Run>)
    requires forall i :: 0 <= i < |rs| ==> rs[i].count == 1
    ensures MergeLeft(rs) == seq(|rs|, i requires 0 <= i < |rs| => rs[i].value)
  {
    if rs != [] {
      var init := rs[..|rs| - 1];
      MergeLeftSingles(init);
      assert LeftBlock(rs[|rs| - 1]) == [rs[|rs| - 1].value];
    }
  }

  lemma {:induction false} MergeRightSingles(rs: seq<Run>)
    requires forall i :: 0 <= i < |rs| ==> rs[i].count == 1
    ensures MergeRight(rs) == seq(|rs|, i requires 0 <= i < |rs| => rs[i].value)
  {
    if rs != [] {
      MergeRightSingles(rs[1..]);
      assert RightBlock(rs[0]) == [rs[0].value];
    }
  }

  lemma {:induction false} CompactFull(s: seq<int>)
    requires forall i :: 0 <= i < |s| ==> s[i] != Empty
    ensures Compact(s) == s
  {
    if s != [] {
      CompactFull(s[..|s| - 1]);
    }
  }

  /** A full line with no two equal neighbours cannot move in either direction. */
  lemma BlockedLineStays(line: seq<int>)
    requires |line| == Size && Settled(line)
    ensures ShiftLineLeft(line) == line
    ensures ShiftLineRight(line) == line
  {
    CompactFull(line);
    RunsOfDistinct(line);
    MergeLeftSingles(Runs(line));
    MergeRightSingles(Runs(line));
    LeftVia(line, Runs(line), line);
    RightVia(line, Runs(line), line);
  }

  /** A compaction that drops nothing leaves the line as it was. */
  lemma {:induction false} CompactKeepsAll(s: seq<int>)
    requires |Compact(s)| == |s|
    ensures Compact(s) == s
  {
    if s != [] {
      var init := s[..|s| - 1];
      assert |Compact(init)| <= |init|;
      CompactKeepsAll(init);
      assert s == init + [s[|s| - 1]];
    }
  }

  /** A merge that loses no cell merged nothing: every run is at most one cell. */
  lemma {:induction false} MergeKeepsAll(rs: seq<Run>)
    requires |MergeLeft(rs)| == |Expand(rs)|
    ensures forall i :: 0 <= i < |rs| ==> rs[i].count <= 1
  {
    if rs != [] {
      var init, last := rs[..|rs| - 1], rs[|rs| - 1];
      MergeNoLonger(init);
      assert |LeftBlock(last)| == last.count / 2 + last.count % 2;
      MergeKeepsAll(init);
      assert forall i :: 0 <= i < |init| ==> rs[i] == init[i];
    }
  }

  /** A line of the board's width whose merged cells fill it is unchanged
      by both moves. */
  lemma FilledMergeStays(line: seq<int>)
    requires |line| == Size
    requires |MergeLeft(Runs(Compact(line)))| == Size
    ensures ShiftLineLeft(line) == line && ShiftLineRight(line) == line
  {
    var c := Compact(line);
    var rs := Runs(c);
    MergedFits(line);
    RunsGroup(c);
    MergeNoLonger(rs);
    CompactKeepsAll(line);
    MergeKeepsAll(rs);
    MergeLeftSingles(rs);
    MergeRightSingles(rs);
    RunsAsValues(c, rs);
    LeftVia(line, rs, line);
    RightVia(line, rs, line);
  }

  /** Runs of single cells spell out their values one by one. */
  lemma RunsAsValues(c: seq<int>, rs: seq<Run>)
    requires IsGrouping(c, rs)
    requires forall i :: 0 <= i < |rs| ==> rs[i].count <= 1
    ensures forall i :: 0 <= i < |rs| ==> rs[i].count == 1
    ensures c == seq(|rs|, i requires 0 <= i < |rs| => rs[i].value)
  {
    SinglesExpand(rs);
  }

  lemma {:induction false} SinglesExpand(rs: seq<Run>)
    requires forall i :: 0 <= i < |rs| ==> rs[i].count == 1
    ensures Expand(rs) == seq(|rs|, i requires 0 <= i < |rs| => rs[i].value)
  {
    if rs != [] {
      SinglesExpand(rs[..|rs| - 1]);
      assert Repeat(rs[|rs| - 1].value, 1) == [rs[|rs| - 1].value];
    }
  }

  /** A move that changes a line of the board's width leaves its far end
      empty: the line was shortened by compaction or merging, so padding
      was added on the side away from the move. */
  lemma ChangedLineHasEmpty(line: seq<int>)
    requires |line| == Size
    ensures ShiftLineLeft(line) != line ==> ShiftLineLeft(line)[Size - 1] == Empty
    ensures ShiftLineRight(line) != line ==> ShiftLineRight(line)[0] == Empty
  {
    MergedFits(line);
    if |MergeLeft(Runs(Compact(line)))| == Size {
      FilledMergeStays(line);
    } else {
      PaddedEndEmpty(MergeLeft(Runs(Compact(line))));
      PaddedFrontEmpty(MergeRight(Runs(Compact(line))));
    }
  }

  /** A line shorter than the board's width, padded at its end, ends empty. */
  lemma PaddedEndEmpty(m: seq<int>)
    requires |m| < Size
    ensures (m + Zeros(Size - |m|))[Size - 1] == Empty
  {
    RepeatMembers(Empty, Size - |m|);
    assert (m + Zeros(Size - |m|))[Size - 1] in Zeros(Size - |m|);
  }

  /** A line shorter than the board's width, padded at its start, starts empty. */
  lemma PaddedFrontEmpty(m: seq<int>)
    requires |m| < Size
    ensures (Zeros(Size - |m|) + m)[0] == Empty
  {
    RepeatMembers(Empty, Size - |m|);
    assert (Zeros(Size - |m|) + m)[0] in Zeros(Size - |m|);
  }

  /** Equal values form a single run. */
  lemma {:induction false} RunsOfRepeat(v: int, n: nat)
    requires n >= 1
    ensures Runs(Repeat(v, n)) == [Run(v, n)]
  {
    if n > 1 {
      RunsOfRepeat(v, n - 1);
    }
  }

  lemma TwosRepeat()
    ensures [2, 2, 2] == Repeat(2, 3)
    ensures [2, 2, 2, 2] == Repeat(2, 4)
  {
    assert Repeat(2, 2) == [2, 2];
  }

  lemma TwosCompactFull(line: seq<int>)
    requires line == [2, 2, 2, 2]
    ensures Compact(line) == line
  {
    CompactFull(line);
  }

  lemma TwosCompactOdd(line: seq<int>)
    requires line == [2, 2, 2, 0]
    ensures Compact(line) == [2, 2, 2]
  {
    var a: seq<int>, b: seq<int> := [2, 2, 2], [];
    assert line == a + [Empty] + b;
    CompactDropsEmpty(a, b);
    CompactFull(a);
  }

  lemma TwosCompactGap(line: seq<int>)
    requires line == [2, 0, 2, 2]
    ensures Compact(line) == [2, 2, 2]
  {
    var a, b := line[..1], line[2..];
    assert line == a + [Empty] + b;
    CompactDropsEmpty(a, b);
    CompactFull(a);
    CompactFull(b);
  }

  /** Compacting drops an empty cell wherever it sits. */
  lemma CompactDropsEmpty(a: seq<int>, b: seq<int>)
    ensures Compact(a + [Empty] + b) == Compact(a) + Compact(b)
  {
    CompactAppend(a + [Empty], b);
    CompactAppend(a, [Empty]);
    assert Compact([Empty]) == [] by { assert [Empty][..0] == []; }
  }

  lemma MergeOfTwos()
    ensures MergeLeft([Run(2, 3)]) == [4, 2]
    ensures MergeLeft([Run(2, 4)]) == [4, 4]
    ensures MergeRight([Run(2, 3)]) == [2, 4]
    ensures MergeRight([Run(2, 4)]) == [4, 4]
  {
    assert [Run(2, 3)][..0] == [];
    assert [Run(2, 4)][..0] == [];
    assert Repeat(4, 2) == [4, 4];
    assert Repeat(4, 1) == [4];
    assert Repeat(2, 1) == [2];
  }

  lemma LeftVia(line: seq<int>, rs: seq<Run>, m: seq<int>)
    requires Runs(Compact(line)) == rs && MergeLeft(rs) == m
    ensures ShiftLineLeft(line) == m + Zeros(Size - |m|)
  {
  }

  lemma RightVia(line: seq<int>, rs: seq<Run>, m: seq<int>)
    requires Runs(Compact(line)) == rs && MergeRight(rs) == m
    ensures ShiftLineRight(line) == Zeros(Size - |m|) + m
  {
  }

  // The worked examples. Each takes its line as a parameter equal to the
  // example, so that the verifier follows the steps given here instead of
  // unfolding the definitions on the literal by itself.

  /** Four equal tiles make two merged pairs, at the start or at the end. */
  lemma FullRunExample(line: seq<int>)
    requires line == [2, 2, 2, 2]
    ensures ShiftLineLeft(line) == [4, 4, 0, 0]
    ensures ShiftLineRight(line) == [0, 0, 4, 4]
  {
    FullRunSteps(line);
    MergeOfTwos();
    assert Zeros(2) == [0, 0];
    LeftVia(line, [Run(2, 4)], [4, 4]);
    RightVia(line, [Run(2, 4)], [4, 4]);
  }

  lemma FullRunSteps(line: seq<int>)
    requires line == [2, 2, 2, 2]
    ensures Runs(Compact(line)) == [Run(2, 4)]
  {
    TwosCompactFull(line);
    TwosRepeat();
    RunsOfRepeat(2, 4);
  }

  /** In a run of three, one pair merges and the leftover keeps its value;
      which pair merges depends on the direction. */
  lemma OddRunExample(line: seq<int>)
    requires line == [2, 2, 2, 0]
    ensures ShiftLineLeft(line) == [4, 2, 0, 0]
    ensures ShiftLineRight(line) == [0, 0, 2, 4]
  {
    OddRunSteps(line);
    MergeOfTwos();
    assert Zeros(2) == [0, 0];
    LeftVia(line, [Run(2, 3)], [4, 2]);
    RightVia(line, [Run(2, 3)], [2, 4]);
  }

  lemma OddRunSteps(line: seq<int>)
    requires line == [2, 2, 2, 0]
    ensures Runs(Compact(line)) == [Run(2, 3)]
  {
    TwosCompactOdd(line);
    TwosRepeat();
    RunsOfRepeat(2, 3);
  }

  /** An empty cell between equal tiles does not keep them apart: the line is
      compacted before it is grouped. */
  lemma GapExample(line: seq<int>)
    requires line == [2, 0, 2, 2]
    ensures ShiftLineLeft(line) == [4, 2, 0, 0]
  {
    GapSteps(line);
    MergeOfTwos();
    assert Zeros(2) == [0, 0];
    LeftVia(line, [Run(2, 3)], [4, 2]);
  }

  lemma GapSteps(line: seq<int>)
    requires line == [2, 0, 2, 2]
    ensures Runs(Compact(line)) == [Run(2, 3)]
  {
    TwosCompactGap(line);
    TwosRepeat();
    RunsOfRepeat(2, 3);
  }
}
