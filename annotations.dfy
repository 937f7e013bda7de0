/**
 * What the annotation scanner extracts from a script: every maximal run of
 * consecutive marker lines (lines whose left-stripped text starts with `#@`)
 * becomes one paragraph, keyed by the 0-based index of the run's last line.
 */
module Annotations {
  import opened Text

  const Marker: string := "#@"

  /** A line counts when, once its indentation is dropped, it starts with the marker. */
  predicate IsMarker(line: string) {
    StartsWith(LStrip(line), Marker)
  }

  /** `l.lstrip()[2:].strip()`: the text after the marker, trimmed. */
  function Remainder(line: string): string {
    var t := LStrip(line);
    if |t| >= 2 then Strip(t[2..]) else ""
  }

  /** Which lines of the script are marker lines. */
  function Marks(lines: seq<string>): (marks: seq<bool>)
    ensures |marks| == |lines|
  {
    seq(|lines|, i requires 0 <= i < |lines| => IsMarker(lines[i]))
  }

  /** Index `i` is inside `marks` and flagged. */
  predicate Flagged(marks: seq<bool>, i: int) {
    0 <= i < |marks| && marks[i]
  }

  /** The inclusive index range `first..last` of a run of marker lines. */
  datatype Run = Run(first: nat, last: nat)

  /** One scanned paragraph: the content key and the rendered text. */
  datatype Block = Block(key: int, text: string)

  /** `r` is a maximal run: all its lines are flagged and the lines just outside it are not. */
  ghost predicate IsMaximalRun(marks: seq<bool>, r: Run) {
    && r.first <= r.last < |marks|
    && (forall i :: r.first <= i <= r.last ==> marks[i])
    && !Flagged(marks, r.first - 1)
    && !Flagged(marks, r.last + 1)
  }

  /** Some run of `runs` contains index `i`. */
  ghost predicate Covered(runs: seq<Run>, i: int) {
    exists j :: 0 <= j < |runs| && runs[j].first <= i <= runs[j].last
  }

  function Last<T>(s: seq<T>): T
    requires s != []
  {
    s[|s| - 1]
  }

  function AllButLast<T>(s: seq<T>): seq<T> {
    if s == [] then [] else s[..|s| - 1]
  }

  /**
   * The runs of flagged indices, in ascending order, built one index at a
   * time: a flagged index right after the last run's last index extends that
   * run, any other flagged index opens a new one.
   */
  function RunsOf(marks: seq<bool>): (runs: seq<Run>)
    ensures forall j :: 0 <= j < |runs| ==> runs[j].first <= runs[j].last < |marks|
    decreases |marks|
  {
    if marks == [] then []
    else
      var k := |marks| - 1;
      var prev := RunsOf(marks[..k]);
      if !marks[k] then prev
      else if prev != [] && Last(prev).last + 1 == k then AllButLast(prev) + [Run(Last(prev).first, k)]
      else prev + [Run(k, k)]
  }

  /** The runs of marker lines of a script. */
  function Runs(lines: seq<string>): (runs: seq<Run>)
    ensures forall j :: 0 <= j < |runs| ==> runs[j].first <= runs[j].last < |lines|
  {
    RunsOf(Marks(lines))
  }

  function Remainders(ls: seq<string>): seq<string> {
    seq(|ls|, i requires 0 <= i < |ls| => Remainder(ls[i]))
  }

  /** The paragraph of a run: the remainders of its lines joined by single spaces. */
  function RunText(lines: seq<string>, r: Run): string
    requires r.first <= r.last < |lines|
  {
    Join(" ", Remainders(lines[r.first..r.last + 1]))
  }

  /** The blocks emitted for `runs`: one per run whose paragraph is non-empty. */
  function BlocksOf(lines: seq<string>, runs: seq<Run>): seq<Block>
    requires forall j :: 0 <= j < |runs| ==> runs[j].first <= runs[j].last < |lines|
    decreases |runs|
  {
    if runs == [] then []
    else
      var r := Last(runs);
      var t := RunText(lines, r);
      BlocksOf(lines, AllButLast(runs)) + (if t != "" then [Block(r.last, "\n" + t + "\n")] else [])
  }

  /** Everything the scanner emits for a script, in emission order. */
  function Blocks(lines: seq<string>): seq<Block> {
    BlocksOf(lines, Runs(lines))
  }

  /** The dictionary built by inserting `blocks` one after another. */
  function ToMap(blocks: seq<Block>): map<int, string>
    decreases |blocks|
  {
    if blocks == [] then map[] else ToMap(AllButLast(blocks))[Last(blocks).key := Last(blocks).text]
  }

  /** Each run ends more than one index before any later run starts. */
  predicate Ordered(runs: seq<Run>) {
    forall a, b :: 0 <= a < b < |runs| ==> runs[a].last + 1 < runs[b].first
  }

  /** Every entry of `runs` is a maximal run. */
  ghost predicate AllMaximal(marks: seq<bool>, runs: seq<Run>) {
    forall j :: 0 <= j < |runs| ==> IsMaximalRun(marks, runs[j])
  }
  /** Every flagged index lies in some entry of `runs`. */
  ghost predicate CoversAll(marks: seq<bool>, runs: seq<Run>) {
    forall i :: Flagged(marks, i) ==> Covered(runs, i)
  }
  /** `runs` is the list of maximal runs of `marks`, in ascending order, missing none. */
  ghost predicate AreMaximalRuns(marks: seq<bool>, runs: seq<Run>) {
    AllMaximal(marks, runs) && Ordered(runs) && CoversAll(marks, runs)
  }

  /** A maximal run of a prefix stays maximal when the next index does not touch it. */
  lemma MaximalKept(marks: seq<bool>, r: Run)
    requires marks != []
    requires IsMaximalRun(marks[..|marks| - 1], r)
    requires r.last + 1 < |marks| - 1 || !marks[|marks| - 1]
    ensures IsMaximalRun(marks, r)
  {
    assert forall i :: 0 <= i < |marks| - 1 ==> marks[..|marks| - 1][i] == marks[i];
  }

  /** Coverage of the prefix carries over to runs that keep or grow the prefix's runs. */
  lemma CoveredKept(prev: seq<Run>, runs: seq<Run>, i: int)
    requires Covered(prev, i)
    requires |prev| <= |runs|
    requires forall j :: 0 <= j < |prev| ==> runs[j].first <= prev[j].first && prev[j].last <= runs[j].last
    ensures Covered(runs, i)
  {
    var j :| 0 <= j < |prev| && prev[j].first <= i <= prev[j].last;
    assert runs[j].first <= i <= runs[j].last;
  }

  /** An index that is not flagged leaves the runs before it maximal. */
  lemma StepPlainLine(marks: seq<bool>)
    requires marks != [] && !marks[|marks| - 1]
    requires AreMaximalRuns(marks[..|marks| - 1], RunsOf(marks[..|marks| - 1]))
    ensures AreMaximalRuns(marks, RunsOf(marks))
  {
    PlainKeepsMaximal(marks, RunsOf(marks[..|marks| - 1]));
  }

  lemma PlainKeepsMaximal(marks: seq<bool>, prev: seq<Run>)
    requires marks != [] && !marks[|marks| - 1]
    requires AreMaximalRuns(marks[..|marks| - 1], prev)
    ensures AreMaximalRuns(marks, prev)
  {
    var p := marks[..|marks| - 1];
    forall j | 0 <= j < |prev| ensures IsMaximalRun(marks, prev[j]) {
      MaximalKept(marks, prev[j]);
    }
    forall i | Flagged(marks, i) ensures Covered(prev, i) {
      assert Flagged(p, i);
    }
  }

  /** A maximal run of the prefix that ends just before a flagged last index grows by that index. */
  lemma ExtendedRunMaximal(marks: seq<bool>, r: Run)
    requires marks != [] && marks[|marks| - 1]
    requires IsMaximalRun(marks[..|marks| - 1], r)
    requires r.last + 1 == |marks| - 1
    ensures IsMaximalRun(marks, Run(r.first, |marks| - 1))
  {
    var k := |marks| - 1;
    forall i | r.first <= i <= k ensures marks[i] {
      if i < k {
        assert marks[..k][i] == marks[i];
      }
    }
  }

  /** A flagged index right after the last run extends that run. */
  lemma StepExtendRun(marks: seq<bool>)
    requires marks != [] && marks[|marks| - 1]
    requires var prev := RunsOf(marks[..|marks| - 1]); prev != [] && Last(prev).last + 1 == |marks| - 1
    requires AreMaximalRuns(marks[..|marks| - 1], RunsOf(marks[..|marks| - 1]))
    ensures AreMaximalRuns(marks, RunsOf(marks))
  {
    var prev := RunsOf(marks[..|marks| - 1]);
    ExtendKeepsMaximal(marks, prev);
  }

  lemma ExtendKeepsMaximal(marks: seq<bool>, prev: seq<Run>)
    requires marks != [] && marks[|marks| - 1]
    requires prev != [] && Last(prev).last + 1 == |marks| - 1
    requires AreMaximalRuns(marks[..|marks| - 1], prev)
    ensures AreMaximalRuns(marks, AllButLast(prev) + [Run(Last(prev).first, |marks| - 1)])
  {
    var k := |marks| - 1;
    var n := |prev| - 1;
    var runs := AllButLast(prev) + [Run(Last(prev).first, k)];
    ExtendAllMaximal(marks, prev);
    ExtendOrdered(prev, k);
    ExtendCovers(marks, prev);
  }

  lemma ExtendAllMaximal(marks: seq<bool>, prev: seq<Run>)
    requires marks != [] && marks[|marks| - 1]
    requires prev != [] && Last(prev).last + 1 == |marks| - 1
    requires AllMaximal(marks[..|marks| - 1], prev) && Ordered(prev)
    ensures AllMaximal(marks, AllButLast(prev) + [Run(Last(prev).first, |marks| - 1)])
  {
    var init := AllButLast(prev);
    forall j | 0 <= j < |init| ensures IsMaximalRun(marks, init[j]) {
      EarlierRunMaximal(marks, prev, j);
    }
    LastRunExtended(marks, prev);
    AllMaximalSnoc(marks, init, Run(Last(prev).first, |marks| - 1));
  }

  lemma AllMaximalSnoc(marks: seq<bool>, runs: seq<Run>, r: Run)
    requires AllMaximal(marks, runs) && IsMaximalRun(marks, r)
    ensures AllMaximal(marks, runs + [r])
  {
    forall j | 0 <= j < |runs| + 1 ensures IsMaximalRun(marks, (runs + [r])[j]) {
      if j < |runs| {
        assert (runs + [r])[j] == runs[j];
      }
    }
  }

  /** A run before the last one stays maximal when a flagged index is appended after the last one. */
  lemma EarlierRunMaximal(marks: seq<bool>, prev: seq<Run>, j: nat)
    requires marks != [] && marks[|marks| - 1]
    requires j < |prev| - 1 && Last(prev).last + 1 == |marks| - 1
    requires AllMaximal(marks[..|marks| - 1], prev) && Ordered(prev)
    ensures IsMaximalRun(marks, AllButLast(prev)[j])
  {
    assert IsMaximalRun(marks[..|marks| - 1], prev[j]);
    assert prev[j].last + 1 < prev[|prev| - 1].first;
    MaximalKept(marks, prev[j]);
  }

  /** The last run, extended by the appended flagged index, is maximal. */
  lemma LastRunExtended(marks: seq<bool>, prev: seq<Run>)
    requires marks != [] && marks[|marks| - 1]
    requires prev != [] && Last(prev).last + 1 == |marks| - 1
    requires AllMaximal(marks[..|marks| - 1], prev)
    ensures IsMaximalRun(marks, Run(Last(prev).first, |marks| - 1))
  {
    var n := |prev| - 1;
    assert IsMaximalRun(marks[..|marks| - 1], prev[n]);
    ExtendedRunMaximal(marks, prev[n]);
  }

  lemma ExtendOrdered(prev: seq<Run>, k: nat)
    requires prev != [] && Ordered(prev) && Last(prev).last < k
    ensures Ordered(AllButLast(prev) + [Run(Last(prev).first, k)])
  {
    var n := |prev| - 1;
    var runs := AllButLast(prev) + [Run(Last(prev).first, k)];
    forall a, b | 0 <= a < b < |runs| ensures runs[a].last + 1 < runs[b].first {
      assert runs[a] == prev[a];
      assert prev[a].last + 1 < prev[b].first;
    }
  }

  lemma ExtendCovers(marks: seq<bool>, prev: seq<Run>)
    requires marks != [] && marks[|marks| - 1]
    requires prev != [] && Last(prev).last + 1 == |marks| - 1
    requires CoversAll(marks[..|marks| - 1], prev)
    requires forall j :: 0 <= j < |prev| ==> prev[j].first <= prev[j].last
    ensures CoversAll(marks, AllButLast(prev) + [Run(Last(prev).first, |marks| - 1)])
  {
    var k := |marks| - 1;
    var n := |prev| - 1;
    var runs := AllButLast(prev) + [Run(Last(prev).first, k)];
    forall i | Flagged(marks, i) ensures Covered(runs, i) {
      if i == k {
        assert runs[n].first <= i <= runs[n].last;
      } else {
        assert Flagged(marks[..k], i);
        CoveredKept(prev, runs, i);
      }
    }
  }

  /** Any other flagged index opens a new run of its own. */
  lemma StepOpenRun(marks: seq<bool>)
    requires marks != [] && marks[|marks| - 1]
    requires var prev := RunsOf(marks[..|marks| - 1]); !(prev != [] && Last(prev).last + 1 == |marks| - 1)
    requires AreMaximalRuns(marks[..|marks| - 1], RunsOf(marks[..|marks| - 1]))
    ensures AreMaximalRuns(marks, RunsOf(marks))
  {
    var prev := RunsOf(marks[..|marks| - 1]);
    OpenKeepsMaximal(marks, prev);
  }

  /** Runs that all end before `x` do not cover `x`. */
  lemma NothingCoveredFrom(runs: seq<Run>, x: int)
    requires forall j :: 0 <= j < |runs| ==> runs[j].last < x
    ensures !Covered(runs, x)
  {
  }

  lemma OpenKeepsMaximal(marks: seq<bool>, prev: seq<Run>)
    requires marks != [] && marks[|marks| - 1]
    requires !(prev != [] && Last(prev).last + 1 == |marks| - 1)
    requires AreMaximalRuns(marks[..|marks| - 1], prev)
    ensures AreMaximalRuns(marks, prev + [Run(|marks| - 1, |marks| - 1)])
  {
    var k := |marks| - 1;
    var p := marks[..k];
    var runs := prev + [Run(k, k)];
    var n := |prev|;
    forall j | 0 <= j < n ensures prev[j].last + 1 < k {
      assert IsMaximalRun(p, prev[j]);
      if j < n - 1 {
        assert prev[j].last + 1 < prev[n - 1].first;
        assert IsMaximalRun(p, prev[n - 1]);
      }
    }
    NothingCoveredFrom(prev, k - 1);
    assert !Flagged(p, k - 1);
    forall j | 0 <= j < |runs| ensures IsMaximalRun(marks, runs[j]) {
      if j < n {
        assert IsMaximalRun(p, prev[j]);
        MaximalKept(marks, runs[j]);
      }
    }
    forall i | Flagged(marks, i) ensures Covered(runs, i) {
      if i == k {
        assert runs[n].first <= i <= runs[n].last;
      } else {
        assert Flagged(p, i);
        CoveredKept(prev, runs, i);
      }
    }
  }

  /**
   * `RunsOf` lists exactly the maximal runs of flagged indices: each entry is
   * a maximal run, consecutive entries are separated by at least one other
   * index, and every flagged index lies in one of them.
   */
  lemma {:induction false} RunsAreMaximal(marks: seq<bool>)
    ensures AreMaximalRuns(marks, RunsOf(marks))
    decreases |marks|
  {
    if marks != [] {
      var k := |marks| - 1;
      var prev := RunsOf(marks[..k]);
      RunsAreMaximal(marks[..k]);
      if !marks[k] {
        StepPlainLine(marks);
      } else if prev != [] && Last(prev).last + 1 == k {
        StepExtendRun(marks);
      } else {
        StepOpenRun(marks);
      }
    }
  }

  /** Extending a run by the next line adds one space and that line's remainder. */
  lemma RunTextSnoc(lines: seq<string>, first: nat, k: nat)
    requires first < k < |lines|
    ensures RunText(lines, Run(first, k)) == RunText(lines, Run(first, k - 1)) + " " + Remainder(lines[k])
  {
    var rs := Remainders(lines[first..k]);
    assert Remainders(lines[first..k + 1]) == rs + [Remainder(lines[k])];
    JoinSnoc(" ", rs, Remainder(lines[k]));
  }

  /** A run's paragraph is empty exactly when the run is a single marker line with nothing after the marker. */
  lemma RunTextEmpty(lines: seq<string>, r: Run)
    requires r.first <= r.last < |lines|
    ensures RunText(lines, r) == "" <==> r.first == r.last && Remainder(lines[r.first]) == ""
  {
    JoinIsEmpty(" ", Remainders(lines[r.first..r.last + 1]));
  }

  /** The keys of the emitted blocks are ends of runs, in strictly increasing order. */
  lemma {:induction false} BlockKeys(lines: seq<string>, runs: seq<Run>)
    requires forall j :: 0 <= j < |runs| ==> runs[j].first <= runs[j].last < |lines|
    requires Ordered(runs)
    ensures forall b :: b in BlocksOf(lines, runs) ==> exists j :: 0 <= j < |runs| && b.key == runs[j].last
    ensures forall a, b :: 0 <= a < b < |BlocksOf(lines, runs)| ==> BlocksOf(lines, runs)[a].key < BlocksOf(lines, runs)[b].key
    decreases |runs|
  {
    if runs != [] {
      var init := AllButLast(runs);
      BlockKeys(lines, init);
      var bs := BlocksOf(lines, init);
      forall b | b in bs ensures b.key < Last(runs).last {
        var j :| 0 <= j < |init| && b.key == init[j].last;
      }
      var all := BlocksOf(lines, runs);
      forall b | b in all ensures exists j :: 0 <= j < |runs| && b.key == runs[j].last {
        if b in bs {
          var j :| 0 <= j < |init| && b.key == init[j].last;
          assert runs[j] == init[j];
        } else {
          assert b.key == runs[|runs| - 1].last;
        }
      }
      forall a, c | 0 <= a < c < |all| ensures all[a].key < all[c].key {
        if c >= |bs| {
          assert all[a] == bs[a];
          assert all[a] in bs;
        } else {
          assert all[a] == bs[a] && all[c] == bs[c];
        }
      }
    }
  }

  /** Inserting blocks with strictly increasing keys never overwrites: each block is found under its key. */
  lemma {:induction false} ToMapContents(blocks: seq<Block>)
    requires forall a, b :: 0 <= a < b < |blocks| ==> blocks[a].key < blocks[b].key
    ensures ToMap(blocks).Keys == set b | b in blocks :: b.key
    ensures forall j :: 0 <= j < |blocks| ==> ToMap(blocks)[blocks[j].key] == blocks[j].text
    decreases |blocks|
  {
    if blocks != [] {
      var init := AllButLast(blocks);
      ToMapContents(init);
      assert forall j :: 0 <= j < |init| ==> init[j].key < Last(blocks).key;
      assert forall j :: 0 <= j < |init| ==> init[j] == blocks[j];
    }
  }

  /**
   * What the scanner stores: exactly one entry per maximal run whose paragraph
   * is non-empty, under the 0-based index of the run's last line, holding the
   * paragraph wrapped in line breaks; nothing else.
   */
  lemma ScannedContent(lines: seq<string>)
    ensures forall j :: 0 <= j < |Runs(lines)| ==>
      var r := Runs(lines)[j];
      (r.last in ToMap(Blocks(lines)) <==> RunText(lines, r) != "") &&
      (r.last in ToMap(Blocks(lines)) ==> ToMap(Blocks(lines))[r.last] == "\n" + RunText(lines, r) + "\n")
    ensures forall key :: key in ToMap(Blocks(lines)) ==> exists j :: 0 <= j < |Runs(lines)| && Runs(lines)[j].last == key
  {
    var runs := Runs(lines);
    RunsAreMaximal(Marks(lines));
    BlockKeys(lines, runs);
    ToMapContents(Blocks(lines));
    forall j | 0 <= j < |runs|
      ensures var r := runs[j];
        (r.last in ToMap(Blocks(lines)) <==> RunText(lines, r) != "") &&
        (r.last in ToMap(Blocks(lines)) ==> ToMap(Blocks(lines))[r.last] == "\n" + RunText(lines, r) + "\n")
    {
      BlockOfRun(lines, runs, j);
    }
  }

  /** The block emitted for the run at position `j`, if any, is the only one with that key. */
  lemma {:induction false} BlockOfRun(lines: seq<string>, runs: seq<Run>, j: nat)
    requires j < |runs|
    requires forall i :: 0 <= i < |runs| ==> runs[i].first <= runs[i].last < |lines|
    requires Ordered(runs)
    ensures var bs := BlocksOf(lines, runs);
      var t := RunText(lines, runs[j]);
      (t != "" ==> Block(runs[j].last, "\n" + t + "\n") in bs) &&
      (forall b :: b in bs && b.key == runs[j].last ==> t != "" && b.text == "\n" + t + "\n")
    decreases |runs|
  {
    var init := AllButLast(runs);
    var bs := BlocksOf(lines, runs);
    BlockKeys(lines, init);
    if j == |runs| - 1 {
      forall b | b in BlocksOf(lines, init) ensures b.key != runs[j].last {
        var i :| 0 <= i < |init| && b.key == init[i].last;
      }
    } else {
      assert forall i :: 0 <= i < |init| ==> init[i] == runs[i];
      BlockOfRun(lines, init, j);
    }
  }

  /** Without flagged indices there is no run. */
  lemma {:induction false} NoFlagsNoRuns(marks: seq<bool>)
    requires forall i :: 0 <= i < |marks| ==> !marks[i]
    ensures RunsOf(marks) == []
    decreases |marks|
  {
    if marks != [] {
      NoFlagsNoRuns(marks[..|marks| - 1]);
    }
  }

  /** A script without marker lines yields no block, so the store stays empty. */
  lemma NoMarkersNoBlocks(lines: seq<string>)
    requires forall i :: 0 <= i < |lines| ==> !IsMarker(lines[i])
    ensures Runs(lines) == [] && Blocks(lines) == [] && ToMap(Blocks(lines)) == map[]
  {
    NoFlagsNoRuns(Marks(lines));
  }

  /** The first marker line opens the first run, even at index 0. */
  lemma FirstMarkerOpensRun(lines: seq<string>, m: nat)
    requires m < |lines| && IsMarker(lines[m])
    requires forall i :: 0 <= i < m ==> !IsMarker(lines[i])
    ensures Runs(lines) != [] && Runs(lines)[0].first == m
  {
    var marks := Marks(lines);
    RunsAreMaximal(marks);
    var runs := Runs(lines);
    assert Flagged(marks, m) && Covered(runs, m);
    var j :| 0 <= j < |runs| && runs[j].first <= m <= runs[j].last;
    assert IsMaximalRun(marks, runs[0]);
    assert marks[runs[0].first];
    if j > 0 {
      assert false;
    }
  }

  /** One more line either leaves the runs alone, extends the last run, or opens a new one. */
  lemma RunsOfSnoc(marks: seq<bool>, k: nat)
    requires k < |marks|
    ensures var prev := RunsOf(marks[..k]);
      RunsOf(marks[..k + 1]) ==
        if !marks[k] then prev
        else if prev != [] && Last(prev).last + 1 == k then AllButLast(prev) + [Run(Last(prev).first, k)]
        else prev + [Run(k, k)]
  {
    assert marks[..k + 1][..k] == marks[..k];
  }

  /** A run of one line has that line's remainder as its paragraph. */
  lemma RunTextSingle(lines: seq<string>, k: nat)
    requires k < |lines|
    ensures RunText(lines, Run(k, k)) == Remainder(lines[k])
  {
    assert Remainders(lines[k..k + 1]) == [Remainder(lines[k])];
  }

  /** Every marker line, and only a marker line, lies inside one of the runs. */
  lemma MarkerLinesAreInRuns(lines: seq<string>, i: nat)
    requires i < |lines|
    ensures IsMarker(lines[i]) <==> Covered(Runs(lines), i)
  {
    var marks := Marks(lines);
    RunsAreMaximal(marks);
    if Covered(Runs(lines), i) {
      var j :| 0 <= j < |Runs(lines)| && Runs(lines)[j].first <= i <= Runs(lines)[j].last;
      assert IsMaximalRun(marks, Runs(lines)[j]);
    }
    if IsMarker(lines[i]) {
      assert Flagged(marks, i);
    }
  }

  /** Inserting one more block updates the dictionary at that block's key. */
  lemma ToMapSnoc(bs: seq<Block>, b: Block)
    ensures ToMap(bs + [b]) == ToMap(bs)[b.key := b.text]
  {
    assert AllButLast(bs + [b]) == bs;
  }

  lemma BlocksOfLast(lines: seq<string>, runs: seq<Run>)
    requires runs != []
    requires forall j :: 0 <= j < |runs| ==> runs[j].first <= runs[j].last < |lines|
    ensures var t := RunText(lines, Last(runs));
      BlocksOf(lines, runs) == BlocksOf(lines, AllButLast(runs)) + (if t != "" then [Block(Last(runs).last, "\n" + t + "\n")] else [])
  {
  }

  /** Closing the last run stores its paragraph under its last line, unless the paragraph is empty. */
  lemma ClosedRunBlocks(lines: seq<string>, runs: seq<Run>)
    requires runs != []
    requires forall j :: 0 <= j < |runs| ==> runs[j].first <= runs[j].last < |lines|
    ensures var t := RunText(lines, Last(runs));
      var before := ToMap(BlocksOf(lines, AllButLast(runs)));
      ToMap(BlocksOf(lines, runs)) == if t != "" then before[Last(runs).last := "\n" + t + "\n"] else before
  {
    var t := RunText(lines, Last(runs));
    var bs := BlocksOf(lines, AllButLast(runs));
    BlocksOfLast(lines, runs);
    if t != "" {
      ToMapSnoc(bs, Block(Last(runs).last, "\n" + t + "\n"));
    } else {
      assert BlocksOf(lines, runs) == bs;
    }
  }
}
