/** Styled runs of a terminal checkpoint (`checkpointRuns` in apps/host/src/terminal-state.ts). */
module CheckpointRuns {
  import opened Basics

  const MAX_RUNS := 5000

  datatype Style = Style(bold: Option<bool>, italic: Option<bool>, underline: Option<bool>, foreground: Option<string>, background: Option<string>)
  datatype Cell = Cell(row: int, col: int, text: string, width: int, style: Style)
  datatype Run = Run(row: int, col: int, text: string, style: Style)
  datatype PendingRun = PendingRun(row: int, col: int, text: string, width: int, style: Style)

  // ---------------------------------------------------------- the visible cells

  predicate Visible(c: Cell, rows: int) { c.text != "" && 0 <= c.row < rows }

  function Filter(cells: seq<Cell>, rows: int): seq<Cell> {
    if cells == [] then []
    else if Visible(cells[0], rows) then [cells[0]] + Filter(cells[1..], rows)
    else Filter(cells[1..], rows)
  }

  /** The comparator: rows first, then columns. */
  predicate NotAfter(a: Cell, b: Cell) { a.row < b.row || (a.row == b.row && a.col <= b.col) }

  ghost predicate Sorted(cells: seq<Cell>) {
    forall i, j :: 0 <= i < j < |cells| ==> NotAfter(cells[i], cells[j])
  }

  /** Before the first cell that comes after it: equal cells keep their order. */
  function Insert(c: Cell, cells: seq<Cell>): seq<Cell> {
    if cells == [] || NotAfter(c, cells[0]) then [c] + cells else [cells[0]] + Insert(c, cells[1..])
  }

  /** `Array.prototype.sort`, which is stable. */
  function Sort(cells: seq<Cell>): seq<Cell> {
    if cells == [] then [] else Insert(cells[0], Sort(cells[1..]))
  }

  /** The cells at one place of the grid, in order. */
  function At(cells: seq<Cell>, row: int, col: int): seq<Cell> {
    if cells == [] then []
    else (if cells[0].row == row && cells[0].col == col then [cells[0]] else []) + At(cells[1..], row, col)
  }

  lemma {:induction false} InsertKeepsCells(c: Cell, cells: seq<Cell>)
    ensures multiset(Insert(c, cells)) == multiset(cells) + multiset{c}
  {
    if !(cells == [] || NotAfter(c, cells[0])) {
      InsertKeepsCells(c, cells[1..]);
      assert cells == [cells[0]] + cells[1..];
    }
  }

  lemma {:induction false} InsertSorts(c: Cell, cells: seq<Cell>)
    requires Sorted(cells)
    ensures Sorted(Insert(c, cells))
  {
    if !(cells == [] || NotAfter(c, cells[0])) {
      InsertSorts(c, cells[1..]);
      InsertKeepsCells(c, cells[1..]);
      var rest := Insert(c, cells[1..]);
      forall j | 0 <= j < |rest| ensures NotAfter(cells[0], rest[j]) {
        assert rest[j] in multiset(rest);
        if rest[j] != c {
          var k :| 0 <= k < |cells[1..]| && cells[1..][k] == rest[j];
          assert cells[k + 1] == rest[j];
        }
      }
    }
  }

  lemma {:induction false} InsertIsStable(c: Cell, cells: seq<Cell>, row: int, col: int)
    ensures At(Insert(c, cells), row, col) == At([c] + cells, row, col)
  {
    assert ([c] + cells)[1..] == cells;
    if !(cells == [] || NotAfter(c, cells[0])) {
      InsertIsStable(c, cells[1..], row, col);
      assert ([c] + cells[1..])[1..] == cells[1..];
      assert ([cells[0]] + Insert(c, cells[1..]))[1..] == Insert(c, cells[1..]);
    }
  }

  /** Sorting orders the cells, keeps all of them, and keeps the order of those at the same place. */
  lemma {:induction false} SortIsStable(cells: seq<Cell>, row: int, col: int)
    ensures Sorted(Sort(cells))
    ensures multiset(Sort(cells)) == multiset(cells)
    ensures At(Sort(cells), row, col) == At(cells, row, col)
  {
    if cells != [] {
      SortIsStable(cells[1..], row, col);
      InsertSorts(cells[0], Sort(cells[1..]));
      InsertKeepsCells(cells[0], Sort(cells[1..]));
      InsertIsStable(cells[0], Sort(cells[1..]), row, col);
      assert cells == [cells[0]] + cells[1..];
      assert ([cells[0]] + Sort(cells[1..]))[1..] == Sort(cells[1..]);
    }
  }

  /** By row, and by column within a row. */
  lemma SortOrders(cells: seq<Cell>, i: nat, j: nat)
    requires i < j < |Sort(cells)|
    ensures var a, b := Sort(cells)[i], Sort(cells)[j]; a.row < b.row || (a.row == b.row && a.col <= b.col)
  {
    SortIsStable(cells, 0, 0);
  }

  lemma {:induction false} FilterKeepsVisible(cells: seq<Cell>, rows: int, c: Cell)
    ensures multiset(Filter(cells, rows))[c] == if c.text != "" && 0 <= c.row < rows then multiset(cells)[c] else 0
  {
    if cells != [] {
      FilterKeepsVisible(cells[1..], rows, c);
      assert cells == [cells[0]] + cells[1..];
    }
  }

  function WithText(cells: seq<Cell>): seq<Cell> {
    if cells == [] then [] else (if cells[0].text != "" then [cells[0]] else []) + WithText(cells[1..])
  }

  lemma AtCons(c: Cell, cells: seq<Cell>, row: int, col: int)
    ensures At([c] + cells, row, col) == if c.row == row && c.col == col then [c] + At(cells, row, col) else At(cells, row, col)
  {
    assert ([c] + cells)[1..] == cells;
  }

  lemma WithTextCons(c: Cell, cells: seq<Cell>)
    ensures WithText([c] + cells) == if c.text != "" then [c] + WithText(cells) else WithText(cells)
  {
    assert ([c] + cells)[1..] == cells;
  }

  /** Cells at one place stay in order. */
  lemma {:induction false} FilterKeepsOrder(cells: seq<Cell>, rows: int, row: int, col: int)
    ensures At(Filter(cells, rows), row, col) == if 0 <= row < rows then WithText(At(cells, row, col)) else []
  {
    if cells != [] {
      FilterKeepsOrder(cells[1..], rows, row, col);
      assert cells == [cells[0]] + cells[1..];
      AtCons(cells[0], cells[1..], row, col);
      AtCons(cells[0], Filter(cells[1..], rows), row, col);
      WithTextCons(cells[0], At(cells[1..], row, col));
    }
  }

  // ------------------------------------------------------------------------ runs

  function Width(c: Cell): (w: int)
    ensures w > 0
  {
    if c.width > 0 then c.width else 1
  }

  function TotalWidth(cells: seq<Cell>): int {
    if cells == [] then 0 else TotalWidth(cells[..|cells| - 1]) + Width(cells[|cells| - 1])
  }

  function Text(cells: seq<Cell>): string {
    if cells == [] then "" else Text(cells[..|cells| - 1]) + cells[|cells| - 1].text
  }

  /** The next cell starts where this one ends, in the same row and style. */
  predicate Adjacent(a: Cell, b: Cell) {
    a.row == b.row && a.col + Width(a) == b.col && a.style == b.style
  }

  /** A group of cells that one run stands for. */
  ghost predicate IsGroup(group: seq<Cell>) {
    |group| > 0 && forall i, j :: 0 <= i && j == i + 1 && j < |group| ==> Adjacent(group[i], group[j])
  }

  function RunOf(group: seq<Cell>): Run
    requires |group| > 0
  {
    Run(group[0].row, group[0].col, Text(group), group[0].style)
  }

  function Concat(groups: seq<seq<Cell>>): seq<Cell> {
    if groups == [] then [] else Concat(groups[..|groups| - 1]) + groups[|groups| - 1]
  }

  function Last(group: seq<Cell>): Cell
    requires |group| > 0
  {
    group[|group| - 1]
  }

  /** Between these two groups nothing could be merged. */
  predicate Breaks(groups: seq<seq<Cell>>, i: nat)
    requires 0 < i < |groups|
  {
    |groups[i - 1]| > 0 && |groups[i]| > 0 && !Adjacent(Last(groups[i - 1]), groups[i][0])
  }

  ghost predicate Stands(runs: seq<Run>, groups: seq<seq<Cell>>) {
    |runs| == |groups| && forall i :: 0 <= i < |groups| ==> IsGroup(groups[i]) && runs[i] == RunOf(groups[i])
  }

  ghost predicate Unmergeable(groups: seq<seq<Cell>>) {
    forall i :: 0 < i < |groups| ==> Breaks(groups, i)
  }

  /** The runs stand for consecutive groups of cells, none of which could be merged with the next. */
  ghost predicate Represents(runs: seq<Run>, groups: seq<seq<Cell>>, cells: seq<Cell>) {
    Stands(runs, groups) && Unmergeable(groups) && Concat(groups) == cells
  }

  function Flush(p: PendingRun): Run { Run(p.row, p.col, p.text, p.style) }

  /** What the pending run knows about the group it is collecting. */
  ghost predicate Collects(pending: Option<PendingRun>, group: seq<Cell>) {
    if pending.None? then group == []
    else
      && IsGroup(group) && Flush(pending.value) == RunOf(group)
      && pending.value.col + pending.value.width == Last(group).col + Width(Last(group))
      && Last(group).row == pending.value.row && Last(group).style == pending.value.style
  }

  /** The cell would not continue the last group. */
  ghost predicate StartsAnew(groups: seq<seq<Cell>>, c: Cell) {
    |groups| > 0 ==> |groups[|groups| - 1]| > 0 && !Adjacent(Last(groups[|groups| - 1]), c)
  }

  lemma ConcatOneMore(groups: seq<seq<Cell>>, group: seq<Cell>)
    ensures Concat(groups + [group]) == Concat(groups) + group
  {
    assert (groups + [group])[..|groups|] == groups;
  }

  lemma StillUnmergeable(groups: seq<seq<Cell>>, group: seq<Cell>)
    requires Unmergeable(groups) && |group| > 0 && StartsAnew(groups, group[0])
    ensures Unmergeable(groups + [group])
  {
    var more := groups + [group];
    forall i | 0 < i < |more| ensures Breaks(more, i) {
      if i < |groups| {
        assert Breaks(groups, i);
      }
    }
  }

  lemma AddGroup(runs: seq<Run>, groups: seq<seq<Cell>>, cells: seq<Cell>, group: seq<Cell>)
    requires Represents(runs, groups, cells) && IsGroup(group) && StartsAnew(groups, group[0])
    ensures Represents(runs + [RunOf(group)], groups + [group], cells + group)
  {
    ConcatOneMore(groups, group);
    StillUnmergeable(groups, group);
  }

  /** Representing all groups but the last. */
  lemma DropGroup(runs: seq<Run>, groups: seq<seq<Cell>>, cells: seq<Cell>)
    requires Represents(runs, groups, cells) && groups != []
    ensures var n := |groups| - 1; Represents(runs[..n], groups[..n], Concat(groups[..n]))
    ensures cells == Concat(groups[..|groups| - 1]) + groups[|groups| - 1]
  {
    var n := |groups| - 1;
    forall i | 0 < i < n ensures Breaks(groups[..n], i) {
      assert Breaks(groups, i);
    }
  }

  lemma ExtendGroup(group: seq<Cell>, c: Cell)
    requires IsGroup(group) && Adjacent(Last(group), c)
    ensures IsGroup(group + [c])
    ensures Text(group + [c]) == Text(group) + c.text
  {
    assert (group + [c])[..|group|] == group;
  }

  lemma SingleGroup(c: Cell)
    ensures IsGroup([c]) && Text([c]) == c.text
  {
    assert [c][..0] == [];
    assert "" + c.text == c.text;
  }

  /**
    The merging loop.  The runs represent the cells, or a prefix of them that ends at the end of a run
    when there would be more than 5000.
  */
  method Merge(visible: seq<Cell>) returns (runs: seq<Run>, ghost groups: seq<seq<Cell>>, ghost n: nat)
    ensures n <= |visible| && Represents(runs, groups, visible[..n])
    ensures |runs| <= MAX_RUNS
    ensures n < |visible| ==> |runs| == MAX_RUNS && StartsAnew(groups, visible[n])
  {
    runs, groups := [], [];
    var pending: Option<PendingRun> := None;
    ghost var group: seq<Cell> := [];
    ghost var done: seq<Cell> := [];
    var i := 0;
    while i < |visible|
      invariant i <= |visible| && visible[..i] == done + group
      invariant Represents(runs, groups, done) && Collects(pending, group)
      invariant group != [] ==> StartsAnew(groups, group[0])
      invariant group == [] ==> i == 0 && groups == []
      invariant |runs| + (if pending.Some? then 1 else 0) <= MAX_RUNS
    {
      var cell := visible[i];
      assert visible[..i + 1] == visible[..i] + [cell];
      if pending.Some? && pending.value.row == cell.row && pending.value.col + pending.value.width == cell.col
         && pending.value.style == cell.style {
        ExtendGroup(group, cell);
        pending := Some(pending.value.(text := pending.value.text + cell.text, width := pending.value.width + Width(cell)));
        group := group + [cell];
        i := i + 1;
        continue;
      }
      if pending.Some? {
        AddGroup(runs, groups, done, group);
        runs, groups, done := runs + [Flush(pending.value)], groups + [group], done + group;
        pending, group := None, [];
      }
      if |runs| >= MAX_RUNS {
        n := i;
        assert visible[..i] == done;
        return;
      }
      SingleGroup(cell);
      pending, group := Some(PendingRun(cell.row, cell.col, cell.text, Width(cell), cell.style)), [cell];
      i := i + 1;
    }
    n := i;
    if pending.Some? {
      AddGroup(runs, groups, done, group);
      runs, groups, done := runs + [Flush(pending.value)], groups + [group], done + group;
    }
    assert visible[..n] == done;
  }

  /** The next cell joins the last group or starts one. */
  function Grow(groups: seq<seq<Cell>>, c: Cell): seq<seq<Cell>> {
    var n := |groups| - 1;
    if n >= 0 && groups[n] != [] && Adjacent(Last(groups[n]), c) then groups[..n] + [groups[n] + [c]]
    else groups + [[c]]
  }

  /** The one way to group cells into runs, told cell by cell. */
  function Groups(cells: seq<Cell>): seq<seq<Cell>> {
    if cells == [] then [] else Grow(Groups(cells[..|cells| - 1]), cells[|cells| - 1])
  }

  function RunsOf(groups: seq<seq<Cell>>): (runs: seq<Run>)
    requires forall g :: g in groups ==> |g| > 0
    ensures |runs| == |groups| && forall i :: 0 <= i < |groups| ==> runs[i] == RunOf(groups[i])
  {
    seq(|groups|, i requires 0 <= i < |groups| => RunOf(groups[i]))
  }

  lemma RunsOfStood(runs: seq<Run>, groups: seq<seq<Cell>>)
    requires Stands(runs, groups)
    ensures forall g :: g in groups ==> |g| > 0
    ensures RunsOf(groups) == runs
  {
  }

  lemma GrownRepresent(runs: seq<Run>, groups: seq<seq<Cell>>, cells: seq<Cell>, c: Cell) returns (more: seq<Run>)
    requires Represents(runs, groups, cells)
    ensures Represents(more, Grow(groups, c), cells + [c])
  {
    var n := |groups| - 1;
    SingleGroup(c);
    if n >= 0 && Adjacent(Last(groups[n]), c) {
      DropGroup(runs, groups, cells);
      ExtendGroup(groups[n], c);
      if n > 0 { assert Breaks(groups, n); }
      AddGroup(runs[..n], groups[..n], Concat(groups[..n]), groups[n] + [c]);
      assert cells + [c] == Concat(groups[..n]) + (groups[n] + [c]);
      more := runs[..n] + [RunOf(groups[n] + [c])];
    } else {
      AddGroup(runs, groups, cells, [c]);
      more := runs + [RunOf([c])];
    }
  }

  /** The grouping represents all cells, and nothing in it could be merged. */
  lemma {:induction false} GroupsRepresent(cells: seq<Cell>)
    ensures forall g :: g in Groups(cells) ==> |g| > 0
    ensures Represents(RunsOf(Groups(cells)), Groups(cells), cells)
  {
    if cells != [] {
      var before, c := cells[..|cells| - 1], cells[|cells| - 1];
      GroupsRepresent(before);
      assert cells == before + [c];
      var runs := GrownRepresent(RunsOf(Groups(before)), Groups(before), before, c);
      RunsOfStood(runs, Groups(cells));
    }
  }

  /** The second cell goes on in the first one's row and style, right behind it; a width that is not positive counts as one. */
  predicate GoesOn(a: Cell, b: Cell) {
    && a.row == b.row && b.col == a.col + (if a.width > 0 then a.width else 1)
    && a.style.bold == b.style.bold && a.style.italic == b.style.italic && a.style.underline == b.style.underline
    && a.style.foreground == b.style.foreground && a.style.background == b.style.background
  }

  /** All cells of a group go on from the first. */
  ghost predicate AllGoOn(group: seq<Cell>) {
    |group| > 0 && forall i, j :: 0 <= i && j == i + 1 && j < |group| ==> GoesOn(group[i], group[j])
  }

  lemma GroupsGoOn(groups: seq<seq<Cell>>, runs: seq<Run>, n: nat)
    requires Stands(runs, groups) && n < |groups|
    ensures AllGoOn(groups[n])
    ensures runs[n] == Run(groups[n][0].row, groups[n][0].col, Text(groups[n]), groups[n][0].style)
  {
    assert IsGroup(groups[n]);
    forall i, j | 0 <= i && j == i + 1 && j < |groups[n]| ensures GoesOn(groups[n][i], groups[n][j]) {
      assert Adjacent(groups[n][i], groups[n][j]);
    }
  }

  /** The last cell of a group does not go on in the next one. */
  ghost predicate Apart(groups: seq<seq<Cell>>, n: nat) {
    0 < n < |groups| && |groups[n - 1]| > 0 && |groups[n]| > 0 && !GoesOn(groups[n - 1][|groups[n - 1]| - 1], groups[n][0])
  }

  /** The runs of a grouping, told from its cells: within a group cells go on, and between groups they do not. */
  lemma RunsMean(cells: seq<Cell>)
    ensures var groups := Groups(cells);
            && Concat(groups) == cells
            && (forall n :: 0 <= n < |groups| ==> AllGoOn(groups[n]))
            && (forall n :: 0 < n < |groups| ==> Apart(groups, n))
            && (forall n :: 0 <= n < |groups| && |groups[n]| > 0 ==>
                  RunOf(groups[n]) == Run(groups[n][0].row, groups[n][0].col, Text(groups[n]), groups[n][0].style))
  {
    GroupsRepresent(cells);
    var groups := Groups(cells);
    forall n | 0 <= n < |groups| ensures AllGoOn(groups[n]) {
      GroupsGoOn(groups, RunsOf(groups), n);
    }
    forall n | 0 < n < |groups| ensures Apart(groups, n) {
      assert Breaks(groups, n);
    }
  }

  /** The text of a run is the texts of its cells, one after another, and the groups follow each other the same way. */
  lemma TextsFollow(cells: seq<Cell>, c: Cell, groups: seq<seq<Cell>>, group: seq<Cell>)
    ensures Text([]) == "" && Text(cells + [c]) == Text(cells) + c.text
    ensures Concat([]) == [] && Concat(groups + [group]) == Concat(groups) + group
  {
    assert (cells + [c])[..|cells|] == cells;
    ConcatOneMore(groups, group);
  }

  /** Groups of a first part that the next cell does not continue are the first groups of the whole. */
  lemma {:induction false} FirstGroups(runs: seq<Run>, groups: seq<seq<Cell>>, cells: seq<Cell>, n: nat)
    requires n < |cells| && Represents(runs, groups, cells[..n]) && StartsAnew(groups, cells[n])
    ensures |groups| < |Groups(cells)| && Groups(cells)[..|groups|] == groups
    decreases |cells|
  {
    var before := cells[..|cells| - 1];
    if n < |before| {
      assert before[..n] == cells[..n];
      FirstGroups(runs, groups, before, n);
    } else {
      assert before == cells[..n];
      GroupsRepresent(before);
      GroupsAreUnique(groups, runs, Groups(before), RunsOf(Groups(before)), before);
    }
  }

  /** The cells of a checkpoint: those with text in visible rows, by row and column. */
  function Shown(cells: Option<seq<Cell>>, rows: int): seq<Cell> {
    if cells.Some? then Sort(Filter(cells.value, rows)) else []
  }

  /** The first 5000 runs of the cells. */
  ghost predicate AreFirstRuns(runs: seq<Run>, cells: seq<Cell>) {
    && |runs| == (if |Groups(cells)| < MAX_RUNS then |Groups(cells)| else MAX_RUNS)
    && forall i :: 0 <= i < |runs| ==> |Groups(cells)[i]| > 0 && runs[i] == RunOf(Groups(cells)[i])
  }

  /** What the merging loop returns are the first runs. */
  lemma MergedAreFirst(runs: seq<Run>, groups: seq<seq<Cell>>, visible: seq<Cell>, n: nat)
    requires n <= |visible| && Represents(runs, groups, visible[..n]) && |runs| <= MAX_RUNS
    requires n < |visible| ==> |runs| == MAX_RUNS && StartsAnew(groups, visible[n])
    ensures AreFirstRuns(runs, visible)
  {
    if n < |visible| {
      FirstGroups(runs, groups, visible, n);
      forall i | 0 <= i < |groups| ensures Groups(visible)[i] == groups[i] {
        assert Groups(visible)[..|groups|][i] == Groups(visible)[i];
      }
    } else {
      assert visible[..n] == visible;
      GroupsRepresent(visible);
      GroupsAreUnique(groups, runs, Groups(visible), RunsOf(Groups(visible)), visible);
    }
  }

  /** `checkpointRuns`: exactly the runs of the only grouping that leaves nothing to merge, cut at 5000. */
  method CheckpointRuns(cells: Option<seq<Cell>>, rows: int) returns (runs: seq<Run>)
    ensures AreFirstRuns(runs, Shown(cells, rows)) && |runs| <= 5000
  {
    if cells.None? || |cells.value| == 0 { return []; }
    var visible := Sort(Filter(cells.value, rows));
    ghost var groups, n;
    runs, groups, n := Merge(visible);
    MergedAreFirst(runs, groups, visible, n);
  }

  /** The texts of the runs, one after another, are the texts of the cells they stand for. */
  lemma {:induction false} RunsKeepText(runs: seq<Run>, groups: seq<seq<Cell>>, cells: seq<Cell>)
    requires Represents(runs, groups, cells)
    ensures RunText(runs) == Text(cells)
    decreases |runs|
  {
    if runs != [] {
      var n := |runs| - 1;
      DropGroup(runs, groups, cells);
      RunsKeepText(runs[..n], groups[..n], Concat(groups[..n]));
      TextOfBoth(Concat(groups[..n]), groups[n]);
    }
  }

  function RunText(runs: seq<Run>): string {
    if runs == [] then "" else RunText(runs[..|runs| - 1]) + runs[|runs| - 1].text
  }

  lemma {:induction false} TextOfBoth(a: seq<Cell>, b: seq<Cell>)
    ensures Text(a + b) == Text(a) + Text(b)
    decreases |b|
  {
    if b == [] {
      assert a + b == a;
    } else {
      assert (a + b)[..|a + b| - 1] == a + b[..|b| - 1];
      TextOfBoth(a, b[..|b| - 1]);
    }
  }

  /** There is only one way to group cells into runs that cannot be merged. */
  lemma {:induction false} GroupsAreUnique(a: seq<seq<Cell>>, x: seq<Run>, b: seq<seq<Cell>>, y: seq<Run>, cells: seq<Cell>)
    requires Represents(x, a, cells) && Represents(y, b, cells)
    ensures a == b && x == y
    decreases |a|
  {
    NoGroupsNoCells(a, x, cells);
    NoGroupsNoCells(b, y, cells);
    if a != [] {
      var n, m := |a| - 1, |b| - 1;
      SameLastGroup(a, x, b, y, cells);
      DropGroup(x, a, cells);
      DropGroup(y, b, cells);
      var rest := Concat(a[..n]);
      assert rest == cells[..|cells| - |a[n]|] == Concat(b[..m]);
      GroupsAreUnique(a[..n], x[..n], b[..m], y[..m], rest);
      assert a == a[..n] + [a[n]] && b == b[..m] + [b[m]];
      assert x == x[..n] + [x[n]] && y == y[..m] + [y[m]];
    }
  }

  lemma NoGroupsNoCells(a: seq<seq<Cell>>, x: seq<Run>, cells: seq<Cell>)
    requires Represents(x, a, cells)
    ensures a == [] <==> cells == []
  {
    if a != [] {
      assert IsGroup(a[|a| - 1]);
    }
  }

  /** The last group is the longest tail of adjacent cells, so it is the same in both. */
  lemma SameLastGroup(a: seq<seq<Cell>>, x: seq<Run>, b: seq<seq<Cell>>, y: seq<Run>, cells: seq<Cell>)
    requires Represents(x, a, cells) && Represents(y, b, cells) && a != [] && b != []
    ensures a[|a| - 1] == b[|b| - 1]
  {
    var p, q := a[|a| - 1], b[|b| - 1];
    assert cells[|cells| - |p|..] == p && cells[|cells| - |q|..] == q;
    assert IsGroup(p) && IsGroup(q);
    if |p| < |q| {
      BeyondTheLastGroup(a, x, q, cells);
    } else if |q| < |p| {
      BeyondTheLastGroup(b, y, p, cells);
    }
  }

  /** A tail of the cells that reaches beyond the last group is no group. */
  lemma BeyondTheLastGroup(a: seq<seq<Cell>>, x: seq<Run>, q: seq<Cell>, cells: seq<Cell>)
    requires Represents(x, a, cells) && a != [] && |q| <= |cells| && cells[|cells| - |q|..] == q
    requires |a[|a| - 1]| < |q|
    ensures !IsGroup(q)
  {
    var n := |a| - 1;
    DropGroup(x, a, cells);
    assert IsGroup(a[n]);
    var before := Concat(a[..n]);
    NoGroupsNoCells(a[..n], x[..n], before);
    LastCell(a[..n], x[..n], before);
    var k := |q| - |a[n]|;
    assert q[k] == cells[|before|] == a[n][0] && q[k - 1] == cells[|before| - 1] == Last(a[n - 1]);
    assert Breaks(a, n);
  }

  lemma LastCell(a: seq<seq<Cell>>, x: seq<Run>, cells: seq<Cell>)
    requires Represents(x, a, cells) && a != []
    ensures |cells| > 0 && |a[|a| - 1]| > 0 && Last(cells) == Last(a[|a| - 1])
  {
    assert IsGroup(a[|a| - 1]);
  }
}
