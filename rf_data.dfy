/**
 * Zero-copy views over a dataset adapter (hexlytics.rf.Data and its Subset).
 *
 * A view never copies column data: the root view visits the adapter's rows
 * in order, and a Subset holds an array of adapter row indices of which the
 * first `sz` are its rows.  Filtering a view walks it once, sends each row to
 * one of two sides and feeds it to that side's statistic at the same time.
 */
module RFData {
  import opened Wrappers

  /** The external DataAdapter: counts and per-row accessors, all read-only. */
  datatype Adapter = Adapter(
    rowCount: nat,
    columnCount: nat,       // includes the class column
    classCount: nat,
    binned: (int, int) -> int,       // getS(row, column)
    columnClass: (int, int) -> int,  // getColumnClass(row, column)
    classOf: int -> int)

  /** The set of values in a sequence. */
  function Elements(s: seq<int>): set<int> {
    set x | x in s
  }

  predicate Distinct(s: seq<int>) {
    forall a, b :: 0 <= a < b < |s| ==> s[a] != s[b]
  }

  predicate Sorted(s: seq<int>) {
    forall a, b :: 0 <= a < b < |s| ==> s[a] <= s[b]
  }

  // ---------------------------------------------------------------------------
  // One pass, two sides

  /** The elements x of s with p(x) == side, in their order in s. */
  function Side(s: seq<int>, p: int -> bool, side: bool): (r: seq<int>)
    ensures |r| <= |s|
  {
    if |s| == 0 then []
    else Side(s[..|s| - 1], p, side) + (if p(s[|s| - 1]) == side then [s[|s| - 1]] else [])
  }

  /** Every element goes to exactly one side: the two sides add up to s. */
  lemma {:induction false} SidesPartition(s: seq<int>, p: int -> bool)
    ensures multiset(Side(s, p, true)) + multiset(Side(s, p, false)) == multiset(s)
  {
    if |s| > 0 {
      SidesPartition(s[..|s| - 1], p);
      SidesLast(s, p);
    }
  }

  /** The inductive step of SidesPartition: adding the last element of s. */
  lemma SidesLast(s: seq<int>, p: int -> bool)
    requires |s| > 0
    requires var t := s[..|s| - 1];
      multiset(Side(t, p, true)) + multiset(Side(t, p, false)) == multiset(t)
    ensures multiset(Side(s, p, true)) + multiset(Side(s, p, false)) == multiset(s)
  {
    var t, x := s[..|s| - 1], s[|s| - 1];
    assert s == t + [x];
    assert multiset(s) == multiset(t) + multiset{x};
    var l, r := Side(t, p, true), Side(t, p, false);
    if p(x) {
      assert Side(s, p, true) == l + [x];
      assert multiset(l + [x]) == multiset(l) + multiset{x};
    } else {
      assert Side(s, p, false) == r + [x];
      assert multiset(r + [x]) == multiset(r) + multiset{x};
    }
  }

  /** So the two sides' lengths add up to that of s. */
  lemma SidesLength(s: seq<int>, p: int -> bool)
    ensures |Side(s, p, true)| + |Side(s, p, false)| == |s|
  {
    SidesPartition(s, p);
    assert |multiset(Side(s, p, true))| == |Side(s, p, true)|;
    assert |multiset(Side(s, p, false))| == |Side(s, p, false)|;
  }

  lemma SideSnoc(s: seq<int>, x: int, p: int -> bool, side: bool)
    ensures Side(s + [x], p, side) == Side(s, p, side) + (if p(x) == side then [x] else [])
  {
    assert (s + [x])[..|s + [x]| - 1] == s;
  }

  /** Stores x just past the first n entries of a. */
  method Push(a: array<int>, n: nat, x: int)
    requires n < a.Length
    modifies a
    ensures a[..n + 1] == old(a[..n]) + [x]
  {
    a[n] := x;
    assert a[..n + 1] == a[..n] + [x];
  }

  /** One more element of `rows` moves the sides on by that element, on its side only. */
  lemma StepSides(rows: seq<int>, i: nat, p: int -> bool)
    requires i < |rows|
    ensures Side(rows[..i + 1], p, true) ==
      Side(rows[..i], p, true) + (if p(rows[i]) then [rows[i]] else [])
    ensures Side(rows[..i + 1], p, false) ==
      Side(rows[..i], p, false) + (if p(rows[i]) then [] else [rows[i]])
  {
    assert rows[..i + 1] == rows[..i] + [rows[i]];
    SideSnoc(rows[..i], rows[i], p, true);
    SideSnoc(rows[..i], rows[i], p, false);
  }

  /** A side holds exactly the elements of s that the predicate sends there. */
  lemma {:induction false} SideMembers(s: seq<int>, p: int -> bool, side: bool)
    ensures forall x :: x in Side(s, p, side) <==> x in s && p(x) == side
  {
    if |s| > 0 {
      SideMembers(s[..|s| - 1], p, side);
      assert s == s[..|s| - 1] + [s[|s| - 1]];
    }
  }

  // ---------------------------------------------------------------------------
  // Arrays.sort on the bag, as a function on the array's contents

  function Insert(x: int, s: seq<int>): (r: seq<int>)
    decreases |s|
  {
    if |s| == 0 || x <= s[0] then [x] + s else [s[0]] + Insert(x, s[1..])
  }

  function SortAscending(s: seq<int>): seq<int>
    decreases |s|
  {
    if |s| == 0 then [] else Insert(s[0], SortAscending(s[1..]))
  }

  lemma SortedCons(h: int, u: seq<int>)
    requires Sorted(u) && (|u| > 0 ==> h <= u[0])
    ensures Sorted([h] + u)
  {
    var v := [h] + u;
    forall a, b | 0 <= a < b < |v| ensures v[a] <= v[b] {
      if a == 0 && |u| > 0 {
        assert u[0] <= u[b - 1];
      }
    }
  }

  lemma {:induction false} InsertCorrect(x: int, s: seq<int>)
    requires Sorted(s)
    ensures Sorted(Insert(x, s))
    ensures multiset(Insert(x, s)) == multiset(s) + multiset{x}
    ensures |Insert(x, s)| == |s| + 1
    ensures Insert(x, s)[0] == x || Insert(x, s)[0] == s[0]
    decreases |s|
  {
    if |s| == 0 || x <= s[0] {
      SortedCons(x, s);
    } else {
      var t := s[1..];
      assert s == [s[0]] + t;
      InsertCorrect(x, t);
      var u := Insert(x, t);
      assert Insert(x, s) == [s[0]] + u;
      SortedCons(s[0], u);
    }
  }

  /** Sorting yields an ascending permutation of its input. */
  lemma {:induction false} SortAscendingCorrect(s: seq<int>)
    ensures Sorted(SortAscending(s))
    ensures multiset(SortAscending(s)) == multiset(s)
    ensures |SortAscending(s)| == |s|
    decreases |s|
  {
    if |s| > 0 {
      SortAscendingCorrect(s[1..]);
      InsertCorrect(s[0], SortAscending(s[1..]));
      assert s == [s[0]] + s[1..];
    }
  }

  /** floor(rows * pct): the Java cast `(int)(rows() * bagSizePct)` for a non-negative product. */
  function BagSize(rows: nat, pct: real): nat
    requires 0.0 <= pct
  {
    var x := rows as real * pct;
    assert 0.0 <= x;
    x.Floor
  }

  // ---------------------------------------------------------------------------
  // The statistic collaborator

  /**
   * Statistic / BaseStatistic / GiniStatistic as seen from the views: `add(row)`
   * is the only call made.  The model records the adapter rows it received.
   */
  class Statistic {
    var added: seq<int>

    constructor ()
      ensures added == []
    {
      added := [];
    }

    method Add(row: Row)
      modifies this
      ensures added == old(added) + [row.index]
    {
      added := added + [row.index];
    }
  }

  // ---------------------------------------------------------------------------
  // Rows and row iteration

  /** A row handle: the owning view plus an adapter row index; no storage of its own. */
  class Row {
    const data: Data
    var index: int

    constructor (data: Data)
      ensures this.data == data && index == 0
    {
      this.data := data;
      index := 0;
    }

    function ClassOf(): int
      reads this
    {
      data.adapter.classOf(index)
    }

    function GetS(column: int): int
      reads this
    {
      data.adapter.binned(index, column)
    }

    function GetColumnClass(column: int): int
      reads this
    {
      data.adapter.columnClass(index, column)
    }

    /** Every row weighs 1. */
    function Weight(): real {
      1.0
    }
  }

  /** Iteration over a view: one Row object, re-bound at every step. */
  class RowIter {
    const data: Data
    const r: Row
    var pos: nat

    constructor (data: Data)
      ensures this.data == data && pos == 0 && fresh(r) && r.data == data
    {
      this.data := data;
      r := new Row(data);
      pos := 0;
    }

    predicate HasNext()
      reads this
    {
      pos < data.Rows()
    }

    method Next() returns (row: Row)
      requires data.Valid() && HasNext()
      modifies this, r
      ensures row == r && pos == old(pos) + 1
      ensures r.index == data.Permute(old(pos))
    {
      row := data.FillRow(r, pos);
      pos := pos + 1;
    }
  }

  // ---------------------------------------------------------------------------
  // Views

  /**
   * A view: the root view made from an adapter (isSubset false) or a Subset
   * of a parent view (isSubset true) with its own index array.
   */
  class Data {
    const adapter: Adapter
    const isSubset: bool
    /** Subset only: adapter row indices, of which the first sz are the view's rows. */
    const permutation: seq<int>
    const sz: nat
    const parent: Data?
    /** Length of the parent chain; it makes the chain well founded. */
    ghost const depth: nat

    ghost predicate Valid()
      decreases depth
    {
      if isSubset then
        parent != null && parent.depth < depth && parent.Valid() &&
        parent.adapter == adapter && sz <= |permutation|
      else
        parent == null
    }

    /** Data.make: the root view over all of the adapter's rows. */
    constructor Make(da: Adapter)
      ensures Valid() && !isSubset && adapter == da
    {
      adapter := da;
      isSubset := false;
      permutation := [];
      sz := 0;
      parent := null;
      depth := 0;
    }

    /** A Subset of `data` whose rows are permutation[..sz]. */
    constructor Subset(data: Data, permutation: seq<int>, sz: nat)
      requires data.Valid() && sz <= |permutation|
      ensures Valid() && isSubset && parent == data && adapter == data.adapter
      ensures this.permutation == permutation && this.sz == sz
    {
      adapter := data.adapter;
      isSubset := true;
      this.permutation := permutation;
      this.sz := sz;
      parent := data;
      depth := data.depth + 1;
    }

    function Rows(): nat {
      if isSubset then sz else adapter.rowCount
    }

    /** The class column is not a feature column. */
    function Columns(): int {
      adapter.columnCount - 1
    }

    function Classes(): nat {
      adapter.classCount
    }

    /** The adapter row index of local row i. */
    function Permute(i: int): int
      requires Valid() && 0 <= i < Rows()
    {
      if isSubset then permutation[i] else i
    }

    /** The adapter rows of this view, in iteration order. */
    function Indices(): (r: seq<int>)
      requires Valid()
      ensures |r| == Rows()
      ensures forall i :: 0 <= i < Rows() ==> r[i] == Permute(i)
    {
      seq(Rows(), i requires 0 <= i < Rows() && Valid() => Permute(i))
    }

    /** The root view visits the adapter's rows 0, 1, ...; a Subset visits permutation[..sz]. */
    lemma IndicesOfView()
      requires Valid()
      ensures !isSubset ==> Indices() == seq(adapter.rowCount, i => i)
      ensures isSubset ==> Indices() == permutation[..sz]
    {
    }

    method FillRow(r: Row, rowIndex: int) returns (row: Row)
      requires Valid() && 0 <= rowIndex < Rows()
      modifies r
      ensures row == r && r.index == Permute(rowIndex)
    {
      r.index := Permute(rowIndex);
      row := r;
    }

    method GetRow(rowIndex: int) returns (row: Row)
      requires Valid() && 0 <= rowIndex < Rows()
      ensures fresh(row) && row.data == this && row.index == Permute(rowIndex)
    {
      var r := new Row(this);
      row := FillRow(r, rowIndex);
    }

    method Iterator() returns (it: RowIter)
      ensures fresh(it) && fresh(it.r) && it.data == this && it.pos == 0
    {
      it := new RowIter(this);
    }

    /** Iterating a view yields its rows bound to Permute(0), Permute(1), ... in order. */
    method Visit() returns (visited: seq<int>)
      requires Valid()
      ensures visited == Indices()
    {
      var it := Iterator();
      visited := [];
      while it.HasNext()
        invariant it.data == this && fresh(it.r)
        invariant it.pos <= Rows()
        invariant visited == Indices()[..it.pos]
        decreases Rows() - it.pos
      {
        var row := it.Next();
        visited := visited + [row.index];
      }
    }

    /**
     * The loop shared by the three filter variants: one pass over the view,
     * appending each row's adapter index to the left or the right index array
     * (each of length Rows()) and adding the row to that side's statistic.
     */
    method Route(goesLeft: int -> bool, statsLeft: Statistic, statsRight: Statistic)
      returns (li: array<int>, l: nat, ri: array<int>, r: nat)
      requires Valid() && statsLeft != statsRight
      modifies statsLeft, statsRight
      ensures fresh(li) && fresh(ri) && li.Length == ri.Length == Rows()
      ensures l <= li.Length && r <= ri.Length
      ensures li[..l] == Side(Indices(), goesLeft, true)
      ensures ri[..r] == Side(Indices(), goesLeft, false)
      ensures statsLeft.added == old(statsLeft.added) + li[..l]
      ensures statsRight.added == old(statsRight.added) + ri[..r]
    {
      var n := Rows();
      li := new int[n];
      ri := new int[n];
      l, r := 0, 0;
      var it := Iterator();
      while it.HasNext()
        invariant it.data == this && fresh(it.r) && it.pos <= n && l + r == it.pos
        invariant l <= li.Length && r <= ri.Length
        invariant RouteInv(goesLeft, it.pos, li[..l], ri[..r])
        invariant statsLeft.added == old(statsLeft.added) + li[..l]
        invariant statsRight.added == old(statsRight.added) + ri[..r]
        decreases n - it.pos
      {
        l, r := RouteStep(goesLeft, it, li, l, ri, r, statsLeft, statsRight,
                          old(statsLeft.added), old(statsRight.added));
      }
      assert Indices()[..it.pos] == Indices();
    }

    /** After i rows, L and R are the two sides of the first i rows. */
    ghost predicate RouteInv(p: int -> bool, i: nat, L: seq<int>, R: seq<int>) {
      Valid() && i <= Rows() &&
      L == Side(Indices()[..i], p, true) && R == Side(Indices()[..i], p, false)
    }

    /** Routing row i extends exactly one side by its adapter index. */
    lemma RouteInvNext(p: int -> bool, i: nat, L: seq<int>, R: seq<int>)
      requires RouteInv(p, i, L, R) && i < Rows()
      ensures p(Permute(i)) ==> RouteInv(p, i + 1, L + [Permute(i)], R)
      ensures !p(Permute(i)) ==> RouteInv(p, i + 1, L, R + [Permute(i)])
      ensures |L| + |R| == i
    {
      StepSides(Indices(), i, p);
      SidesLength(Indices()[..i], p);
    }

    /** One iteration of Route: the next row goes to its side and to that side's statistic. */
    method RouteStep(p: int -> bool, it: RowIter, li: array<int>, l: nat, ri: array<int>, r: nat,
                     statsLeft: Statistic, statsRight: Statistic, ghost baseL: seq<int>, ghost baseR: seq<int>)
      returns (l': nat, r': nat)
      requires it.data == this && it.HasNext() && li != ri && statsLeft != statsRight
      requires li.Length == ri.Length == Rows() && l <= li.Length && r <= ri.Length
      requires RouteInv(p, it.pos, li[..l], ri[..r])
      requires statsLeft.added == baseL + li[..l] && statsRight.added == baseR + ri[..r]
      modifies it, it.r, li, ri, statsLeft, statsRight
      ensures it.pos == old(it.pos) + 1 && l' + r' == it.pos
      ensures l' <= li.Length && r' <= ri.Length
      ensures RouteInv(p, it.pos, li[..l'], ri[..r'])
      ensures statsLeft.added == baseL + li[..l'] && statsRight.added == baseR + ri[..r']
    {
      ghost var i := it.pos;
      ghost var L, R := li[..l], ri[..r];
      RouteInvNext(p, i, L, R);
      var row := it.Next();
      var x := row.index;
      assert x == Permute(i);
      if p(x) {
        statsLeft.Add(row);
        Push(li, l, x);
        assert li[..l + 1] == L + [x] && ri[..r] == R;
        assert baseL + li[..l + 1] == baseL + L + [x];
        l', r' := l + 1, r;
      } else {
        statsRight.Add(row);
        Push(ri, r, x);
        assert ri[..r + 1] == R + [x] && li[..l] == L;
        assert baseR + ri[..r + 1] == baseR + R + [x];
        l', r' := l, r + 1;
      }
    }

    /** Wraps the two index arrays built by Route into Subsets of this view. */
    method Partition(goesLeft: int -> bool, statsLeft: Statistic, statsRight: Statistic)
      returns (left: Data, right: Data)
      requires Valid() && statsLeft != statsRight
      modifies statsLeft, statsRight
      ensures fresh(left) && fresh(right) && left.Valid() && right.Valid()
      ensures left.isSubset && left.parent == this && |left.permutation| == Rows()
      ensures right.isSubset && right.parent == this && |right.permutation| == Rows()
      ensures left.Indices() == Side(Indices(), goesLeft, true)
      ensures right.Indices() == Side(Indices(), goesLeft, false)
      ensures statsLeft.added == old(statsLeft.added) + left.Indices()
      ensures statsRight.added == old(statsRight.added) + right.Indices()
    {
      var li, l, ri, r := Route(goesLeft, statsLeft, statsRight);
      left := new Data.Subset(this, li[..], l);
      right := new Data.Subset(this, ri[..], r);
      left.IndicesOfView();
      right.IndicesOfView();
    }

    /** filter(Split): rows whose binned value in the split column is below the split value go left. */
    method FilterBySplit(column: int, value: real, statsLeft: Statistic, statsRight: Statistic)
      returns (left: Data, right: Data)
      requires Valid() && statsLeft != statsRight
      modifies statsLeft, statsRight
      ensures fresh(left) && fresh(right) && left.Valid() && right.Valid()
      ensures left.isSubset && left.parent == this && |left.permutation| == Rows()
      ensures right.isSubset && right.parent == this && |right.permutation| == Rows()
      ensures left.Indices() == Side(Indices(), SplitTest(column, value), true)
      ensures right.Indices() == Side(Indices(), SplitTest(column, value), false)
      ensures statsLeft.added == old(statsLeft.added) + left.Indices()
      ensures statsRight.added == old(statsRight.added) + right.Indices()
    {
      left, right := Partition(SplitTest(column, value), statsLeft, statsRight);
    }

    /** filter(column, split): rows whose bin code is at most `split` go left. */
    method FilterByBin(column: int, split: int, statsLeft: Statistic, statsRight: Statistic)
      returns (left: Data, right: Data)
      requires Valid() && statsLeft != statsRight
      modifies statsLeft, statsRight
      ensures fresh(left) && fresh(right) && left.Valid() && right.Valid()
      ensures left.isSubset && left.parent == this && |left.permutation| == Rows()
      ensures right.isSubset && right.parent == this && |right.permutation| == Rows()
      ensures left.Indices() == Side(Indices(), BinTest(column, split), true)
      ensures right.Indices() == Side(Indices(), BinTest(column, split), false)
      ensures statsLeft.added == old(statsLeft.added) + left.Indices()
      ensures statsRight.added == old(statsRight.added) + right.Indices()
    {
      left, right := Partition(BinTest(column, split), statsLeft, statsRight);
    }

    /** filterExclusion: rows whose bin code equals `split` go left, all others right. */
    method FilterExclusion(column: int, split: int, statsLeft: Statistic, statsRight: Statistic)
      returns (left: Data, right: Data)
      requires Valid() && statsLeft != statsRight
      modifies statsLeft, statsRight
      ensures fresh(left) && fresh(right) && left.Valid() && right.Valid()
      ensures left.isSubset && left.parent == this && |left.permutation| == Rows()
      ensures right.isSubset && right.parent == this && |right.permutation| == Rows()
      ensures left.Indices() == Side(Indices(), ExclusionTest(column, split), true)
      ensures right.Indices() == Side(Indices(), ExclusionTest(column, split), false)
      ensures statsLeft.added == old(statsLeft.added) + left.Indices()
      ensures statsRight.added == old(statsRight.added) + right.Indices()
    {
      left, right := Partition(ExclusionTest(column, split), statsLeft, statsRight);
    }

    function SplitTest(column: int, value: real): int -> bool {
      idx => (adapter.binned(idx, column) as real) < value
    }

    function BinTest(column: int, split: int): int -> bool {
      idx => adapter.columnClass(idx, column) <= split
    }

    function ExclusionTest(column: int, split: int): int -> bool {
      idx => adapter.columnClass(idx, column) == split
    }

    /** The adapter rows picked by the random draws, in draw order. */
    function Picks(draws: seq<int>): seq<int>
      requires Valid() && forall k :: 0 <= k < |draws| ==> 0 <= draws[k] < Rows()
    {
      seq(|draws|, k requires 0 <= k < |draws| && Valid() && 0 <= draws[k] < Rows() => Permute(draws[k]))
    }

    /**
     * Bagging: floor(Rows() * pct) rows drawn with replacement, stored sorted.
     * `draws` stands for the local positions returned by the seeded random source.
     */
    method SampleWithReplacement(bagSizePct: real, draws: seq<int>) returns (s: Data)
      requires Valid() && 0.0 <= bagSizePct
      requires |draws| == BagSize(Rows(), bagSizePct)
      requires forall k :: 0 <= k < |draws| ==> 0 <= draws[k] < Rows()
      ensures fresh(s) && s.Valid() && s.isSubset && s.parent == this
      ensures s.Rows() == |s.permutation| == BagSize(Rows(), bagSizePct)
      ensures Sorted(s.permutation)
      ensures multiset(s.permutation) == multiset(Picks(draws))
      ensures forall x :: x in s.permutation ==> x in Indices()
    {
      var n := BagSize(Rows(), bagSizePct);
      var sample := new int[n];
      var i := 0;
      while i < n
        invariant 0 <= i <= n
        invariant forall k :: 0 <= k < i ==> sample[k] == Permute(draws[k])
      {
        sample[i] := Permute(draws[i]);
        i := i + 1;
      }
      assert sample[..] == Picks(draws);
      var sorted := SortAscending(sample[..]);
      SortAscendingCorrect(sample[..]);
      s := new Data.Subset(this, sorted, |sorted|);
      PicksAreRows(draws, sorted);
    }

    /** Whatever order the picks are stored in, each is a row of this view. */
    lemma PicksAreRows(draws: seq<int>, stored: seq<int>)
      requires Valid() && forall k :: 0 <= k < |draws| ==> 0 <= draws[k] < Rows()
      requires multiset(stored) == multiset(Picks(draws))
      ensures forall x :: x in stored ==> x in Indices()
    {
      forall x | x in stored ensures x in Indices() {
        assert x in multiset(Picks(draws));
        var k :| 0 <= k < |draws| && Picks(draws)[k] == x;
        assert Indices()[draws[k]] == x;
      }
    }

    /**
     * The parent's rows that are not rows of this Subset, each once, in an
     * unspecified order (that of a HashSet); on the root view it fails.
     */
    method Complement() returns (c: Result<Data>)
      requires Valid()
      ensures !isSubset ==> c.Err?
      ensures isSubset ==> c.Ok? && fresh(c.value) && c.value.Valid() && c.value.isSubset
      ensures isSubset ==> c.value.parent == parent && c.value.sz == |c.value.permutation|
      ensures isSubset ==> Distinct(c.value.permutation)
      ensures isSubset ==>
        Elements(c.value.permutation) == Elements(parent.Indices()) - Elements(Indices())
    {
      if !isSubset {
        return Err("Only for subsets.");
      }
      ghost var prows, rows := parent.Indices(), Indices();
      var s: set<int> := {};
      var i := 0;
      while i < parent.Rows()
        invariant 0 <= i <= parent.Rows()
        invariant s == Elements(prows[..i])
      {
        ElementsSnoc(prows, i);
        s := s + {parent.Permute(i)};
        i := i + 1;
      }
      assert prows[..i] == prows;
      i := 0;
      while i < Rows()
        invariant 0 <= i <= Rows()
        invariant s == Elements(prows) - Elements(rows[..i])
      {
        ElementsSnoc(rows, i);
        s := s - {Permute(i)};
        i := i + 1;
      }
      assert rows[..i] == rows;
      var p := Enumerate(s);
      var comp := new Data.Subset(parent, p, |p|);
      c := Ok(comp);
    }
  }

  /** The elements of a prefix grow by one entry at a time. */
  lemma ElementsSnoc(s: seq<int>, i: nat)
    requires i < |s|
    ensures Elements(s[..i + 1]) == Elements(s[..i]) + {s[i]}
  {
    assert s[..i + 1] == s[..i] + [s[i]];
  }

  /** A set other than the empty one has a member. */
  lemma MemberOf(s: set<int>)
    requires s != {}
    ensures exists v :: v in s
  {
    if forall v :: v !in s {
      assert false;
    }
  }

  /** The elements of a set, each once, in whatever order they are picked. */
  method Enumerate(s: set<int>) returns (p: seq<int>)
    ensures Distinct(p) && Elements(p) == s
  {
    var rest := s;
    p := [];
    while rest != {}
      invariant Elements(p) + rest == s && Elements(p) !! rest && Distinct(p)
      decreases |rest|
    {
      MemberOf(rest);
      var v :| v in rest;
      p := p + [v];
      rest := rest - {v};
    }
  }

}
