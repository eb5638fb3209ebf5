/** The single-line slide-and-merge primitive of the 2048 game: `slideRow`
    and `slideColumn` of index.tsx.

    A line is read in the direction its tiles travel, so index 0 is the edge
    the tiles slide towards.  The primitive drops the empty cells (0), merges
    adjacent equal tiles in one left-to-right pass in which a merged tile is
    never merged again, drops the emptied cells once more and pads the line
    back to the board width with zeros.

    `SlideLine` is the reference definition of that function;
    `SlideRow` and `SlideColumn` follow the source's index-skipping loop and
    are proved to compute it. */
module Lines {

  /** Width and height of the board (the constant SIZE of GameBoard.tsx, the
      literal 4 of index.tsx). */
  const Size := 4

  /** What the primitive returns: the new line and the score it earned. */
  datatype LineResult = LineResult(line: seq<int>, gain: int)

  /** Sum of the tile values of a line. */
  function Sum(s: seq<int>): int
  {
    if |s| == 0 then 0 else s[0] + Sum(s[1..])
  }

  /** Number of non-empty cells of a line. */
  function Count(s: seq<int>): (n: nat)
    ensures n <= |s|
  {
    if |s| == 0 then 0 else (if s[0] != 0 then 1 else 0) + Count(s[1..])
  }

  predicate AllNonZero(s: seq<int>)
  {
    forall i :: 0 <= i < |s| ==> s[i] != 0
  }

  /** The tiles sit at the head of the line and only empty cells trail. */
  predicate Compacted(s: seq<int>)
  {
    forall i, j :: 0 <= i < j < |s| && s[i] == 0 ==> s[j] == 0
  }

  predicate NoAdjacentEqual(s: seq<int>)
  {
    forall i :: 0 <= i < |s| - 1 ==> s[i] != s[i + 1]
  }

  /** `filter(val => val !== 0)`: the tiles of a line, in order. */
  function NonZero(s: seq<int>): (r: seq<int>)
    ensures AllNonZero(r)
    ensures |r| == Count(s) <= |s|
    ensures Sum(r) == Sum(s)
  {
    if |s| == 0 then []
    else if s[0] == 0 then NonZero(s[1..])
    else [s[0]] + NonZero(s[1..])
  }

  /** The merge pass over a line of tiles: the leftmost equal pair merges
      first, and the scan resumes after the merged tile. */
  function Merged(s: seq<int>): (r: seq<int>)
    ensures |r| <= |s|
    ensures Sum(r) == Sum(s)
    ensures AllNonZero(s) ==> AllNonZero(r)
  {
    if |s| < 2 then s
    else if s[0] == s[1] then
      assert s[1..][1..] == s[2..];
      [2 * s[0]] + Merged(s[2..])
    else [s[0]] + Merged(s[1..])
  }

  /** The doubled values the merge pass creates, in scan order. */
  function Created(s: seq<int>): (r: seq<int>)
    ensures |Merged(s)| + |r| == |s|
  {
    if |s| < 2 then []
    else if s[0] == s[1] then [2 * s[0]] + Created(s[2..])
    else Created(s[1..])
  }

  /** A line of `n` empty cells. */
  function Zeros(n: nat): (r: seq<int>)
    ensures |r| == n && Sum(r) == 0 && Count(r) == 0
  {
    if n == 0 then [] else [0] + Zeros(n - 1)
  }

  /** `while (newRow.length < 4) newRow.push(0)`. */
  function Pad(s: seq<int>, n: nat): (r: seq<int>)
  {
    if |s| < n then s + Zeros(n - |s|) else s
  }

  /** Reference definition of the primitive. */
  function SlideLine(line: seq<int>): (r: LineResult)
    ensures |line| <= Size ==> |r.line| == Size
    ensures |r.line| >= Size
  {
    var tiles := NonZero(line);
    LineResult(Pad(Merged(tiles), Size), Sum(Created(tiles)))
  }

  /** The slid line has its tiles packed at the head, keeps the total value,
      and holds one tile fewer for every merge. */
  lemma SlideLinePacks(line: seq<int>)
    ensures Compacted(SlideLine(line).line)
    ensures Sum(SlideLine(line).line) == Sum(line)
    ensures Count(SlideLine(line).line) + |Created(NonZero(line))| == Count(line)
  {
    PadFacts(Merged(NonZero(line)), Size);
  }

  /** `slideRow` of index.tsx, lines 109-126, loop for loop. */
  method SlideRow(row: seq<int>) returns (movedRow: seq<int>, scoreGained: int)
    ensures LineResult(movedRow, scoreGained) == SlideLine(row)
    ensures |row| == Size ==> |movedRow| == Size
  {
    var tiles := NonZero(row);
    var newRow := tiles;
    scoreGained := 0;
    var i := 0;
    while i < |newRow| - 1
      invariant |newRow| == |tiles|
      invariant 0 <= i <= |tiles|
      invariant newRow[i..] == tiles[i..]
      invariant NonZero(newRow[..i]) + Merged(tiles[i..]) == Merged(tiles)
      invariant scoreGained + Sum(Created(tiles[i..])) == Sum(Created(tiles))
    {
      if newRow[i] == newRow[i + 1] {
        MergeStep(newRow, tiles, i);
        newRow := newRow[i := newRow[i] * 2];
        scoreGained := scoreGained + newRow[i];
        newRow := newRow[i + 1 := 0];
        i := i + 1;
      } else {
        KeepStep(newRow, tiles, i);
      }
      i := i + 1;
    }
    TailUnmerged(newRow, tiles, i);
    newRow := NonZero(newRow);
    movedRow := PadLoop(newRow);
  }

  /** `slideColumn` of index.tsx, lines 129-146: the same loop under other
      names, hence the same function as `SlideRow`. */
  method SlideColumn(column: seq<int>) returns (movedColumn: seq<int>, scoreGained: int)
    ensures LineResult(movedColumn, scoreGained) == SlideLine(column)
    ensures |column| == Size ==> |movedColumn| == Size
  {
    var tiles := NonZero(column);
    var newColumn := tiles;
    scoreGained := 0;
    var i := 0;
    while i < |newColumn| - 1
      invariant |newColumn| == |tiles|
      invariant 0 <= i <= |tiles|
      invariant newColumn[i..] == tiles[i..]
      invariant NonZero(newColumn[..i]) + Merged(tiles[i..]) == Merged(tiles)
      invariant scoreGained + Sum(Created(tiles[i..])) == Sum(Created(tiles))
    {
      if newColumn[i] == newColumn[i + 1] {
        MergeStep(newColumn, tiles, i);
        newColumn := newColumn[i := newColumn[i] * 2];
        scoreGained := scoreGained + newColumn[i];
        newColumn := newColumn[i + 1 := 0];
        i := i + 1;
      } else {
        KeepStep(newColumn, tiles, i);
      }
      i := i + 1;
    }
    TailUnmerged(newColumn, tiles, i);
    newColumn := NonZero(newColumn);
    movedColumn := PadLoop(newColumn);
  }

  /** The padding loop shared by both primitives. */
  method PadLoop(merged: seq<int>) returns (padded: seq<int>)
    ensures padded == Pad(merged, Size)
  {
    padded := merged;
    while |padded| < Size
      invariant |merged| <= |padded|
      invariant |merged| < Size ==> |padded| <= Size
      invariant |merged| >= Size ==> padded == merged
      invariant padded == merged + Zeros(|padded| - |merged|)
      decreases Size - |padded|
    {
      ZerosSnoc(|padded| - |merged|);
      padded := padded + [0];
    }
    if |merged| >= Size {
      assert padded == merged;
    }
  }

  // ---------------------------------------------------------------------
  // Properties of the primitive

  /** `out` arises from `s` by doubling some disjoint adjacent equal pairs and
      keeping every other tile, and `created` lists the doubled values in
      order: each tile takes part in at most one merge. */
  ghost predicate SingleMerges(s: seq<int>, out: seq<int>, created: seq<int>)
  {
    if |s| == 0 then out == [] && created == []
    else
      && |out| > 0
      && (|| (out[0] == s[0] && SingleMerges(s[1..], out[1..], created))
          || (&& |s| >= 2 && s[0] == s[1] && out[0] == 2 * s[0]
              && |created| > 0 && created[0] == out[0]
              && SingleMerges(s[2..], out[1..], created[1..])))
  }

  /** The merge pass never merges a tile twice, and the values it creates
      are exactly the doubled pairs. */
  lemma {:induction false} MergedSingleMerges(s: seq<int>)
    ensures SingleMerges(s, Merged(s), Created(s))
  {
    if |s| == 1 {
      assert s[1..] == [] && Merged(s)[1..] == [];
    } else if |s| >= 2 {
      if s[0] == s[1] {
        MergedSingleMerges(s[2..]);
        assert Merged(s)[1..] == Merged(s[2..]);
        assert Created(s)[1..] == Created(s[2..]);
      } else {
        MergedSingleMerges(s[1..]);
        assert Merged(s)[1..] == Merged(s[1..]);
      }
    }
  }

  /** Any single-merge rearrangement keeps the total and loses one tile per
      merge. */
  lemma {:induction false} SingleMergesShape(s: seq<int>, out: seq<int>, created: seq<int>)
    requires SingleMerges(s, out, created)
    ensures Sum(out) == Sum(s)
    ensures |out| + |created| == |s|
  {
    if |s| > 0 {
      if out[0] == s[0] && SingleMerges(s[1..], out[1..], created) {
        SingleMergesShape(s[1..], out[1..], created);
      } else {
        assert s[1..][1..] == s[2..];
        SingleMergesShape(s[2..], out[1..], created[1..]);
      }
    }
  }

  /** Dropping the first tile of a line removes at most one tile from the
      merge result. */
  lemma {:induction false} MergedLengthStep(u: seq<int>)
    requires |u| >= 1
    ensures |Merged(u[1..])| <= |Merged(u)| <= |Merged(u[1..])| + 1
  {
    if |u| >= 2 {
      var t := u[1..];
      assert t[1..] == u[2..];
      MergedLengthStep(t);
    }
  }

  /** Scanning from the left and merging the first equal pair makes as many
      merges as any single-merge rearrangement of the line can. */
  lemma {:induction false} MergedMaximal(s: seq<int>, out: seq<int>, created: seq<int>)
    requires SingleMerges(s, out, created)
    ensures |Merged(s)| <= |out|
    ensures |created| <= |Created(s)|
  {
    SingleMergesShape(s, out, created);
    if |s| >= 2 {
      assert s[1..][1..] == s[2..];
      if out[0] == s[0] && SingleMerges(s[1..], out[1..], created) {
        MergedMaximal(s[1..], out[1..], created);
        MergedLengthStep(s[1..]);
      } else {
        MergedMaximal(s[2..], out[1..], created[1..]);
      }
    }
  }

  /** `filter` keeps the order of the tiles: an empty cell anywhere in a
      line is dropped and a tile anywhere in a line stays between what the
      filter keeps of its left and of its right. */
  lemma NonZeroKeepsOrder(a: seq<int>, b: seq<int>, v: int)
    ensures NonZero(a + [v] + b) == NonZero(a) + (if v == 0 then [] else [v]) + NonZero(b)
  {
    var cell := NonZero([v]);
    assert cell == if v == 0 then [] else [v];
    NonZeroAppend(a, [v]);
    NonZeroAppend(a + [v], b);
  }

  /** The slid line is what the merge pass leaves of the line's tiles,
      followed by empty cells. */
  lemma SlideLineKeepsTiles(line: seq<int>)
    ensures var out := SlideLine(line).line;
            && NonZero(out) == Merged(NonZero(line))
            && out == NonZero(out) + Zeros(|out| - |NonZero(out)|)
  {
    var merged := Merged(NonZero(line));
    var out := SlideLine(line).line;
    NonZeroIdentity(merged);
    if |merged| < Size {
      assert out == merged + Zeros(Size - |merged|);
      NonZeroAppend(merged, Zeros(Size - |merged|));
      ZerosAllZero(Size - |merged|);
      AllZero(Zeros(Size - |merged|));
    } else {
      assert out == merged;
      assert Zeros(0) == [];
    }
    assert NonZero(out) == merged;
  }

  /** The slid line holds the line's tiles in order, with some disjoint
      adjacent equal pairs doubled, and the score it earns is the sum of
      exactly the doubled values. */
  lemma SlideLineMerges(line: seq<int>)
    ensures var tiles := NonZero(line);
            && SingleMerges(tiles, NonZero(SlideLine(line).line), Created(tiles))
            && SlideLine(line).gain == Sum(Created(tiles))
  {
    SlideLineKeepsTiles(line);
    MergedSingleMerges(NonZero(line));
  }

  /** `v` is twice a tile of `s` that sits next to an equal tile. */
  predicate DoubleOfPair(s: seq<int>, v: int)
  {
    exists i :: 0 <= i < |s| - 1 && s[i] == s[i + 1] && v == 2 * s[i]
  }

  /** Every created value is the double of an adjacent equal pair of the line. */
  lemma {:induction false} CreatedAreDoubles(s: seq<int>)
    ensures forall k :: 0 <= k < |Created(s)| ==> DoubleOfPair(s, Created(s)[k])
  {
    forall k | 0 <= k < |Created(s)|
      ensures DoubleOfPair(s, Created(s)[k])
    {
      CreatedDoubleAt(s, k);
    }
  }

  lemma {:induction false} CreatedDoubleAt(s: seq<int>, k: nat)
    requires k < |Created(s)|
    ensures DoubleOfPair(s, Created(s)[k])
  {
    assert |s| >= 2;
    if s[0] == s[1] && k == 0 {
      assert 0 < |s| - 1 && s[0] == s[1] && Created(s)[0] == 2 * s[0];
    } else {
      var t := if s[0] == s[1] then s[2..] else s[1..];
      var d := |s| - |t|;
      var k' := if s[0] == s[1] then k - 1 else k;
      assert Created(s)[k] == Created(t)[k'];
      CreatedDoubleAt(t, k');
      var i :| 0 <= i < |t| - 1 && t[i] == t[i + 1] && Created(t)[k'] == 2 * t[i];
      assert s[i + d] == t[i] && s[i + d + 1] == t[i + 1];
      assert 0 <= i + d < |s| - 1 && s[i + d] == s[i + d + 1] && Created(s)[k] == 2 * s[i + d];
    }
  }

  /** The merge pass changes a line exactly when two adjacent tiles are equal. */
  lemma {:induction false} MergedUnchangedIff(s: seq<int>)
    ensures Created(s) == [] <==> NoAdjacentEqual(s)
    ensures Merged(s) == s <==> NoAdjacentEqual(s)
  {
    if |s| >= 2 {
      if s[0] == s[1] {
        assert !NoAdjacentEqual(s);
        assert |Merged(s)| < |s|;
      } else {
        MergedUnchangedIff(s[1..]);
        assert s == [s[0]] + s[1..];
        assert NoAdjacentEqual(s) <==> NoAdjacentEqual(s[1..]) by {
          if NoAdjacentEqual(s[1..]) {
            forall i | 0 <= i < |s| - 1
              ensures s[i] != s[i + 1]
            {
              if i > 0 {
                assert s[i] == s[1..][i - 1] && s[i + 1] == s[1..][i];
              }
            }
          }
          if NoAdjacentEqual(s) {
            forall i | 0 <= i < |s[1..]| - 1
              ensures s[1..][i] != s[1..][i + 1]
            {
              assert s[1..][i] == s[i + 1] && s[1..][i + 1] == s[i + 2];
            }
          }
        }
      }
    }
  }

  /** A compacted line is its tiles followed by empty cells. */
  lemma {:induction false} CompactedSplit(s: seq<int>)
    requires Compacted(s)
    ensures s == NonZero(s) + Zeros(|s| - Count(s))
  {
    if |s| > 0 {
      if s[0] == 0 {
        assert forall j :: 0 <= j < |s| ==> s[j] == 0;
        AllZero(s);
      } else {
        assert Compacted(s[1..]) by {
          forall i, j | 0 <= i < j < |s[1..]| && s[1..][i] == 0
            ensures s[1..][j] == 0
          {
            assert s[i + 1] == 0;
          }
        }
        CompactedSplit(s[1..]);
        assert s == [s[0]] + s[1..];
      }
    }
  }

  lemma {:induction false} AllZero(s: seq<int>)
    requires forall j :: 0 <= j < |s| ==> s[j] == 0
    ensures s == Zeros(|s|) && NonZero(s) == [] && Count(s) == 0
  {
    if |s| > 0 {
      AllZero(s[1..]);
      assert s == [0] + s[1..];
    }
  }

  /** A full-width line comes back unchanged, with no score, exactly when its
      tiles are already packed at the head and no two adjacent tiles are
      equal.  The all-empty line is one such line. */
  lemma SlideLineUnchangedIff(line: seq<int>)
    requires |line| == Size
    ensures SlideLine(line) == LineResult(line, 0) <==> Compacted(line) && NoAdjacentEqual(NonZero(line))
  {
    if SlideLine(line) == LineResult(line, 0) {
      PackedWhenUnchanged(line);
    }
    if Compacted(line) && NoAdjacentEqual(NonZero(line)) {
      UnchangedWhenPacked(line);
    }
  }

  lemma PackedWhenUnchanged(line: seq<int>)
    requires SlideLine(line) == LineResult(line, 0)
    ensures Compacted(line) && NoAdjacentEqual(NonZero(line))
  {
    var tiles := NonZero(line);
    SlideLinePacks(line);
    MergedUnchangedIff(tiles);
    assert Count(line) + |Created(tiles)| == Count(line);
  }

  lemma UnchangedWhenPacked(line: seq<int>)
    requires |line| == Size && Compacted(line) && NoAdjacentEqual(NonZero(line))
    ensures SlideLine(line) == LineResult(line, 0)
  {
    var tiles := NonZero(line);
    MergedUnchangedIff(tiles);
    CompactedSplit(line);
    assert Created(tiles) == [];
    if |tiles| == Size {
      assert Zeros(0) == [];
    }
  }

  /** Tiles are never negative, so a slide never costs score, and it earns
      score exactly when it merges. */
  lemma SlideLineGain(line: seq<int>)
    requires forall v :: v in line ==> v >= 0
    ensures SlideLine(line).gain >= 0
    ensures SlideLine(line).gain == 0 <==> Count(SlideLine(line).line) == Count(line)
  {
    SlideLinePacks(line);
    forall i | 0 <= i < |line|
      ensures line[i] >= 0
    {
      assert line[i] in line;
    }
    PositiveTiles(line);
    CreatedPositive(NonZero(line));
  }

  lemma {:induction false} PositiveTiles(s: seq<int>)
    requires forall i :: 0 <= i < |s| ==> s[i] >= 0
    ensures forall i :: 0 <= i < |NonZero(s)| ==> NonZero(s)[i] > 0
  {
    if |s| > 0 {
      PositiveTiles(s[1..]);
    }
  }

  lemma {:induction false} CreatedPositive(s: seq<int>)
    requires forall i :: 0 <= i < |s| ==> s[i] > 0
    ensures Sum(Created(s)) >= 0
    ensures Sum(Created(s)) == 0 <==> Created(s) == []
  {
    if |s| >= 2 {
      if s[0] == s[1] {
        CreatedPositive(s[2..]);
        MergedHead(s);
      } else {
        CreatedPositive(s[1..]);
      }
    }
  }

  /** Each tile merges at most once and the leftmost pair wins. */
  lemma SingleMergeExamples()
    ensures SlideLine([2, 2, 2, 2]) == LineResult([4, 4, 0, 0], 8)
    ensures SlideLine([2, 2, 2, 0]) == LineResult([4, 2, 0, 0], 4)
  {
  }

  // ---------------------------------------------------------------------
  // Helper lemmas for the loops

  lemma {:induction false} ZerosSnoc(n: nat)
    ensures Zeros(n) + [0] == Zeros(n + 1)
  {
    if n > 0 {
      ZerosSnoc(n - 1);
      assert Zeros(n) + [0] == [0] + (Zeros(n - 1) + [0]);
    }
  }

  lemma {:induction false} SumAppend(a: seq<int>, b: seq<int>)
    ensures Sum(a + b) == Sum(a) + Sum(b)
  {
    if |a| > 0 {
      assert (a + b)[1..] == a[1..] + b;
      SumAppend(a[1..], b);
    } else {
      assert a + b == b;
    }
  }

  lemma {:induction false} CountAppend(a: seq<int>, b: seq<int>)
    ensures Count(a + b) == Count(a) + Count(b)
  {
    if |a| > 0 {
      assert (a + b)[1..] == a[1..] + b;
      CountAppend(a[1..], b);
    } else {
      assert a + b == b;
    }
  }

  lemma {:induction false} NonZeroAppend(a: seq<int>, b: seq<int>)
    ensures NonZero(a + b) == NonZero(a) + NonZero(b)
  {
    if |a| > 0 {
      assert (a + b)[1..] == a[1..] + b;
      NonZeroAppend(a[1..], b);
    } else {
      assert a + b == b;
    }
  }

  lemma {:induction false} NonZeroIdentity(s: seq<int>)
    requires AllNonZero(s)
    ensures NonZero(s) == s
  {
    if |s| > 0 {
      NonZeroIdentity(s[1..]);
    }
  }

  lemma {:induction false} CountAllNonZero(s: seq<int>)
    requires AllNonZero(s)
    ensures Count(s) == |s|
  {
    if |s| > 0 {
      CountAllNonZero(s[1..]);
    }
  }

  lemma PadFacts(s: seq<int>, n: nat)
    requires AllNonZero(s)
    ensures |Pad(s, n)| == if |s| < n then n else |s|
    ensures Compacted(Pad(s, n))
    ensures Sum(Pad(s, n)) == Sum(s)
    ensures Count(Pad(s, n)) == |s|
  {
    CountAllNonZero(s);
    if |s| < n {
      SumAppend(s, Zeros(n - |s|));
      CountAppend(s, Zeros(n - |s|));
      ZerosAllZero(n - |s|);
    }
  }

  lemma {:induction false} ZerosAllZero(n: nat)
    ensures forall i :: 0 <= i < n ==> Zeros(n)[i] == 0
  {
    if n > 0 {
      ZerosAllZero(n - 1);
    }
  }

  /** One unfolding of the merge pass at the head of a line. */
  lemma MergedHead(c: seq<int>)
    requires |c| >= 2
    ensures c[0] == c[1] ==> Merged(c) == [2 * c[0]] + Merged(c[2..])
    ensures c[0] == c[1] ==> Sum(Created(c)) == 2 * c[0] + Sum(Created(c[2..]))
    ensures c[0] != c[1] ==> Merged(c) == [c[0]] + Merged(c[1..])
    ensures c[0] != c[1] ==> Created(c) == Created(c[1..])
  {
    if c[0] == c[1] {
      SumAppend([2 * c[0]], Created(c[2..]));
    }
  }

  /** One merging iteration of the loop keeps the loop invariant. */
  lemma MergeStep(row: seq<int>, tiles: seq<int>, i: nat)
    requires AllNonZero(tiles) && |row| == |tiles| && i + 1 < |tiles|
    requires row[i..] == tiles[i..] && row[i] == row[i + 1]
    ensures row[i := row[i] * 2][i + 1 := 0][i + 2..] == tiles[i + 2..]
    ensures NonZero(row[i := row[i] * 2][i + 1 := 0][..i + 2]) + Merged(tiles[i + 2..])
            == NonZero(row[..i]) + Merged(tiles[i..])
    ensures Sum(Created(tiles[i..])) == 2 * tiles[i] + Sum(Created(tiles[i + 2..]))
  {
    var c := tiles[i..];
    var v := 2 * tiles[i];
    assert c[0] == row[i] && c[1] == row[i + 1] && c[2..] == tiles[i + 2..];
    MergedHead(c);
    assert row[i := row[i] * 2][i + 1 := 0][..i + 2] == row[..i] + [v, 0];
    NonZeroSkipsZero(row[..i], v);
    AppendAssoc(NonZero(row[..i]), [v], Merged(c[2..]));
  }

  /** One non-merging iteration of the loop keeps the loop invariant. */
  lemma KeepStep(row: seq<int>, tiles: seq<int>, i: nat)
    requires AllNonZero(tiles) && |row| == |tiles| && i + 1 < |tiles|
    requires row[i..] == tiles[i..] && row[i] != row[i + 1]
    ensures NonZero(row[..i + 1]) + Merged(tiles[i + 1..]) == NonZero(row[..i]) + Merged(tiles[i..])
    ensures Created(tiles[i..]) == Created(tiles[i + 1..])
  {
    var c := tiles[i..];
    var v := tiles[i];
    assert c[0] == row[i] && c[1] == row[i + 1] && c[1..] == tiles[i + 1..];
    MergedHead(c);
    assert row[..i + 1] == row[..i] + [v];
    NonZeroKeepsTile(row[..i], v);
    AppendAssoc(NonZero(row[..i]), [v], Merged(c[1..]));
  }

  lemma NonZeroSkipsZero(a: seq<int>, v: int)
    requires v != 0
    ensures NonZero(a + [v, 0]) == NonZero(a) + [v]
  {
    NonZeroAppend(a, [v, 0]);
    assert [v, 0][1..] == [0];
  }

  lemma NonZeroKeepsTile(a: seq<int>, v: int)
    requires v != 0
    ensures NonZero(a + [v]) == NonZero(a) + [v]
  {
    NonZeroAppend(a, [v]);
  }

  lemma AppendAssoc(a: seq<int>, b: seq<int>, c: seq<int>)
    ensures a + b + c == a + (b + c)
  {
  }

  /** When the loop stops, what is left is at most one tile, which stays. */
  lemma TailUnmerged(row: seq<int>, tiles: seq<int>, i: nat)
    requires AllNonZero(tiles) && |row| == |tiles| && i <= |tiles|
    requires row[i..] == tiles[i..] && !(i < |row| - 1)
    requires NonZero(row[..i]) + Merged(tiles[i..]) == Merged(tiles)
    ensures NonZero(row) == Merged(tiles)
    ensures Created(tiles[i..]) == []
  {
    assert row == row[..i] + tiles[i..];
    NonZeroAppend(row[..i], tiles[i..]);
    NonZeroIdentity(tiles[i..]);
  }
}
