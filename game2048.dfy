// The 2048 game of the kernel shell (kernel/main.c). add() merges equal
// neighbours of one line of four cells in place; each arrow key copies the
// four lines of the board in the key's direction into a buffer, runs add()
// on it and packs the result back towards the edge it was moved to.

module Game2048 {
  /** A non-empty cell of a line: where it is and what it holds. */
  datatype Tile = Tile(at: nat, value: int)

  /** The non-empty cells of s[lo..hi), in order of position. */
  function TilesIn(s: seq<int>, lo: nat, hi: nat): (r: seq<Tile>)
    requires lo <= hi <= |s|
    ensures |r| <= hi - lo
    decreases hi - lo
  {
    if hi == lo then []
    else TilesIn(s, lo, hi - 1) + (if s[hi - 1] != 0 then [Tile(hi - 1, s[hi - 1])] else [])
  }

  function Values(ts: seq<Tile>): (r: seq<int>)
    ensures |r| == |ts| && forall k :: 0 <= k < |ts| ==> r[k] == ts[k].value
  {
    seq(|ts|, k requires 0 <= k < |ts| => ts[k].value)
  }

  /** What add() makes of a line: the tiles left, the points scored, the
      number of merges, and whether a 2048 tile was formed. */
  datatype Merged = Merged(tiles: seq<Tile>, gain: int, merges: nat, reached2048: bool)

  /** Two passes over consecutive stretches of a line, put together. */
  function Combine(a: Merged, b: Merged): Merged {
    Merged(a.tiles + b.tiles, a.gain + b.gain, a.merges + b.merges, a.reached2048 || b.reached2048)
  }

  lemma CombineAssoc(a: Merged, b: Merged, c: Merged)
    ensures Combine(a, Combine(b, c)) == Combine(Combine(a, b), c)
  {
    assert a.tiles + (b.tiles + c.tiles) == (a.tiles + b.tiles) + c.tiles;
  }

  /** Merging from the front: two equal neighbouring tiles become one tile of
      their sum where the first of them was, and a tile formed this way does
      not merge again in the same pass. */
  function MergeTiles(ts: seq<Tile>): (r: Merged)
    ensures |r.tiles| + r.merges == |ts|
    decreases |ts|
  {
    if |ts| < 2 then Merged(ts, 0, 0, false)
    else if ts[0].value == ts[1].value then
      var v := ts[0].value + ts[1].value;
      var rest := MergeTiles(ts[2..]);
      Merged([Tile(ts[0].at, v)] + rest.tiles, v + rest.gain, rest.merges + 1, v == 2048 || rest.reached2048)
    else
      var rest := MergeTiles(ts[1..]);
      Merged([ts[0]] + rest.tiles, rest.gain, rest.merges, rest.reached2048)
  }

  function Sum(s: seq<int>): int {
    if |s| == 0 then 0 else s[0] + Sum(s[1..])
  }

  lemma {:induction false} SumAppend(a: seq<int>, b: seq<int>)
    ensures Sum(a + b) == Sum(a) + Sum(b)
  {
    if |a| > 0 {
      assert (a + b)[1..] == a[1..] + b;
      SumAppend(a[1..], b);
    } else {
      assert a + b == b;
    }
  }

  // ------------------------------------------------------- tile lemmas

  lemma {:induction false} TilesSplit(s: seq<int>, lo: nat, mid: nat, hi: nat)
    requires lo <= mid <= hi <= |s|
    ensures TilesIn(s, lo, hi) == TilesIn(s, lo, mid) + TilesIn(s, mid, hi)
    decreases hi - mid
  {
    if hi > mid {
      TilesSplit(s, lo, mid, hi - 1);
    }
  }

  /** The tiles of a range depend only on the cells in it. */
  lemma {:induction false} TilesFrame(s: seq<int>, t: seq<int>, lo: nat, hi: nat)
    requires lo <= hi <= |s| && hi <= |t|
    requires forall k :: lo <= k < hi ==> s[k] == t[k]
    ensures TilesIn(s, lo, hi) == TilesIn(t, lo, hi)
    decreases hi - lo
  {
    if hi > lo {
      TilesFrame(s, t, lo, hi - 1);
    }
  }

  lemma TilesOne(s: seq<int>, k: nat)
    requires k < |s|
    ensures TilesIn(s, k, k + 1) == if s[k] != 0 then [Tile(k, s[k])] else []
  {
    assert TilesIn(s, k, k) == [];
  }

  lemma {:induction false} TilesEmpty(s: seq<int>, lo: nat, hi: nat)
    requires lo <= hi <= |s|
    requires forall k :: lo <= k < hi ==> s[k] == 0
    ensures TilesIn(s, lo, hi) == []
    decreases hi - lo
  {
    if hi > lo {
      TilesEmpty(s, lo, hi - 1);
    }
  }

  /** The tiles of s[i..b) when s[i] is a tile and the cells after it are empty. */
  lemma {:induction false} TilesHeadOnly(s: seq<int>, i: nat, b: nat)
    requires i < b <= |s| && s[i] != 0
    requires forall k :: i < k < b ==> s[k] == 0
    ensures TilesIn(s, i, b) == [Tile(i, s[i])]
    decreases b
  {
    if b > i + 1 {
      TilesHeadOnly(s, i, b - 1);
    } else {
      assert TilesIn(s, i, i) == [];
    }
  }

  /** The tiles of s[i..hi) when s[i] is a tile and the next one is at b. */
  lemma {:induction false} TilesHeadNext(s: seq<int>, i: nat, b: nat, hi: nat)
    requires i < b < hi <= |s| && s[i] != 0 && s[b] != 0
    requires forall k :: i < k < b ==> s[k] == 0
    ensures TilesIn(s, i, hi) == [Tile(i, s[i]), Tile(b, s[b])] + TilesIn(s, b + 1, hi)
    decreases hi
  {
    if hi == b + 1 {
      TilesHeadOnly(s, i, b);
      assert TilesIn(s, b + 1, hi) == [];
    } else {
      TilesHeadNext(s, i, b, hi - 1);
      AppendAssoc([Tile(i, s[i]), Tile(b, s[b])], TilesIn(s, b + 1, hi - 1),
                  if s[hi - 1] != 0 then [Tile(hi - 1, s[hi - 1])] else []);
    }
  }

  lemma AppendAssoc(a: seq<Tile>, b: seq<Tile>, c: seq<Tile>)
    ensures (a + b) + c == a + (b + c)
  {
  }

  // --------------------------------------------------- add(), one step

  /** Where add()'s scan index points, capped at the end of the line. */
  function Cap(i: nat): (j: nat)
    ensures j <= 4 && (i < 4 ==> j == i)
  {
    if i < 4 then i else 4
  }

  /** The loop of add() at a tile i whose next tile b is equal to it: the
      pair merges into position i, b is emptied, and the scan resumes at
      i + b (capped at the end of the line), past everything it merged. */
  lemma StepMerge(s: seq<int>, t: seq<int>, i: nat, b: nat)
    requires |s| == 4 && i < b < 4 && s[i] != 0 && s[b] == s[i]
    requires forall k :: i < k < b ==> s[k] == 0
    requires t == s[i := s[i] + s[b]][b := 0]
    ensures TilesIn(t, 0, Cap(i + b)) == TilesIn(s, 0, i) + [Tile(i, t[i])]
    ensures TilesIn(t, Cap(i + b), 4) == TilesIn(s, b + 1, 4)
    ensures MergeTiles(TilesIn(s, i, 4)) == Combine(Merged([Tile(i, t[i])], t[i], 1, t[i] == 2048),
                                                    MergeTiles(TilesIn(s, b + 1, 4)))
  {
    assert t[i] == s[i] + s[b];
    MergePair(s, i, b, t[i]);
    MergedBefore(s, t, i, b);
    MergedAfter(s, t, i, b);
  }

  /** After the merge the scan has passed the merged tile and nothing else. */
  lemma MergedBefore(s: seq<int>, t: seq<int>, i: nat, b: nat)
    requires |s| == 4 && i < b < 4 && forall k :: i < k < b ==> s[k] == 0
    requires t == s[i := s[i] + s[b]][b := 0] && t[i] != 0
    ensures TilesIn(t, 0, Cap(i + b)) == TilesIn(s, 0, i) + [Tile(i, t[i])]
  {
    var j := Cap(i + b);
    assert j == if i == 0 then b else b + 1;
    TilesFrame(s, t, 0, i);
    TilesEmpty(t, i + 1, j);
    TilesOne(t, i);
    TilesSplit(t, i, i + 1, j);
    assert TilesIn(t, i, j) == [Tile(i, t[i])];
    TilesSplit(t, 0, i, j);
  }

  /** ... and what is ahead of it is what followed b. */
  lemma MergedAfter(s: seq<int>, t: seq<int>, i: nat, b: nat)
    requires |s| == 4 && i < b < 4
    requires t == s[i := s[i] + s[b]][b := 0]
    ensures TilesIn(t, Cap(i + b), 4) == TilesIn(s, b + 1, 4)
  {
    var j := Cap(i + b);
    assert j == if i == 0 then b else b + 1;
    TilesFrame(s, t, b + 1, 4);
    if j == b {
      StepEmpty(t, b);
    }
  }

  /** The pair at i and b merges, and the pass goes on after b. */
  lemma MergePair(s: seq<int>, i: nat, b: nat, v: int)
    requires |s| == 4 && i < b < 4 && s[i] != 0 && s[b] == s[i] && v == s[i] + s[b]
    requires forall k :: i < k < b ==> s[k] == 0
    ensures MergeTiles(TilesIn(s, i, 4)) == Combine(Merged([Tile(i, v)], v, 1, v == 2048), MergeTiles(TilesIn(s, b + 1, 4)))
  {
    TilesHeadNext(s, i, b, 4);
    MergeJoinsHead(Tile(i, s[i]), Tile(b, s[b]), TilesIn(s, b + 1, 4), v);
  }

  /** A first tile equal to the second takes their sum, and the pass goes
      on after the second. */
  lemma MergeJoinsHead(x: Tile, y: Tile, rest: seq<Tile>, v: int)
    requires x.value == y.value && v == x.value + y.value
    ensures MergeTiles([x, y] + rest) == Combine(Merged([Tile(x.at, v)], v, 1, v == 2048), MergeTiles(rest))
  {
    assert ([x, y] + rest)[2..] == rest;
  }

  /** ... at a tile i whose next tile b differs from it: i stays, and the
      scan resumes at b. */
  lemma StepKeep(s: seq<int>, i: nat, b: nat)
    requires |s| == 4 && i < b < 4 && s[i] != 0 && s[b] != 0 && s[b] != s[i]
    requires forall k :: i < k < b ==> s[k] == 0
    ensures var rest := MergeTiles(TilesIn(s, b, 4));
            && TilesIn(s, 0, b) == TilesIn(s, 0, i) + [Tile(i, s[i])]
            && MergeTiles(TilesIn(s, i, 4)) == Combine(Merged([Tile(i, s[i])], 0, 0, false), rest)
  {
    KeepBefore(s, i, b);
    KeepPair(s, i, b);
  }

  lemma KeepBefore(s: seq<int>, i: nat, b: nat)
    requires |s| == 4 && i < b < 4 && s[i] != 0
    requires forall k :: i < k < b ==> s[k] == 0
    ensures TilesIn(s, 0, b) == TilesIn(s, 0, i) + [Tile(i, s[i])]
  {
    TilesEmpty(s, i + 1, b);
    TilesOne(s, i);
    TilesSplit(s, i, i + 1, b);
    assert TilesIn(s, i, b) == [Tile(i, s[i])];
    TilesSplit(s, 0, i, b);
  }

  lemma KeepPair(s: seq<int>, i: nat, b: nat)
    requires |s| == 4 && i < b < 4 && s[i] != 0 && s[b] != 0 && s[b] != s[i]
    requires forall k :: i < k < b ==> s[k] == 0
    ensures MergeTiles(TilesIn(s, i, 4)) == Combine(Merged([Tile(i, s[i])], 0, 0, false), MergeTiles(TilesIn(s, b, 4)))
  {
    TilesHeadNext(s, i, b, 4);
    TilesSplit(s, b, b + 1, 4);
    TilesOne(s, b);
    MergeKeepsHead(Tile(i, s[i]), Tile(b, s[b]), TilesIn(s, b + 1, 4));
  }

  /** A first tile unequal to the second stays as it is. */
  lemma MergeKeepsHead(x: Tile, y: Tile, rest: seq<Tile>)
    requires x.value != y.value
    ensures MergeTiles([x, y] + rest) == Combine(Merged([x], 0, 0, false), MergeTiles([y] + rest))
  {
    assert ([x, y] + rest)[1..] == [y] + rest;
  }

  /** ... at the last tile of the line: it stays, and the scan moves on. */
  lemma StepLast(s: seq<int>, i: nat)
    requires |s| == 4 && i < 4 && s[i] != 0
    requires forall k :: i < k < 4 ==> s[k] == 0
    ensures TilesIn(s, 0, i + 1) == TilesIn(s, 0, i) + [Tile(i, s[i])]
    ensures TilesIn(s, i + 1, 4) == []
    ensures MergeTiles(TilesIn(s, i, 4)) == Combine(Merged([Tile(i, s[i])], 0, 0, false), MergeTiles(TilesIn(s, i + 1, 4)))
  {
    TilesSplit(s, 0, i, i + 1);
    TilesOne(s, i);
    TilesEmpty(s, i + 1, 4);
    TilesSplit(s, i, i + 1, 4);
  }

  /** ... at an empty cell: nothing happens, and the scan moves on. */
  lemma StepEmpty(s: seq<int>, i: nat)
    requires |s| == 4 && i < 4 && s[i] == 0
    ensures TilesIn(s, 0, i + 1) == TilesIn(s, 0, i)
    ensures TilesIn(s, i, 4) == TilesIn(s, i + 1, 4)
  {
    TilesSplit(s, 0, i, i + 1);
    TilesOne(s, i);
    TilesSplit(s, i, i + 1, 4);
  }

  /** add()'s scan at index i of line s: done is what the scan has merged
      so far, the tiles before i, and it together with a fresh pass over the
      tiles from i on makes up the pass m over the whole line. */
  ghost predicate ScanState(s: seq<int>, i: nat, done: Merged, m: Merged) {
    |s| == 4 && TilesIn(s, 0, Cap(i)) == done.tiles && m == Combine(done, MergeTiles(TilesIn(s, Cap(i), 4)))
  }

  lemma ScanStart(s: seq<int>)
    requires |s| == 4
    ensures ScanState(s, 0, Merged([], 0, 0, false), MergeTiles(TilesIn(s, 0, 4)))
  {
    assert TilesIn(s, 0, 0) == [];
    var m := MergeTiles(TilesIn(s, 0, 4));
    assert [] + m.tiles == m.tiles;
  }

  lemma ScanMerge(s: seq<int>, t: seq<int>, i: nat, b: nat, done: Merged, m: Merged)
    requires ScanState(s, i, done, m) && i < b < 4 && s[i] != 0 && s[b] == s[i]
    requires forall k :: i < k < b ==> s[k] == 0
    requires t == s[i := s[i] + s[b]][b := 0]
    ensures ScanState(t, i + b, Combine(done, Merged([Tile(i, t[i])], t[i], 1, t[i] == 2048)), m)
  {
    StepMerge(s, t, i, b);
    CombineAssoc(done, Merged([Tile(i, t[i])], t[i], 1, t[i] == 2048), MergeTiles(TilesIn(s, b + 1, 4)));
  }

  lemma ScanKeep(s: seq<int>, i: nat, b: nat, done: Merged, m: Merged)
    requires ScanState(s, i, done, m) && i < b < 4 && s[i] != 0 && s[b] != 0 && s[b] != s[i]
    requires forall k :: i < k < b ==> s[k] == 0
    ensures ScanState(s, b, Combine(done, Merged([Tile(i, s[i])], 0, 0, false)), m)
  {
    StepKeep(s, i, b);
    CombineAssoc(done, Merged([Tile(i, s[i])], 0, 0, false), MergeTiles(TilesIn(s, b, 4)));
  }

  lemma ScanLast(s: seq<int>, i: nat, done: Merged, m: Merged)
    requires ScanState(s, i, done, m) && i < 4 && s[i] != 0
    requires forall k :: i < k < 4 ==> s[k] == 0
    ensures ScanState(s, i + 1, Combine(done, Merged([Tile(i, s[i])], 0, 0, false)), m)
  {
    StepLast(s, i);
    CombineAssoc(done, Merged([Tile(i, s[i])], 0, 0, false), MergeTiles(TilesIn(s, i + 1, 4)));
  }

  lemma ScanEmpty(s: seq<int>, i: nat, done: Merged, m: Merged)
    requires ScanState(s, i, done, m) && i < 4 && s[i] == 0
    ensures ScanState(s, i + 1, done, m)
  {
    StepEmpty(s, i);
  }

  /** When the scan stops, what is left is at most one tile, which merges
      with nothing: the line holds the pass's tiles and done its tally. */
  lemma ScanEnd(s: seq<int>, i: nat, done: Merged, m: Merged)
    requires ScanState(s, i, done, m) && 3 <= i
    ensures TilesIn(s, 0, 4) == m.tiles
    ensures m.gain == done.gain && m.merges == done.merges && m.reached2048 == done.reached2048
  {
    TilesSplit(s, 0, Cap(i), 4);
  }

  /** The first tile after position i of a line, or 4 when there is none. */
  function NextFrom(s: seq<int>, k: nat): (b: nat)
    requires |s| == 4 && k <= 4
    ensures k <= b <= 4 && (b < 4 ==> s[b] != 0) && forall x :: k <= x < b ==> s[x] == 0
    decreases 4 - k
  {
    if k == 4 || s[k] != 0 then k else NextFrom(s, k + 1)
  }

  /** The globals add() works on: the four cells, score, ifappear, gamew. */
  datatype AddRun = AddRun(cells: seq<int>, score: int, ifappear: int, gamew: int)

  /** Where add()'s loop stands: the globals and the index i. */
  datatype Scan = Scan(run: AddRun, at: nat)

  /** One turn of add()'s loop at index i: an empty cell is passed over; a
      tile with no tile after it is passed over; a tile equal to the next
      tile b takes their sum (score grows by it, ifappear by one, gamew is
      set when it is 2048), b is emptied and the scan goes on at i + b; a
      tile unequal to the next tile b is kept and the scan goes on at b. */
  function AddStep(r: AddRun, i: nat): (n: Scan)
    requires |r.cells| == 4 && i < 3
    ensures |n.run.cells| == 4 && i < n.at <= 5
  {
    if r.cells[i] == 0 then Scan(r, i + 1)
    else
      var b := NextFrom(r.cells, i + 1);
      if b == 4 then Scan(r, i + 1)
      else if r.cells[i] == r.cells[b] then
        var v := r.cells[i] + r.cells[b];
        Scan(AddRun(r.cells[i := v][b := 0], r.score + v, r.ifappear + 1, if v == 2048 then 1 else r.gamew), i + b)
      else Scan(r, b)
  }

  /** add()'s loop from index i on: while i < 3, one more turn. */
  function AddLoop(r: AddRun, i: nat): (f: AddRun)
    requires |r.cells| == 4 && i <= 5
    ensures |f.cells| == 4
    decreases 5 - i
  {
    if i >= 3 then r
    else
      var n := AddStep(r, i);
      AddLoop(n.run, n.at)
  }

  /** What add()'s loop computes is the pass MergeTiles: the line keeps the
      merged tiles, score grows by the points, ifappear by the merges, and
      gamew is set exactly when 2048 is formed. */
  lemma {:induction false} AddLoopMerges(r: AddRun, i: nat, done: Merged, m: Merged, score: int, ifappear: int, gamew: int)
    requires |r.cells| == 4 && i <= 5 && ScanState(r.cells, i, done, m)
    requires r.score == score + done.gain && r.ifappear == ifappear + done.merges
    requires r.gamew == if done.reached2048 then 1 else gamew
    ensures var f := AddLoop(r, i);
            && TilesIn(f.cells, 0, 4) == m.tiles
            && f.score == score + m.gain && f.ifappear == ifappear + m.merges
            && f.gamew == if m.reached2048 then 1 else gamew
    decreases 5 - i, 1
  {
    var s := r.cells;
    if i >= 3 {
      ScanEnd(s, i, done, m);
      assert AddLoop(r, i) == r;
    } else if s[i] == 0 {
      ScanEmpty(s, i, done, m);
      assert AddLoop(r, i) == AddLoop(r, i + 1) by { assert AddStep(r, i) == Scan(r, i + 1); }
      AddLoopMerges(r, i + 1, done, m, score, ifappear, gamew);
    } else {
      var b := NextFrom(s, i + 1);
      if b == 4 {
        ScanLast(s, i, done, m);
        assert AddLoop(r, i) == AddLoop(r, i + 1) by { assert AddStep(r, i) == Scan(r, i + 1); }
        AddLoopMerges(r, i + 1, Combine(done, Merged([Tile(i, s[i])], 0, 0, false)), m, score, ifappear, gamew);
      } else if s[i] == s[b] {
        MergeTurn(r, i, b, done, m, score, ifappear, gamew);
      } else {
        ScanKeep(s, i, b, done, m);
        assert AddLoop(r, i) == AddLoop(r, b) by { assert AddStep(r, i) == Scan(r, b); }
        AddLoopMerges(r, b, Combine(done, Merged([Tile(i, s[i])], 0, 0, false)), m, score, ifappear, gamew);
      }
    }
  }

  /** The merging turn of AddLoopMerges. */
  lemma {:induction false} MergeTurn(r: AddRun, i: nat, b: nat, done: Merged, m: Merged,
                                     score: int, ifappear: int, gamew: int)
    requires |r.cells| == 4 && i < 3 && ScanState(r.cells, i, done, m) && r.cells[i] != 0
    requires b == NextFrom(r.cells, i + 1) && b < 4 && r.cells[i] == r.cells[b]
    requires r.score == score + done.gain && r.ifappear == ifappear + done.merges
    requires r.gamew == if done.reached2048 then 1 else gamew
    ensures var f := AddLoop(r, i);
            && TilesIn(f.cells, 0, 4) == m.tiles
            && f.score == score + m.gain && f.ifappear == ifappear + m.merges
            && f.gamew == if m.reached2048 then 1 else gamew
    decreases 5 - i, 0
  {
    var v := r.cells[i] + r.cells[b];
    var next := AddRun(r.cells[i := v][b := 0], r.score + v, r.ifappear + 1, if v == 2048 then 1 else r.gamew);
    MergeTurnStep(r, i, b, v, next);
    ScanMerge(r.cells, next.cells, i, b, done, m);
    AddLoopMerges(next, i + b, Combine(done, Merged([Tile(i, v)], v, 1, v == 2048)), m,
                  score, ifappear, gamew);
  }

  lemma MergeTurnStep(r: AddRun, i: nat, b: nat, v: int, next: AddRun)
    requires |r.cells| == 4 && i < 3 && r.cells[i] != 0
    requires b == NextFrom(r.cells, i + 1) && b < 4 && r.cells[i] == r.cells[b] && v == r.cells[i] + r.cells[b]
    requires next == AddRun(r.cells[i := v][b := 0], r.score + v, r.ifappear + 1, if v == 2048 then 1 else r.gamew)
    ensures AddLoop(r, i) == AddLoop(next, i + b)
  {
    assert AddStep(r, i) == Scan(next, i + b);
  }

  // ------------------------------------------------ facts about tiles

  lemma {:induction false} TilesRange(s: seq<int>, lo: nat, hi: nat)
    requires lo <= hi <= |s|
    ensures forall k :: 0 <= k < |TilesIn(s, lo, hi)| ==>
              lo <= TilesIn(s, lo, hi)[k].at < hi && TilesIn(s, lo, hi)[k].value != 0 &&
              s[TilesIn(s, lo, hi)[k].at] == TilesIn(s, lo, hi)[k].value
    decreases hi - lo
  {
    if hi > lo {
      TilesRange(s, lo, hi - 1);
    }
  }

  /** A line is determined by its tiles. */
  lemma {:induction false} TilesDetermine(s: seq<int>, t: seq<int>, hi: nat)
    requires hi <= |s| && hi <= |t| && TilesIn(s, 0, hi) == TilesIn(t, 0, hi)
    ensures forall k :: 0 <= k < hi ==> s[k] == t[k]
  {
    if hi > 0 {
      var ps, pt := TilesIn(s, 0, hi - 1), TilesIn(t, 0, hi - 1);
      TilesRange(s, 0, hi - 1);
      TilesRange(t, 0, hi - 1);
      if (s[hi - 1] != 0) != (t[hi - 1] != 0) {
        LastTile(s, hi);
        LastTile(t, hi);
        assert false;
      } else if s[hi - 1] != 0 {
        var r := TilesIn(s, 0, hi);
        assert r[..|r| - 1] == ps && TilesIn(t, 0, hi)[..|r| - 1] == pt;
        TilesDetermine(s, t, hi - 1);
      } else {
        assert TilesIn(s, 0, hi) == ps + [] && TilesIn(t, 0, hi) == pt + [];
        assert ps + [] == ps && pt + [] == pt;
        TilesDetermine(s, t, hi - 1);
      }
    }
  }

  /** The last cell of a range is non-empty exactly when the range's last
      tile sits there. */
  lemma LastTile(s: seq<int>, hi: nat)
    requires 0 < hi <= |s|
    ensures var r := TilesIn(s, 0, hi); s[hi - 1] != 0 <==> |r| > 0 && r[|r| - 1].at == hi - 1
  {
    TilesRange(s, 0, hi - 1);
    var p := TilesIn(s, 0, hi - 1);
    if s[hi - 1] == 0 {
      assert TilesIn(s, 0, hi) == p + [] && p + [] == p;
    }
  }

  /** The tiles of a line whose first h cells are all non-empty. */
  lemma {:induction false} TilesOfFull(s: seq<int>, h: nat)
    requires h <= |s| && forall k :: 0 <= k < h ==> s[k] != 0
    ensures TilesIn(s, 0, h) == seq(h, k requires 0 <= k < h => Tile(k, s[k]))
  {
    if h > 0 {
      TilesOfFull(s, h - 1);
    }
  }

  /** The tiles a list of values makes when laid down from position 0. */
  function Enumerate(vs: seq<int>): (r: seq<Tile>)
    ensures |r| == |vs| && forall k :: 0 <= k < |vs| ==> r[k].at == k && r[k].value == vs[k]
  {
    seq(|vs|, k requires 0 <= k < |vs| => Tile(k, vs[k]))
  }

  /** The values laid down from position 0, the rest of the line empty:
      what the packing loop after add() writes back. */
  function Pack(vs: seq<int>): (r: seq<int>)
    requires |vs| <= 4
    ensures |r| == 4 && r[..|vs|] == vs && forall k :: |vs| <= k < 4 ==> r[k] == 0
  {
    vs + seq(4 - |vs|, _ => 0)
  }

  lemma TilesOfPack(vs: seq<int>)
    requires |vs| <= 4 && forall k :: 0 <= k < |vs| ==> vs[k] != 0
    ensures TilesIn(Pack(vs), 0, 4) == Enumerate(vs)
  {
    var s := Pack(vs);
    TilesOfFull(s, |vs|);
    TilesEmpty(s, |vs|, 4);
    TilesSplit(s, 0, |vs|, 4);
  }

  /** How many tiles sit elsewhere than at their rank: the cells the packing
      loop counts as moved. */
  function Shifted(ts: seq<Tile>): (r: nat)
    ensures r <= |ts|
  {
    if |ts| == 0 then 0
    else Shifted(ts[..|ts| - 1]) + (if ts[|ts| - 1].at != |ts| - 1 then 1 else 0)
  }

  lemma {:induction false} ShiftedZero(ts: seq<Tile>)
    ensures Shifted(ts) == 0 <==> forall k :: 0 <= k < |ts| ==> ts[k].at == k
  {
    if |ts| > 0 {
      var init := ts[..|ts| - 1];
      ShiftedZero(init);
      if Shifted(ts) == 0 {
        forall k | 0 <= k < |ts| ensures ts[k].at == k {
          if k < |ts| - 1 { assert ts[k] == init[k]; }
        }
      } else if Shifted(init) != 0 {
        var k :| 0 <= k < |init| && init[k].at != k;
        assert ts[k] == init[k];
      }
    }
  }

  // ---------------------------------------------- facts about merging

  /** A pass with no merge leaves the tiles as they were. */
  lemma {:induction false} NoMergeIdentity(ts: seq<Tile>)
    requires MergeTiles(ts).merges == 0
    ensures MergeTiles(ts) == Merged(ts, 0, 0, false)
  {
    if |ts| >= 2 {
      NoMergeIdentity(ts[1..]);
      assert [ts[0]] + ts[1..] == ts;
    }
  }

  /** With no two equal neighbours nothing merges. */
  lemma {:induction false} MergeStable(ts: seq<Tile>)
    requires forall k :: 0 <= k < |ts| - 1 ==> ts[k].value != ts[k + 1].value
    ensures MergeTiles(ts) == Merged(ts, 0, 0, false)
  {
    if |ts| >= 2 {
      MergeStable(ts[1..]);
      assert [ts[0]] + ts[1..] == ts;
    }
  }

  /** Merging non-empty tiles gives non-empty tiles. */
  lemma {:induction false} MergeNonZero(ts: seq<Tile>)
    requires forall k :: 0 <= k < |ts| ==> ts[k].value != 0
    ensures forall k :: 0 <= k < |MergeTiles(ts).tiles| ==> MergeTiles(ts).tiles[k].value != 0
  {
    if |ts| >= 2 {
      if ts[0].value == ts[1].value {
        MergeNonZero(ts[2..]);
      } else {
        MergeNonZero(ts[1..]);
      }
    }
  }

  lemma {:induction false} ValuesAppend(a: seq<Tile>, b: seq<Tile>)
    ensures Values(a + b) == Values(a) + Values(b)
  {
  }

  /** Merging neither creates nor destroys value: the tiles' total is kept. */
  lemma {:induction false} MergeKeepsSum(ts: seq<Tile>)
    ensures Sum(Values(MergeTiles(ts).tiles)) == Sum(Values(ts))
    decreases |ts|
  {
    if |ts| >= 2 {
      var vs := Values(ts);
      assert vs[1..] == Values(ts[1..]);
      assert vs[2..] == Values(ts[2..]);
      if ts[0].value == ts[1].value {
        var rest := MergeTiles(ts[2..]);
        MergeKeepsSum(ts[2..]);
        assert Values([Tile(ts[0].at, ts[0].value + ts[1].value)] + rest.tiles)[1..] == Values(rest.tiles);
      } else {
        var rest := MergeTiles(ts[1..]);
        MergeKeepsSum(ts[1..]);
        assert Values([ts[0]] + rest.tiles)[1..] == Values(rest.tiles);
      }
    }
  }

  // ------------------------------------------------- one line, moved

  /** A line after add() and the packing loop. */
  function SlideLine(line: seq<int>): (r: seq<int>)
    requires |line| == 4
    ensures |r| == 4
  {
    Pack(Values(MergeTiles(TilesIn(line, 0, 4)).tiles))
  }

  /** What moving one line adds to the score, how many times it increments
      ifappear (merges in add(), then tiles the packing loop moved), and
      whether it forms 2048. */
  datatype Tally = Tally(gain: int, count: nat, reached: bool)

  function LineTally(line: seq<int>): Tally
    requires |line| == 4
  {
    var m := MergeTiles(TilesIn(line, 0, 4));
    Tally(m.gain, m.merges + Shifted(m.tiles), m.reached2048)
  }

  /** The moved line and the line's tally, read off the merge of its tiles. */
  lemma LineMerge(line: seq<int>, m: Merged, t: Tally)
    requires |line| == 4 && m == MergeTiles(TilesIn(line, 0, 4)) && t == LineTally(line)
    ensures SlideLine(line) == Pack(Values(m.tiles))
    ensures t == Tally(m.gain, m.merges + Shifted(m.tiles), m.reached2048)
  {
  }

  /** A line's count is zero exactly when the move leaves the line as it was. */
  lemma LineUnchangedIff(line: seq<int>)
    requires |line| == 4
    ensures LineTally(line).count == 0 <==> SlideLine(line) == line
  {
    var ts := TilesIn(line, 0, 4);
    var m := MergeTiles(ts);
    TilesRange(line, 0, 4);
    MergeNonZero(ts);
    TilesOfPack(Values(m.tiles));
    assert TilesIn(SlideLine(line), 0, 4) == Enumerate(Values(m.tiles));
    if LineTally(line).count == 0 {
      NoMergeIdentity(ts);
      ShiftedZero(ts);
      assert Enumerate(Values(ts)) == ts;
      TilesDetermine(SlideLine(line), line, 4);
    }
    if SlideLine(line) == line {
      assert |m.tiles| == |ts|;
      NoMergeIdentity(ts);
      ShiftedZero(ts);
    }
  }

  // ------------------------------------------------------- the board

  /** num[4][4], row by row. */
  type Board = seq<seq<int>>

  predicate IsBoard(g: Board) {
    |g| == 4 && forall r :: 0 <= r < 4 ==> |g[r]| == 4
  }

  /** The arrow keys: w/W/72, s/S/80, a/A/75, d/D/77. */
  datatype Dir = Up | Down | Left | Right

  /** Cell k of line j when moving in direction d: line j is column j for Up
      and Down, row j for Left and Right, and position 0 is the edge the
      tiles move to. */
  function Row(d: Dir, j: nat, k: nat): (r: nat)
    requires j < 4 && k < 4
    ensures r < 4
  {
    match d
    case Up => k
    case Down => 3 - k
    case Left | Right => j
  }

  function Col(d: Dir, j: nat, k: nat): (c: nat)
    requires j < 4 && k < 4
    ensures c < 4
  {
    match d
    case Up | Down => j
    case Left => k
    case Right => 3 - k
  }

  /** The line of direction d through cell (r, c) ... */
  function LineOf(d: Dir, r: nat, c: nat): (j: nat)
    requires r < 4 && c < 4
    ensures j < 4 && Row(d, j, PosOf(d, r, c)) == r && Col(d, j, PosOf(d, r, c)) == c
  {
    match d
    case Up | Down => c
    case Left | Right => r
  }

  /** ... and the cell's position in it. */
  function PosOf(d: Dir, r: nat, c: nat): (k: nat)
    requires r < 4 && c < 4
    ensures k < 4
  {
    match d
    case Up => r
    case Down => 3 - r
    case Left => c
    case Right => 3 - c
  }

  lemma CellInverse(d: Dir, j: nat, k: nat)
    requires j < 4 && k < 4
    ensures LineOf(d, Row(d, j, k), Col(d, j, k)) == j && PosOf(d, Row(d, j, k), Col(d, j, k)) == k
  {
  }

  /** Line j of direction d, from the edge the tiles move to: the buffer b[]
      the move fills before calling add(). */
  function Line(g: Board, d: Dir, j: nat): (line: seq<int>)
    requires IsBoard(g) && j < 4
    ensures |line| == 4
  {
    seq(4, k requires 0 <= k < 4 => g[Row(d, j, k)][Col(d, j, k)])
  }

  /** The board with line j of direction d replaced. */
  function WithLine(g: Board, d: Dir, j: nat, line: seq<int>): (h: Board)
    requires IsBoard(g) && j < 4 && |line| == 4
    ensures IsBoard(h)
  {
    seq(4, r requires 0 <= r < 4 =>
      seq(4, c requires 0 <= c < 4 => if LineOf(d, r, c) == j then line[PosOf(d, r, c)] else g[r][c]))
  }

  lemma LineOfWithLine(g: Board, d: Dir, j: nat, line: seq<int>, i: nat)
    requires IsBoard(g) && j < 4 && |line| == 4 && i < 4
    ensures Line(WithLine(g, d, j, line), d, i) == if i == j then line else Line(g, d, i)
  {
    forall k | 0 <= k < 4 {
      CellInverse(d, i, k);
    }
  }

  /** Two boards that agree on every line of one direction are equal. */
  lemma BoardByLines(g: Board, h: Board, d: Dir)
    requires IsBoard(g) && IsBoard(h)
    requires forall j :: 0 <= j < 4 ==> Line(g, d, j) == Line(h, d, j)
    ensures g == h
  {
    forall r | 0 <= r < 4 ensures g[r] == h[r] {
      forall c | 0 <= c < 4 ensures g[r][c] == h[r][c] {
        var j, k := LineOf(d, r, c), PosOf(d, r, c);
        assert Line(g, d, j)[k] == Line(h, d, j)[k];
      }
    }
  }

  /** The board after the first n lines of direction d have been moved. */
  function SlideUpTo(g: Board, d: Dir, n: nat): (h: Board)
    requires IsBoard(g) && n <= 4
    ensures IsBoard(h)
  {
    if n == 0 then g else WithLine(SlideUpTo(g, d, n - 1), d, n - 1, SlideLine(Line(g, d, n - 1)))
  }

  /** The board after a move in direction d. */
  function Slide(g: Board, d: Dir): (h: Board)
    requires IsBoard(g)
    ensures IsBoard(h)
  {
    SlideUpTo(g, d, 4)
  }

  lemma {:induction false} LinesAfter(g: Board, d: Dir, n: nat, j: nat)
    requires IsBoard(g) && n <= 4 && j < 4
    ensures Line(SlideUpTo(g, d, n), d, j) == if j < n then SlideLine(Line(g, d, j)) else Line(g, d, j)
  {
    if n > 0 {
      LinesAfter(g, d, n - 1, j);
      LineOfWithLine(SlideUpTo(g, d, n - 1), d, n - 1, SlideLine(Line(g, d, n - 1)), j);
    }
  }

  /** The tallies of the four lines of a move in direction d. */
  function Tallies(g: Board, d: Dir): (ts: seq<Tally>)
    requires IsBoard(g)
    ensures |ts| == 4 && forall j :: 0 <= j < 4 ==> ts[j] == LineTally(Line(g, d, j))
  {
    seq(4, j requires 0 <= j < 4 => LineTally(Line(g, d, j)))
  }

  /** Tallies added up: points and counts summed, 2048 reached by any. */
  function Total(ts: seq<Tally>): Tally {
    if |ts| == 0 then Tally(0, 0, false)
    else
      var t := Total(ts[..|ts| - 1]);
      var l := ts[|ts| - 1];
      Tally(t.gain + l.gain, t.count + l.count, t.reached || l.reached)
  }

  function MoveTally(g: Board, d: Dir): Tally
    requires IsBoard(g)
  {
    Total(Tallies(g, d))
  }

  lemma TotalStep(ts: seq<Tally>, j: nat)
    requires j < |ts|
    ensures var t, u := Total(ts[..j]), Total(ts[..j + 1]);
            u == Tally(t.gain + ts[j].gain, t.count + ts[j].count, t.reached || ts[j].reached)
  {
    assert ts[..j + 1][..j] == ts[..j];
  }

  /** The total of four tallies, written out. */
  lemma TotalOfFour(ts: seq<Tally>)
    requires |ts| == 4
    ensures Total(ts).count == ts[0].count + ts[1].count + ts[2].count + ts[3].count
  {
    assert ts[..4] == ts;
    TotalStep(ts, 0);
    TotalStep(ts, 1);
    TotalStep(ts, 2);
    TotalStep(ts, 3);
  }

  lemma {:induction false} CountZeroIff(ts: seq<Tally>)
    ensures Total(ts).count == 0 <==> forall j :: 0 <= j < |ts| ==> ts[j].count == 0
  {
    if |ts| > 0 {
      var init := ts[..|ts| - 1];
      CountZeroIff(init);
      assert forall j :: 0 <= j < |init| ==> ts[j] == init[j];
    }
  }

  /** ifappear ends a move at zero exactly when the move left the board as
      it was: a new tile appears, and move_2048 counts a move, only after a
      move that changed something. */
  lemma MoveCountedIffChanged(g: Board, d: Dir)
    requires IsBoard(g)
    ensures MoveTally(g, d).count == 0 <==> Slide(g, d) == g
  {
    CountZeroIff(Tallies(g, d));
    forall j | 0 <= j < 4
      ensures Line(Slide(g, d), d, j) == SlideLine(Line(g, d, j))
      ensures LineTally(Line(g, d, j)).count == 0 <==> SlideLine(Line(g, d, j)) == Line(g, d, j)
    {
      LinesAfter(g, d, 4, j);
      LineUnchangedIff(Line(g, d, j));
    }
    if MoveTally(g, d).count == 0 {
      BoardByLines(Slide(g, d), g, d);
    }
  }

  /** Game over: no empty cell and no two equal neighbours in a row or a column. */
  predicate Stuck(g: Board)
    requires IsBoard(g)
  {
    forall r, c :: 0 <= r < 4 && 0 <= c < 4 ==>
      g[r][c] != 0 && (r < 3 ==> g[r][c] != g[r + 1][c]) && (c < 3 ==> g[r][c] != g[r][c + 1])
  }

  /** On a stuck board no move changes anything, scores anything or counts. */
  lemma StuckBoardIsFinal(g: Board, d: Dir)
    requires IsBoard(g) && Stuck(g)
    ensures Slide(g, d) == g && MoveTally(g, d) == Tally(0, 0, false)
  {
    forall j | 0 <= j < 4 ensures LineTally(Line(g, d, j)) == Tally(0, 0, false) {
      StuckLine(g, d, j);
      StableLine(Line(g, d, j));
    }
    TallyZero(Tallies(g, d));
    MoveCountedIffChanged(g, d);
  }

  /** Every line of a stuck board is full and has no two equal neighbours. */
  lemma StuckLine(g: Board, d: Dir, j: nat)
    requires IsBoard(g) && Stuck(g) && j < 4
    ensures forall k :: 0 <= k < 4 ==> Line(g, d, j)[k] != 0
    ensures forall k :: 0 <= k < 3 ==> Line(g, d, j)[k] != Line(g, d, j)[k + 1]
  {
    forall k | 0 <= k < 3 ensures Line(g, d, j)[k] != Line(g, d, j)[k + 1] {
      CellInverse(d, j, k);
      CellInverse(d, j, k + 1);
    }
    forall k | 0 <= k < 4 ensures Line(g, d, j)[k] != 0 {
      CellInverse(d, j, k);
    }
  }

  /** A full line without two equal neighbours neither merges nor moves. */
  lemma StableLine(line: seq<int>)
    requires |line| == 4 && forall k :: 0 <= k < 4 ==> line[k] != 0
    requires forall k :: 0 <= k < 3 ==> line[k] != line[k + 1]
    ensures LineTally(line) == Tally(0, 0, false)
  {
    TilesOfFull(line, 4);
    var ts := TilesIn(line, 0, 4);
    MergeStable(ts);
    ShiftedZero(ts);
  }

  lemma {:induction false} TallyZero(ts: seq<Tally>)
    requires forall j :: 0 <= j < |ts| ==> ts[j] == Tally(0, 0, false)
    ensures Total(ts) == Tally(0, 0, false)
  {
    if |ts| > 0 {
      TallyZero(ts[..|ts| - 1]);
    }
  }

  /** The cell test of the game-over loop at (r, c): it compares the cell
      with the one below and the one to the right where they exist, and on
      the last row also looks for an empty right-hand neighbour. */
  predicate CellBlocked(g: Board, r: nat, c: nat): (b: bool)
    requires IsBoard(g) && r < 4 && c < 4
    ensures b && (r < 3 || c < 3) ==> g[r][c] != 0
    ensures b && r < 3 ==> g[r][c] != g[r + 1][c]
    ensures b && c < 3 ==> g[r][c] != g[r][c + 1]
  {
    if r < 3 && c < 3 then g[r][c] != g[r + 1][c] && g[r][c] != g[r][c + 1] && g[r][c] != 0
    else if r < 3 then g[r][c] != g[r + 1][c] && g[r][c] != 0
    else if c < 3 then g[r][c] != g[r][c + 1] && g[r][c] != 0 && g[r][c + 1] != 0
    else true
  }

  /** The loop's cell tests together decide exactly Stuck: the one cell it
      never tests, num[3][3], is covered by the test of its left neighbour. */
  lemma StuckIffBlocked(g: Board)
    requires IsBoard(g)
    ensures Stuck(g) <==> forall r, c :: 0 <= r < 4 && 0 <= c < 4 ==> CellBlocked(g, r, c)
  {
    if forall r, c :: 0 <= r < 4 && 0 <= c < 4 ==> CellBlocked(g, r, c) {
      forall r, c | 0 <= r < 4 && 0 <= c < 4
        ensures g[r][c] != 0 && (r < 3 ==> g[r][c] != g[r + 1][c]) && (c < 3 ==> g[r][c] != g[r][c + 1])
      {
        assert CellBlocked(g, r, c);
        assert CellBlocked(g, 3, 2);
      }
    }
  }

  // ------------------------------------------- the 's'/'d' move count

  /** The packing loop of the 's' and 'd' keys as written: it counts a tile
      as moved when its index in the buffer differs from the board index it
      is written to, which for these keys runs down from 3, instead of
      from its new position in the line. */
  function ShiftedAsWritten(ts: seq<Tile>): (r: nat)
    ensures r <= |ts|
  {
    if |ts| == 0 then 0
    else ShiftedAsWritten(ts[..|ts| - 1]) + (if ts[|ts| - 1].at != 3 - (|ts| - 1) then 1 else 0)
  }

  function LineCountAsWritten(line: seq<int>, d: Dir): (r: nat)
    requires |line| == 4
    ensures d == Up || d == Left ==> r == LineTally(line).count
  {
    var m := MergeTiles(TilesIn(line, 0, 4));
    m.merges + if d == Down || d == Right then ShiftedAsWritten(m.tiles) else Shifted(m.tiles)
  }

  /** ifappear after a move of the source as written. */
  function MoveCountAsWritten(g: Board, d: Dir): (r: nat)
    requires IsBoard(g)
    ensures d == Up || d == Left ==> r == MoveTally(g, d).count
  {
    CountAsWrittenAgrees(g, d);
    LineCountAsWritten(Line(g, d, 0), d) + LineCountAsWritten(Line(g, d, 1), d)
      + LineCountAsWritten(Line(g, d, 2), d) + LineCountAsWritten(Line(g, d, 3), d)
  }

  /** For 'w' and 'a' the count as written is the four lines' tallies added up. */
  lemma CountAsWrittenAgrees(g: Board, d: Dir)
    requires IsBoard(g)
    ensures d == Up || d == Left ==>
              LineCountAsWritten(Line(g, d, 0), d) + LineCountAsWritten(Line(g, d, 1), d)
              + LineCountAsWritten(Line(g, d, 2), d) + LineCountAsWritten(Line(g, d, 3), d)
              == MoveTally(g, d).count
  {
    TotalOfFour(Tallies(g, d));
  }

  /** A lone tile at the edge the tiles move to: it stays, and the count
      as written still counts it. */
  lemma LoneTileLine()
    ensures LineTally([2, 0, 0, 0]).count == 0 && LineCountAsWritten([2, 0, 0, 0], Down) == 1
  {
    var ts := [Tile(0, 2)];
    TilesOne([2, 0, 0, 0], 0);
    TilesEmpty([2, 0, 0, 0], 1, 4);
    TilesSplit([2, 0, 0, 0], 0, 1, 4);
    assert TilesIn([2, 0, 0, 0], 0, 4) == ts;
    assert MergeTiles(ts) == Merged(ts, 0, 0, false);
    assert ts[..0] == [];
    assert ShiftedAsWritten(ts) == 1 && Shifted(ts) == 0;
  }

  /** The other direction: a lone tile at the far end of the line slides
      all the way, yet the count as written misses it, because it lands on
      the board index equal to its buffer index. */
  lemma FarTileLine()
    ensures LineTally([0, 0, 0, 2]).count == 1 && LineCountAsWritten([0, 0, 0, 2], Down) == 0
  {
    var ts := [Tile(3, 2)];
    TilesEmpty([0, 0, 0, 2], 0, 3);
    TilesOne([0, 0, 0, 2], 3);
    TilesSplit([0, 0, 0, 2], 0, 3, 4);
    assert TilesIn([0, 0, 0, 2], 0, 4) == ts;
    assert MergeTiles(ts) == Merged(ts, 0, 0, false);
    assert ts[..0] == [];
    assert ShiftedAsWritten(ts) == 0 && Shifted(ts) == 1;
  }

  lemma EmptyLine()
    ensures LineTally([0, 0, 0, 0]).count == 0 && LineCountAsWritten([0, 0, 0, 0], Down) == 0
  {
    TilesEmpty([0, 0, 0, 0], 0, 4);
    assert MergeTiles([]) == Merged([], 0, 0, false);
  }

  /** A lone tile on the bottom row, key 's': nothing moves, yet the move
      as written counts it, so move_2048 goes up and a new tile appears. */
  lemma StandingTileCounted(g: Board)
    requires g == [[0, 0, 0, 0], [0, 0, 0, 0], [0, 0, 0, 0], [2, 0, 0, 0]]
    ensures IsBoard(g) && Slide(g, Down) == g
    ensures MoveCountAsWritten(g, Down) == 1 && MoveTally(g, Down).count == 0
  {
    StandingTileLines(g);
    LoneTileLine();
    EmptyLine();
    UncountedMoveStands(g, Down);
    MoveCountedIffChanged(g, Down);
  }

  lemma StandingTileLines(g: Board)
    requires g == [[0, 0, 0, 0], [0, 0, 0, 0], [0, 0, 0, 0], [2, 0, 0, 0]]
    ensures IsBoard(g)
    ensures Line(g, Down, 0) == [2, 0, 0, 0] && Line(g, Down, 1) == [0, 0, 0, 0]
    ensures Line(g, Down, 2) == [0, 0, 0, 0] && Line(g, Down, 3) == [0, 0, 0, 0]
  {
  }

  /** A move none of whose lines counts anything counts nothing. */
  lemma UncountedMoveStands(g: Board, d: Dir)
    requires IsBoard(g)
    requires LineTally(Line(g, d, 0)).count == 0 && LineTally(Line(g, d, 1)).count == 0
    requires LineTally(Line(g, d, 2)).count == 0 && LineTally(Line(g, d, 3)).count == 0
    ensures MoveTally(g, d).count == 0
  {
    TotalOfFour(Tallies(g, d));
  }

  /** One turn of the packing loop over the buffer s: position g adds a
      tile exactly when s[g] is non-zero, and that tile is written at the
      next free position of the line, counted when it comes from elsewhere. */
  lemma CompactStep(s: seq<int>, g: nat)
    requires |s| == 4 && g < 4
    ensures var ts := TilesIn(s, 0, g);
            if s[g] == 0 then TilesIn(s, 0, g + 1) == ts
            else
              && |ts| < 4
              && TilesIn(s, 0, g + 1) == ts + [Tile(g, s[g])]
              && Shifted(TilesIn(s, 0, g + 1)) == Shifted(ts) + (if g != |ts| then 1 else 0)
              && Pack(Values(TilesIn(s, 0, g + 1))) == Pack(Values(ts))[|ts| := s[g]]
  {
    var ts := TilesIn(s, 0, g);
    if s[g] != 0 {
      var ts' := ts + [Tile(g, s[g])];
      assert TilesIn(s, 0, g + 1) == ts';
      assert ts'[..|ts|] == ts;
      PackPush(ts, Tile(g, s[g]));
    }
  }

  /** Packing one more tile fills the next empty position. */
  lemma PackPush(ts: seq<Tile>, t: Tile)
    requires |ts| < 4
    ensures Pack(Values(ts + [t])) == Pack(Values(ts))[|ts| := t.value]
  {
    var vs := Values(ts);
    assert Values(ts + [t]) == vs + [t.value];
    var p, q := Pack(vs + [t.value]), Pack(vs)[|ts| := t.value];
    forall k | 0 <= k < 4 ensures p[k] == q[k] {
      if k < |ts| {
        assert p[k] == p[..|vs| + 1][k];
        assert q[k] == Pack(vs)[..|vs|][k];
      } else if k == |ts| {
        assert p[k] == p[..|vs| + 1][k];
      }
    }
  }

  // ------------------------------------------------------- the game

  /** The game's globals: the board num[4][4], score, ifappear (non-zero
      when the last move changed something), gamew (2048 reached), gamef
      (no move left) and move_2048 (moves made). */
  class Game {
    const num: array2<int>
    var score: int
    var ifappear: int
    var gamew: int
    var gamef: int
    var moves: int

    ghost predicate Valid()
    {
      num.Length0 == 4 && num.Length1 == 4
    }

    function Board(): (g: Board)
      requires Valid()
      reads num
      ensures IsBoard(g) && forall r, c :: 0 <= r < 4 && 0 <= c < 4 ==> g[r][c] == num[r, c]
    {
      var a := num;
      seq(4, r requires 0 <= r < 4 reads a => seq(4, c requires 0 <= c < 4 reads a => a[r, c]))
    }

    /** num holds the board h, cell by cell. */
    ghost predicate Holds(h: Board)
      requires Valid()
      reads num
    {
      IsBoard(h) && forall r, c :: 0 <= r < 4 && 0 <= c < 4 ==> num[r, c] == h[r][c]
    }

    lemma HoldsBoard(h: Board)
      requires Valid()
      ensures Holds(h) <==> IsBoard(h) && Board() == h
    {
      if Holds(h) {
        forall r | 0 <= r < 4 ensures Board()[r] == h[r] {
        }
      }
    }

    /** The globals start out zero. */
    constructor ()
      ensures Valid() && fresh(num)
      ensures forall r, c :: 0 <= r < 4 && 0 <= c < 4 ==> num[r, c] == 0
      ensures score == 0 && ifappear == 0 && gamew == 0 && gamef == 0 && moves == 0
    {
      num := new int[4, 4]((_, _) => 0);
      score, ifappear, gamew, gamef, moves := 0, 0, 0, 0, 0;
    }

    /** add(): one pass over the four cells of p. Each tile is compared
        with the next tile after it; equal tiles merge into the first one
        (adding their sum to score and one to ifappear, and setting gamew
        when the sum is 2048) and the scan resumes at i + b; otherwise the
        scan resumes at the next tile. */
    method Add(p: array<int>)
      requires p.Length == 4
      modifies this`score, this`ifappear, this`gamew, p
      ensures var m := MergeTiles(TilesIn(old(p[..]), 0, 4));
              && TilesIn(p[..], 0, 4) == m.tiles
              && score == old(score) + m.gain
              && ifappear == old(ifappear) + m.merges
              && gamew == if m.reached2048 then 1 else old(gamew)
    {
      ghost var start := AddRun(p[..], score, ifappear, gamew);
      ghost var final := AddLoop(start, 0);
      var i := 0;
      while i < 3
        invariant 0 <= i <= 5
        invariant AddLoop(AddRun(p[..], score, ifappear, gamew), i) == final
        decreases 5 - i
      {
        ghost var r := AddRun(p[..], score, ifappear, gamew);
        assert AddLoop(r, i) == AddLoop(AddStep(r, i).run, AddStep(r, i).at);
        i := Turn(p, i, r);
      }
      ScanStart(start.cells);
      AddLoopMerges(start, 0, Merged([], 0, 0, false), MergeTiles(TilesIn(start.cells, 0, 4)),
                    start.score, start.ifappear, start.gamew);
    }

    /** One turn of add()'s loop at index i, from the state r. */
    method Turn(p: array<int>, i: nat, ghost r: AddRun) returns (next: nat)
      requires p.Length == 4 && i < 3 && r == AddRun(p[..], score, ifappear, gamew)
      modifies p, this`score, this`ifappear, this`gamew
      ensures AddRun(p[..], score, ifappear, gamew) == AddStep(r, i).run && next == AddStep(r, i).at
    {
      ghost var n := AddStep(r, i);
      if p[i] != 0 {
        var b := NextTile(p, i);
        if b < 4 {
          if p[i] == p[b] {
            ghost var v := p[i] + p[b];
            assert n == Scan(AddRun(r.cells[i := v][b := 0], r.score + v, r.ifappear + 1,
                                    if v == 2048 then 1 else r.gamew), i + b);
            MergeCells(p, i, b, p[..]);
            ghost var cells := p[..];
            score := score + p[i];
            if p[i] == 2048 {
              gamew := 1;
            }
            next := b + i;
            ifappear := ifappear + 1;
            assert p[..] == cells;
          } else {
            assert n == Scan(r, b);
            next := b;
          }
        } else {
          assert n == Scan(r, i + 1);
          next := i + 1;
        }
      } else {
        assert n == Scan(r, i + 1);
        next := i + 1;
      }
    }

    /** The merge in add(): cell i takes the sum and cell b is emptied. */
    static method MergeCells(p: array<int>, i: nat, b: nat, ghost s: seq<int>)
      requires i < b < p.Length && p[..] == s
      modifies p
      ensures p[..] == s[i := s[i] + s[b]][b := 0]
    {
      p[i] := p[i] + p[b];
      p[b] := 0;
    }

    /** The inner loop of add(): the first tile after position i, or 4 when
        there is none. */
    static method NextTile(p: array<int>, i: nat) returns (b: nat)
      requires p.Length == 4 && i < 4
      ensures b == NextFrom(p[..], i + 1)
    {
      b := i + 1;
      while b < 4
        invariant i < b <= 4
        invariant NextFrom(p[..], b) == NextFrom(p[..], i + 1)
      {
        if p[b] != 0 {
          break;
        }
        b := b + 1;
      }
    }

    /** The first loop of a move: line j of direction d is copied into b,
        from the edge the tiles move to, and its cells are emptied. */
    method Extract(d: Dir, j: nat, b: array<int>, ghost start: Board)
      requires Valid() && j < 4 && b.Length == 4 && Holds(start)
      modifies num, b
      ensures b[..] == Line(start, d, j)
      ensures Holds(WithLine(start, d, j, [0, 0, 0, 0]))
    {
      ghost var line := Line(start, d, j);
      for i := 0 to 4
        invariant forall k :: 0 <= k < i ==> b[k] == line[k]
        invariant forall r, c :: 0 <= r < 4 && 0 <= c < 4 ==>
                    num[r, c] == if LineOf(d, r, c) == j && PosOf(d, r, c) < i then 0 else start[r][c]
      {
        Take(d, j, i, b, line, start);
      }
      assert b[..] == line;
    }

    /** One step of the first loop: cell i of the line goes to b[i] and is emptied. */
    method Take(d: Dir, j: nat, i: nat, b: array<int>, ghost line: seq<int>, ghost start: Board)
      requires Valid() && j < 4 && i < 4 && b.Length == 4 && IsBoard(start) && line == Line(start, d, j)
      requires forall k :: 0 <= k < i ==> b[k] == line[k]
      requires forall r, c :: 0 <= r < 4 && 0 <= c < 4 ==>
                 num[r, c] == if LineOf(d, r, c) == j && PosOf(d, r, c) < i then 0 else start[r][c]
      modifies num, b
      ensures forall k :: 0 <= k < i + 1 ==> b[k] == line[k]
      ensures forall r, c :: 0 <= r < 4 && 0 <= c < 4 ==>
                num[r, c] == if LineOf(d, r, c) == j && PosOf(d, r, c) < i + 1 then 0 else start[r][c]
    {
      CellInverse(d, j, i);
      b[i] := num[Row(d, j, i), Col(d, j, i)];
      num[Row(d, j, i), Col(d, j, i)] := 0;
    }

    /** The second loop of a move: the tiles of b are written back into the
        emptied line j from its edge on, one more to ifappear for each tile
        whose new position differs from its position in b. */
    method Compact(d: Dir, j: nat, b: array<int>, ghost h: Board, ghost s: seq<int>, ghost line: seq<int>)
      requires Valid() && j < 4 && b.Length == 4 && IsBoard(h) && b[..] == s && |line| == 4
      requires Holds(WithLine(h, d, j, [0, 0, 0, 0]))
      requires Pack(Values(TilesIn(s, 0, 4))) == line
      modifies num, this`ifappear
      ensures Holds(WithLine(h, d, j, line))
      ensures ifappear == old(ifappear) + Shifted(TilesIn(s, 0, 4))
      ensures score == old(score) && gamew == old(gamew) && moves == old(moves) && gamef == old(gamef)
    {
      WriteBack(d, j, b, h, s);
    }

    /** The packing loop itself, cell by cell: line j of direction d, empty
        on entry, ends holding the packed tiles of b. */
    method WriteBack(d: Dir, j: nat, b: array<int>, ghost start: Board, ghost s: seq<int>)
      requires Valid() && j < 4 && b.Length == 4 && IsBoard(start) && b[..] == s
      requires forall r, c :: 0 <= r < 4 && 0 <= c < 4 ==>
                 num[r, c] == if LineOf(d, r, c) == j then 0 else start[r][c]
      modifies num, this`ifappear
      ensures forall r, c :: 0 <= r < 4 && 0 <= c < 4 ==>
                num[r, c] == if LineOf(d, r, c) == j then Pack(Values(TilesIn(s, 0, 4)))[PosOf(d, r, c)]
                             else start[r][c]
      ensures ifappear == old(ifappear) + Shifted(TilesIn(s, 0, 4))
    {
      var e := 0;
      ghost var line := Pack([]);
      for g := 0 to 4
        invariant b[..] == s
        invariant e == |TilesIn(s, 0, g)| <= g
        invariant ifappear == old(ifappear) + Shifted(TilesIn(s, 0, g))
        invariant line == Pack(Values(TilesIn(s, 0, g)))
        invariant forall r, c :: 0 <= r < 4 && 0 <= c < 4 ==>
                    num[r, c] == if LineOf(d, r, c) == j then line[PosOf(d, r, c)] else start[r][c]
      {
        CompactStep(s, g);
        if b[g] != 0 {
          Place(d, j, e, b[g], line, start);
          line := line[e := b[g]];
          if g != e {
            ifappear := ifappear + 1;
          }
          e := e + 1;
        }
      }
    }

    /** The packing loop's write num[..][..] = b[g]: position e of line j
        of direction d takes the value v. */
    method Place(d: Dir, j: nat, e: nat, v: int, ghost line: seq<int>, ghost start: Board)
      requires Valid() && j < 4 && e < 4 && |line| == 4 && IsBoard(start)
      requires forall r, c :: 0 <= r < 4 && 0 <= c < 4 ==>
                 num[r, c] == if LineOf(d, r, c) == j then line[PosOf(d, r, c)] else start[r][c]
      modifies num
      ensures forall r, c :: 0 <= r < 4 && 0 <= c < 4 ==>
                num[r, c] == if LineOf(d, r, c) == j then line[e := v][PosOf(d, r, c)] else start[r][c]
    {
      CellInverse(d, j, e);
      num[Row(d, j, e), Col(d, j, e)] := v;
    }

    /** A move in direction d: ifappear is cleared, each of the four lines
        goes through Extract, add() and Compact, and move_2048 counts the
        move when ifappear ended non-zero. */
    method Move(d: Dir)
      requires Valid()
      modifies this, num
      ensures Valid()
      ensures Board() == Slide(old(Board()), d)
      ensures var t := MoveTally(old(Board()), d);
              && score == old(score) + t.gain
              && ifappear == t.count
              && gamew == (if t.reached then 1 else old(gamew))
              && moves == old(moves) + (if t.count != 0 then 1 else 0)
              && gamef == old(gamef)
    {
      ghost var start := Board();
      ifappear := 0;
      assert Board() == start;
      SlideLines(d);
      ghost var final := Board();
      if ifappear != 0 {
        moves := moves + 1;
      }
      assert Board() == final;
    }

    /** The loop over the four lines of a move. */
    method SlideLines(d: Dir)
      requires Valid()
      modifies num, this`score, this`ifappear, this`gamew
      ensures Board() == Slide(old(Board()), d)
      ensures var t := MoveTally(old(Board()), d);
              && score == old(score) + t.gain
              && ifappear == old(ifappear) + t.count
              && gamew == (if t.reached then 1 else old(gamew))
    {
      ghost var start := Board();
      HoldsBoard(start);
      ghost var ts := Tallies(start, d);
      ghost var score0, ifappear0, gamew0 := score, ifappear, gamew;
      var b := new int[4];
      for j := 0 to 4
        invariant Holds(SlideUpTo(start, d, j))
        invariant var t := Total(ts[..j]);
                  && score == score0 + t.gain && ifappear == ifappear0 + t.count
                  && gamew == (if t.reached then 1 else gamew0)
      {
        LinesAfter(start, d, j, j);
        MoveLine(d, j, b, SlideUpTo(start, d, j), Line(start, d, j), ts[j]);
        TotalStep(ts, j);
      }
      assert ts[..4] == ts;
      HoldsBoard(Slide(start, d));
    }

    /** One line of a move: Extract, add() and Compact take line j of
        direction d to its moved form, adding the line's tally to score,
        ifappear and gamew. */
    method MoveLine(d: Dir, j: nat, b: array<int>, ghost h: Board, ghost line: seq<int>, ghost t: Tally)
      requires Valid() && j < 4 && b.Length == 4 && Holds(h)
      requires line == Line(h, d, j) && t == LineTally(line)
      modifies num, b, this`score, this`ifappear, this`gamew
      ensures Holds(WithLine(h, d, j, SlideLine(line)))
      ensures score == old(score) + t.gain && ifappear == old(ifappear) + t.count
      ensures gamew == if t.reached then 1 else old(gamew)
    {
      Extract(d, j, b, h);
      ghost var s := AddLine(b, line, t, WithLine(h, d, j, [0, 0, 0, 0]));
      Compact(d, j, b, h, s, SlideLine(line));
    }

    /** add(b) on the extracted line: b ends up holding the merged tiles. */
    method AddLine(b: array<int>, ghost line: seq<int>, ghost t: Tally, ghost h: Board) returns (ghost s: seq<int>)
      requires b.Length == 4 && b[..] == line && t == LineTally(line)
      requires Valid() && Holds(h)
      modifies b, this`score, this`ifappear, this`gamew
      ensures Holds(h)
      ensures b[..] == s && Pack(Values(TilesIn(s, 0, 4))) == SlideLine(line)
      ensures score == old(score) + t.gain
      ensures ifappear + Shifted(TilesIn(s, 0, 4)) == old(ifappear) + t.count
      ensures gamew == if t.reached then 1 else old(gamew)
    {
      LineMerge(line, MergeTiles(TilesIn(line, 0, 4)), t);
      Add(b);
      s := b[..];
    }

    /** The game-over loop: gamef ends 1 exactly when the board is stuck. */
    method CheckStuck()
      requires Valid()
      modifies this`gamef
      ensures gamef == if Stuck(Board()) then 1 else 0
    {
      ghost var g := Board();
      var j := 0;
      while j < 4
        invariant 0 <= j <= 4
        invariant j > 0 ==> gamef == 1
        invariant forall r, c :: 0 <= r < j && 0 <= c < 4 ==> CellBlocked(g, r, c)
      {
        var i := 0;
        while i < 4
          invariant 0 <= i <= 4
          invariant (j > 0 || i > 0) ==> gamef == 1
          invariant forall c :: 0 <= c < i ==> CellBlocked(g, j, c)
        {
          if j < 3 {
            if i < 3 {
              if num[j, i] == num[j + 1, i] || num[j, i] == num[j, i + 1] || num[j, i] == 0 {
                gamef := 0;
                break;
              } else {
                gamef := 1;
              }
            } else {
              if num[j, i] == num[j + 1, i] || num[j, i] == 0 {
                gamef := 0;
                break;
              } else {
                gamef := 1;
              }
            }
          } else {
            if i < 3 {
              if num[j, i] == num[j, i + 1] || num[j, i] == 0 || num[j, i + 1] == 0 {
                gamef := 0;
                break;
              } else {
                gamef := 1;
              }
            }
          }
          i := i + 1;
        }
        if gamef == 0 {
          assert !CellBlocked(g, j, i);
          break;
        }
        j := j + 1;
      }
      StuckIffBlocked(g);
    }
  }
}
