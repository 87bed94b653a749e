/**
 * The 15×15 letter grid both word-search engines build: cells, directions,
 * the path a word covers, the per-letter collision test, writing a word, and
 * the random fill of the cells left empty.
 *
 * A cell holds `None` for the empty string `''` the grids start with, or
 * `Some(c)` for a one-character string.
 */
module Grids {
  import opened Common

  const Size: int := 15

  const Alphabet: string := "ABCDEFGHIJKLMNOPQRSTUVWXYZ"

  type Cell = Option<char>

  type Grid = seq<seq<Cell>>

  /** One `Math.random` draw for the fill, already scaled to an alphabet index. */
  type LetterDraw = i: int | 0 <= i < |Alphabet|

  datatype Pos = Pos(row: int, col: int)

  /** A `[dRow, dCol]` pair as written in the direction tables. */
  datatype Delta = Delta(dr: int, dc: int)

  predicate IsUnit(d: Delta) {
    -1 <= d.dr <= 1 && -1 <= d.dc <= 1 && (d.dr != 0 || d.dc != 0)
  }

  /** A unit step in one of the eight compass directions. */
  type Direction = d: Delta | IsUnit(d) witness Delta(0, 1)

  predicate InGrid(p: Pos) {
    0 <= p.row < Size && 0 <= p.col < Size
  }

  predicate IsGrid(g: Grid) {
    |g| == Size && forall r :: 0 <= r < Size ==> |g[r]| == Size
  }

  function At(g: Grid, p: Pos): Cell
    requires IsGrid(g) && InGrid(p)
  {
    g[p.row][p.col]
  }

  predicate IsCapital(c: char) {
    'A' <= c <= 'Z'
  }

  /** No cell is still the empty string. */
  ghost predicate Complete(g: Grid)
    requires IsGrid(g)
  {
    forall p :: InGrid(p) ==> At(g, p).Some?
  }

  /** `g2` keeps every letter `g1` holds (it may fill empty cells). */
  ghost predicate Extends(g1: Grid, g2: Grid)
    requires IsGrid(g1) && IsGrid(g2)
  {
    forall p :: InGrid(p) && At(g1, p).Some? ==> At(g2, p) == At(g1, p)
  }

  lemma {:induction false} ExtendsTransitive(g1: Grid, g2: Grid, g3: Grid)
    requires IsGrid(g1) && IsGrid(g2) && IsGrid(g3)
    requires Extends(g1, g2) && Extends(g2, g3)
    ensures Extends(g1, g3)
  {
  }

  /** The assignment `grid[p.row][p.col] = v`. */
  function Put(g: Grid, p: Pos, v: Cell): (r: Grid)
    requires IsGrid(g) && InGrid(p)
    ensures IsGrid(r)
    ensures At(r, p) == v
    ensures forall q :: InGrid(q) && q != p ==> At(r, q) == At(g, q)
  {
    g[p.row := g[p.row][p.col := v]]
  }

  /** `createGrid`: 15 rows of 15 empty cells. */
  function EmptyGrid(): (g: Grid)
    ensures IsGrid(g)
    ensures forall p :: InGrid(p) ==> At(g, p) == None
  {
    seq(Size, _ => seq(Size, _ => None))
  }

  /** The cell the i-th letter of a word starting at `start` occupies. */
  function Step(start: Pos, d: Direction, i: int): Pos {
    Pos(start.row + i * d.dr, start.col + i * d.dc)
  }

  /** A word never covers the same cell twice: its steps are pairwise apart. */
  lemma {:induction false} StepInjective(start: Pos, d: Direction, i: int, j: int)
    requires Step(start, d, i) == Step(start, d, j)
    ensures i == j
  {
    if d.dr == 1 {
    } else if d.dr == -1 {
    } else if d.dc == 1 {
    } else {
      assert d.dc == -1;
    }
  }

  /** `getWordPositions`: the cells a word of length n covers, in letter order. */
  function Positions(start: Pos, d: Direction, n: nat): (r: seq<Pos>)
    ensures |r| == n
    ensures forall i :: 0 <= i < n ==> r[i] == Step(start, d, i)
  {
    seq(n, i => Step(start, d, i))
  }

  lemma {:induction false} PositionsDistinct(start: Pos, d: Direction, n: nat)
    ensures Distinct(Positions(start, d, n))
  {
    var ps := Positions(start, d, n);
    forall i, j | 0 <= i < j < n
      ensures ps[i] != ps[j]
    {
      if ps[i] == ps[j] {
        StepInjective(start, d, i, j);
      }
    }
  }

  /** Letter `ch` may go to cell p: p is inside the grid and empty or already `ch`. */
  predicate Fits(g: Grid, p: Pos, ch: char)
    requires IsGrid(g)
  {
    InGrid(p) && (At(g, p) == None || At(g, p) == Some(ch))
  }

  /**
   * The per-letter loop of `canPlaceWord` from letter i on: stops with false
   * at the first letter whose cell is outside the grid or holds a different
   * letter.
   */
  function PathFits(g: Grid, w: string, start: Pos, d: Direction, i: nat): (ok: bool)
    requires IsGrid(g)
    ensures ok <==> forall k :: i <= k < |w| ==> Fits(g, Step(start, d, k), w[k])
    decreases |w| - i
  {
    if i >= |w| then true
    else
      var p := Step(start, d, i);
      if !InGrid(p) then false
      else if At(g, p) != None && At(g, p) != Some(w[i]) then false
      else PathFits(g, w, start, d, i + 1)
  }

  /** Every letter of w can be read at its cell. */
  predicate Spells(g: Grid, w: string, start: Pos, d: Direction)
    requires IsGrid(g)
  {
    forall k :: 0 <= k < |w| ==> InGrid(Step(start, d, k)) && At(g, Step(start, d, k)) == Some(w[k])
  }

  /** A word readable in a grid stays readable in every grid that extends it. */
  lemma {:induction false} SpellsExtends(g1: Grid, g2: Grid, w: string, start: Pos, d: Direction)
    requires IsGrid(g1) && IsGrid(g2)
    requires Spells(g1, w, start, d) && Extends(g1, g2)
    ensures Spells(g2, w, start, d)
  {
    forall k | 0 <= k < |w|
      ensures InGrid(Step(start, d, k)) && At(g2, Step(start, d, k)) == Some(w[k])
    {
      var p := Step(start, d, k);
      assert InGrid(p) && At(g1, p).Some?;
    }
  }

  /** The write loop of `placeWord` from letter i on. */
  function WriteFrom(g: Grid, w: string, start: Pos, d: Direction, i: nat): (r: Grid)
    requires IsGrid(g)
    requires forall k :: i <= k < |w| ==> InGrid(Step(start, d, k))
    ensures IsGrid(r)
    ensures forall k :: i <= k < |w| ==> At(r, Step(start, d, k)) == Some(w[k])
    ensures forall p :: InGrid(p) && (forall k :: i <= k < |w| ==> Step(start, d, k) != p) ==> At(r, p) == At(g, p)
    decreases |w| - i
  {
    if i >= |w| then g
    else
      var p := Step(start, d, i);
      var r := WriteFrom(Put(g, p, Some(w[i])), w, start, d, i + 1);
      assert forall k :: i + 1 <= k < |w| ==> Step(start, d, k) != p by {
        forall k | i + 1 <= k < |w|
          ensures Step(start, d, k) != p
        {
          if Step(start, d, k) == p {
            StepInjective(start, d, k, i);
          }
        }
      }
      r
  }

  /**
   * `placeWord`: the cell of every position holds the word's letter at that
   * index; every cell off the word's path is unchanged.
   */
  function PlaceWord(g: Grid, w: string, start: Pos, d: Direction): (r: Grid)
    requires IsGrid(g)
    requires forall k :: 0 <= k < |w| ==> InGrid(Step(start, d, k))
    ensures IsGrid(r)
    ensures forall i :: 0 <= i < |w| ==> At(r, Positions(start, d, |w|)[i]) == Some(w[i])
    ensures forall p :: InGrid(p) && p !in Positions(start, d, |w|) ==> At(r, p) == At(g, p)
  {
    var ps := Positions(start, d, |w|);
    var r := WriteFrom(g, w, start, d, 0);
    assert forall p :: p !in ps ==> forall k :: 0 <= k < |w| ==> Step(start, d, k) != p by {
      forall p | p !in ps
        ensures forall k :: 0 <= k < |w| ==> Step(start, d, k) != p
      {
        forall k | 0 <= k < |w|
          ensures Step(start, d, k) != p
        {
          assert ps[k] == Step(start, d, k);
        }
      }
    }
    r
  }

  /** Every letter of w fits its cell along the path. */
  ghost predicate FitsAlong(g: Grid, w: string, start: Pos, d: Direction)
    requires IsGrid(g)
  {
    forall k :: 0 <= k < |w| ==> Fits(g, Step(start, d, k), w[k])
  }

  /** Writing a word whose letters all fit keeps every letter already in the grid. */
  lemma {:induction false} PlaceWordExtends(g: Grid, w: string, start: Pos, d: Direction)
    requires IsGrid(g) && FitsAlong(g, w, start, d)
    ensures Extends(g, PlaceWord(g, w, start, d))
  {
    var r := PlaceWord(g, w, start, d);
    var ps := Positions(start, d, |w|);
    forall p | InGrid(p) && At(g, p).Some?
      ensures At(r, p) == At(g, p)
    {
      if p in ps {
        var k :| 0 <= k < |w| && ps[k] == p;
        assert Fits(g, Step(start, d, k), w[k]);
      }
    }
  }

  /** A written word is readable along its path. */
  lemma {:induction false} PlaceWordSpells(g: Grid, w: string, start: Pos, d: Direction)
    requires IsGrid(g) && FitsAlong(g, w, start, d)
    ensures Spells(PlaceWord(g, w, start, d), w, start, d)
  {
    var r := PlaceWord(g, w, start, d);
    var ps := Positions(start, d, |w|);
    forall k | 0 <= k < |w|
      ensures InGrid(Step(start, d, k)) && At(r, Step(start, d, k)) == Some(w[k])
    {
      assert Fits(g, Step(start, d, k), w[k]);
      assert ps[k] == Step(start, d, k);
    }
  }

  /**
   * Placing a word where it fits keeps every letter already in the grid, and
   * leaves the word readable.
   */
  lemma {:induction false} PlaceWordKeepsLetters(g: Grid, w: string, start: Pos, d: Direction)
    requires IsGrid(g)
    requires PathFits(g, w, start, d, 0)
    ensures forall k :: 0 <= k < |w| ==> InGrid(Step(start, d, k))
    ensures Extends(g, PlaceWord(g, w, start, d))
    ensures Spells(PlaceWord(g, w, start, d), w, start, d)
  {
    assert FitsAlong(g, w, start, d);
    PlaceWordExtends(g, w, start, d);
    PlaceWordSpells(g, w, start, d);
  }

  /** The row-major index of a cell. */
  function Flat(p: Pos): int {
    p.row * Size + p.col
  }

  /** The cell with row-major index k. */
  function CellAt(k: nat): (p: Pos)
    requires k < Size * Size
    ensures InGrid(p) && Flat(p) == k
    ensures forall q :: InGrid(q) && Flat(q) == k ==> q == p
  {
    Pos(k / Size, k % Size)
  }

  /**
   * The fill loop of `fillEmptyCells` from row-major cell k on: each empty
   * cell takes the next letter draw; letter cells consume no draw.
   */
  function FillFrom(g: Grid, letters: seq<LetterDraw>, k: nat): (r: Grid)
    requires IsGrid(g)
    requires k <= Size * Size
    requires |letters| >= Size * Size - k
    ensures IsGrid(r)
    ensures forall p :: InGrid(p) && (Flat(p) < k || At(g, p).Some?) ==> At(r, p) == At(g, p)
    ensures forall p :: InGrid(p) && Flat(p) >= k && At(g, p).None? ==> At(r, p).Some? && IsCapital(At(r, p).value)
    decreases Size * Size - k
  {
    if k == Size * Size then g
    else
      var p := CellAt(k);
      if At(g, p) == None then
        FillFrom(Put(g, p, Some(Alphabet[letters[0]])), letters[1..], k + 1)
      else
        FillFrom(g, letters, k + 1)
  }

  /** `fillEmptyCells`: the fill loop over all 225 cells. */
  function FillEmpty(g: Grid, letters: seq<LetterDraw>): (r: Grid)
    requires IsGrid(g)
    requires |letters| >= Size * Size
    ensures IsGrid(r)
  {
    FillFrom(g, letters, 0)
  }

  /**
   * Letter cells are unchanged by the fill, every empty cell becomes a
   * capital A–Z, so afterwards no cell is empty.
   */
  lemma {:induction false} FillEmptyFills(g: Grid, letters: seq<LetterDraw>)
    requires IsGrid(g)
    requires |letters| >= Size * Size
    ensures Complete(FillEmpty(g, letters))
    ensures Extends(g, FillEmpty(g, letters))
    ensures forall p :: InGrid(p) && At(g, p).None? ==> IsCapital(At(FillEmpty(g, letters), p).value)
  {
  }
}
